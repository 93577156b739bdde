/**
 * The Annex-B byte stream: start codes, NAL units and their types
 * (Rec. ITU-T H.265 section B.2 and section 7.4.2.2), as agent/src/lib.rs scans them.
 */
module AnnexB {
  import opened Wrappers

  type Byte = b: int | 0 <= b < 256

  const VPS: nat := 32
  const SPS: nat := 33
  const PPS: nat := 34
  const AUD: nat := 35

  function NalType(header: Byte): nat {
    (header / 2) % 64
  }

  predicate IsIrap(t: nat) {
    16 <= t <= 23
  }

  /** A `00 00 01` triple lies at `i`. */
  predicate IsStart(b: seq<Byte>, i: nat) {
    i + 3 <= |b| && b[i] == 0 && b[i + 1] == 0 && b[i + 2] == 1
  }

  /** The first start code at or after `from`: the meaning of the scanner below. */
  function NextStart(b: seq<Byte>, from: nat): (r: Option<nat>)
    ensures r.Some? ==> from <= r.value && IsStart(b, r.value)
    decreases |b| - from
  {
    if from + 3 > |b| then None
    else if IsStart(b, from) then Some(from)
    else NextStart(b, from + 1)
  }

  /** No start code is passed over. */
  lemma {:induction false} NextStartFirst(b: seq<Byte>, from: nat, j: nat)
    requires from <= j && IsStart(b, j)
    ensures NextStart(b, from).Some? && NextStart(b, from).value <= j
    decreases j - from
  {
    if !IsStart(b, from) { NextStartFirst(b, from + 1, j); }
  }

  /** `find_start_code`: the scan that skips three bytes when the third cannot end a start code. */
  method FindStartCode(buf: seq<Byte>, from: nat) returns (r: Option<nat>)
    ensures r == NextStart(buf, from)
  {
    var i := from;
    while i + 3 <= |buf|
      invariant from <= i
      invariant NextStart(buf, from) == NextStart(buf, i)
      decreases |buf| - i
    {
      var b2 := buf[i + 2];
      if b2 > 1 {
        SkipThree(buf, i);
        i := i + 3;
      } else {
        if b2 == 1 && buf[i] == 0 && buf[i + 1] == 0 {
          return Some(i);
        }
        i := i + 1;
      }
    }
    return None;
  }

  lemma SkipThree(b: seq<Byte>, i: nat)
    requires i + 3 <= |b| && b[i + 2] > 1
    ensures NextStart(b, i) == NextStart(b, i + 3)
  {
    assert NextStart(b, i) == NextStart(b, i + 1) == NextStart(b, i + 2);
  }

  /** A search begun later, but not past the start code found, finds the same one. */
  lemma {:induction false} NextStartLater(b: seq<Byte>, from: nat, mid: nat)
    requires NextStart(b, from).Some? && from <= mid <= NextStart(b, from).value
    ensures NextStart(b, mid) == NextStart(b, from)
    decreases mid - from
  {
    if from < mid { NextStartLater(b, from + 1, mid); }
  }

  /** The search inside a slice is the search in the whole, cut off at the slice's end. */
  lemma NextStartSlice(b: seq<Byte>, lo: nat, hi: nat, f: nat)
    requires lo <= hi <= |b| && f <= hi - lo
    ensures NextStart(b[lo..hi], f)
         == match NextStart(b, lo + f)
            case None => None
            case Some(s) => if s + 3 <= hi then Some(s - lo) else None
  {
    var p := b[lo..hi];
    if NextStart(p, f).Some? {
      var r := NextStart(p, f).value;
      assert IsStart(b, lo + r);
      NextStartFirst(b, lo + f, lo + r);
    }
    if NextStart(b, lo + f).Some? && NextStart(b, lo + f).value + 3 <= hi {
      var s := NextStart(b, lo + f).value;
      assert IsStart(p, s - lo);
      NextStartFirst(p, f, s - lo);
    }
  }

  /** Where the NAL unit of the start code at `sc` begins: a leading zero byte belongs to it. */
  function Begin(b: seq<Byte>, sc: nat): nat
    requires sc <= |b|
  {
    if sc > 0 && b[sc - 1] == 0 then sc - 1 else sc
  }

  /** Where the NAL unit whose header is at `hdr` ends. */
  function EndOf(b: seq<Byte>, hdr: nat): nat
    requires hdr <= |b|
  {
    match NextStart(b, hdr) case None => |b| case Some(n) => Begin(b, n)
  }

  datatype Unit = Unit(begin: nat, hdr: nat, end: nat)

  /** The non-empty NAL units found from `from` on. */
  function Units(b: seq<Byte>, from: nat): seq<Unit>
    decreases |b| - from
  {
    match NextStart(b, from)
    case None => []
    case Some(sc) => UnitAt(b, sc) + Units(b, sc + 3)
  }

  /** The unit of one start code, or nothing when the next code follows at once. */
  function UnitAt(b: seq<Byte>, sc: nat): seq<Unit>
    requires sc + 3 <= |b|
  {
    if sc + 3 < EndOf(b, sc + 3) then [Unit(Begin(b, sc), sc + 3, EndOf(b, sc + 3))] else []
  }

  lemma UnitsSound(b: seq<Byte>, from: nat, u: Unit)
    requires u in Units(b, from)
    ensures u.begin < u.hdr < u.end <= |b| && 3 <= u.hdr && from <= u.hdr - 3
    ensures IsStart(b, u.hdr - 3) && u.begin == Begin(b, u.hdr - 3) && u.end == EndOf(b, u.hdr)
    decreases |b| - from
  {
    var sc := NextStart(b, from).value;
    if u !in UnitAt(b, sc) { UnitsSound(b, sc + 3, u); }
  }

  /** Start codes cannot overlap, so every one of them is found: `Units` lists exactly
      the start codes that carry at least a header byte. */
  lemma UnitsComplete(b: seq<Byte>, from: nat, sc: nat)
    requires from <= sc && IsStart(b, sc) && sc + 3 < EndOf(b, sc + 3)
    ensures Unit(Begin(b, sc), sc + 3, EndOf(b, sc + 3)) in Units(b, from)
    decreases |b| - from
  {
    NextStartFirst(b, from, sc);
    var s := NextStart(b, from).value;
    if s < sc {
      assert sc != s + 1 && sc != s + 2;
      UnitsComplete(b, s + 3, sc);
    }
  }

  /** Where the search resumes after the first `k` collected start codes. */
  function ScanFrom(starts: seq<(nat, nat)>, k: nat): nat
    requires k <= |starts|
  {
    if k == 0 then 0 else starts[k - 1].1
  }

  ghost predicate ChainedStarts(au: seq<Byte>, starts: seq<(nat, nat)>) {
    forall k :: 0 <= k < |starts| ==> Chained(au, starts, k)
  }

  ghost predicate Chained(au: seq<Byte>, starts: seq<(nat, nat)>, k: nat)
    requires k < |starts|
  {
    && 3 <= starts[k].1 <= |au|
    && NextStart(au, ScanFrom(starts, k)) == Some(starts[k].1 - 3)
    && starts[k].0 == Begin(au, starts[k].1 - 3)
  }

  /** The first loop of `nal_units`: (begin, header index) of every start code. */
  method CollectStarts(au: seq<Byte>) returns (starts: seq<(nat, nat)>)
    ensures ChainedStarts(au, starts)
    ensures ScanFrom(starts, |starts|) <= |au| && NextStart(au, ScanFrom(starts, |starts|)) == None
  {
    hide NextStart;
    starts := [];
    var from := 0;
    var next := FindStartCode(au, from);
    while next.Some?
      invariant from <= |au| && next == NextStart(au, from)
      invariant from == ScanFrom(starts, |starts|)
      invariant ChainedStarts(au, starts)
      decreases |au| - from
    {
      var sc := next.value;
      var begin := if sc > 0 && au[sc - 1] == 0 then sc - 1 else sc;
      ghost var before := starts;
      starts := starts + [(begin, sc + 3)];
      forall k | 0 <= k < |starts| ensures Chained(au, starts, k) {
        if k < |before| { assert Chained(au, before, k) && starts[k] == before[k]; }
      }
      from := sc + 3;
      next := FindStartCode(au, from);
    }
  }

  lemma UnitAtIs(b: seq<Byte>, sc: nat)
    requires sc + 3 <= |b|
    ensures UnitAt(b, sc) == if sc + 3 < EndOf(b, sc + 3) then [Unit(Begin(b, sc), sc + 3, EndOf(b, sc + 3))] else []
  {
  }

  lemma UnitsEnd(b: seq<Byte>, from: nat)
    requires NextStart(b, from) == None
    ensures Units(b, from) == []
  {
  }

  lemma UnitStep(b: seq<Byte>, out: seq<Unit>, sc: nat, from: nat, all: seq<Unit>)
    requires NextStart(b, from) == Some(sc) && out + Units(b, from) == all
    ensures (out + UnitAt(b, sc)) + Units(b, sc + 3) == all
  {
  }

  /** `nal_units`: collect the start codes, then pair each with the next. */
  method NalUnits(au: seq<Byte>) returns (out: seq<Unit>)
    ensures out == Units(au, 0)
  {
    hide NextStart, Units, UnitAt;
    var starts := CollectStarts(au);
    out := [];
    for k := 0 to |starts|
      invariant out + Units(au, ScanFrom(starts, k)) == Units(au, 0)
    {
      var (begin, hdr) := starts[k];
      var end := if k + 1 < |starts| then starts[k + 1].0 else |au|;
      assert Chained(au, starts, k);
      if k + 1 < |starts| { assert Chained(au, starts, k + 1); }
      UnitStep(au, out, hdr - 3, ScanFrom(starts, k), Units(au, 0));
      UnitAtIs(au, hdr - 3);
      if hdr < end {
        out := out + [Unit(begin, hdr, end)];
      }
    }
    UnitsEnd(au, ScanFrom(starts, |starts|));
  }

  /** The NAL types of a byte string, in order. */
  function Types(b: seq<Byte>, from: nat): seq<nat>
    decreases |b| - from
  {
    match NextStart(b, from)
    case None => []
    case Some(sc) => TypeAt(b, sc) + Types(b, sc + 3)
  }

  function TypeAt(b: seq<Byte>, sc: nat): seq<nat>
    requires sc + 3 <= |b|
  {
    if sc + 3 < EndOf(b, sc + 3) then [NalType(b[sc + 3])] else []
  }

  lemma TypesOfUnits(b: seq<Byte>, from: nat)
    ensures |Types(b, from)| == |Units(b, from)|
    ensures forall i :: 0 <= i < |Units(b, from)| ==>
      Units(b, from)[i].hdr < |b| && Types(b, from)[i] == NalType(b[Units(b, from)[i].hdr])
    decreases |b| - from
  {
    match NextStart(b, from) {
      case None =>
      case Some(sc) => TypesOfUnits(b, sc + 3);
    }
  }

  // ------------------------------------------------------------- seams ----

  /** The string opens with a three- or four-byte start code. */
  predicate OpensWithCode(y: seq<Byte>) {
    IsStart(y, 0) || (IsStart(y, 1) && y[0] == 0)
  }

  /** No NAL unit consisting of a lone zero header byte closes the string (a following
      three-byte start code would claim that byte as its own leading zero). */
  predicate SafeEnd(x: seq<Byte>) {
    !(|x| >= 4 && IsStart(x, |x| - 4) && x[|x| - 1] == 0)
  }

  lemma SeamSearch(x: seq<Byte>, y: seq<Byte>, from: nat)
    requires OpensWithCode(y) && from <= |x|
    ensures NextStart(x + y, from)
         == match NextStart(x, from)
            case Some(s) => Some(s)
            case None => Some(|x| + if IsStart(y, 0) then 0 else 1)
  {
    var z := x + y;
    assert z[0..|x|] == x;
    NextStartSlice(z, 0, |x|, from);
    var k := if IsStart(y, 0) then 0 else 1;
    assert IsStart(z, |x| + k);
    NextStartFirst(z, from, |x| + k);
    assert z[|x|] == 0 && z[|x| + 1] == 0;
  }

  /** The search from a unit's first byte finds its own start code. */
  lemma BeginSearch(b: seq<Byte>, sc: nat)
    requires IsStart(b, sc)
    ensures NextStart(b, Begin(b, sc)) == Some(sc)
  {
  }

  lemma ShiftSearch(x: seq<Byte>, y: seq<Byte>, f: nat)
    requires f <= |y|
    ensures NextStart(x + y, |x| + f)
         == match NextStart(y, f) case None => None case Some(s) => Some(|x| + s)
  {
    hide NextStart;
    var z := x + y;
    assert z[|x|..|z|] == y;
    NextStartSlice(z, |x|, |z|, f);
  }

  lemma ShiftTypeAt(x: seq<Byte>, y: seq<Byte>, sc: nat)
    requires sc + 3 <= |y|
    ensures TypeAt(x + y, |x| + sc) == TypeAt(y, sc)
  {
    hide NextStart;
    ShiftSearch(x, y, sc + 3);
    assert |x| + (sc + 3) == (|x| + sc) + 3;
  }

  lemma TypesStep(b: seq<Byte>, from: nat)
    ensures Types(b, from)
         == match NextStart(b, from) case None => [] case Some(sc) => TypeAt(b, sc) + Types(b, sc + 3)
  {
  }

  lemma {:induction false} ShiftTypes(x: seq<Byte>, y: seq<Byte>, f: nat)
    requires f <= |y|
    ensures Types(x + y, |x| + f) == Types(y, f)
    decreases |y| - f
  {
    hide *;
    TypesStep(x + y, |x| + f);
    TypesStep(y, f);
    ShiftSearch(x, y, f);
    if NextStart(y, f).Some? {
      var sc := NextStart(y, f).value;
      StartInside(y, sc);
      ShiftTypeAt(x, y, sc);
      ShiftTypes(x, y, sc + 3);
      assert |x| + (sc + 3) == (|x| + sc) + 3;
    }
  }

  lemma StartInside(b: seq<Byte>, sc: nat)
    requires IsStart(b, sc)
    ensures sc + 3 <= |b|
  {
  }

  /** A start code inside `x` keeps its unit's type when `y` follows. */
  lemma SeamTypeAt(x: seq<Byte>, y: seq<Byte>, sc: nat)
    requires OpensWithCode(y) && SafeEnd(x) && IsStart(x, sc)
    ensures sc + 3 <= |x| && TypeAt(x + y, sc) == TypeAt(x, sc)
  {
    hide NextStart;
    SeamSearch(x, y, sc + 3);
    if NextStart(x, sc + 3).None? && sc + 3 == |x| - 1 {
      assert IsStart(x, |x| - 4);
    }
  }

  /** No start code is created or destroyed where `x` meets a string that opens with one. */
  lemma {:induction false} SeamTypes(x: seq<Byte>, y: seq<Byte>, from: nat)
    requires OpensWithCode(y) && SafeEnd(x) && from <= |x|
    ensures Types(x + y, from) == Types(x, from) + Types(y, 0)
    decreases |x| - from
  {
    hide *;
    TypesStep(x + y, from);
    TypesStep(x, from);
    SeamSearch(x, y, from);
    match NextStart(x, from) {
      case None =>
        NextStartLater(x + y, from, |x|);
        TypesStep(x + y, |x|);
        ShiftTypes(x, y, 0);
      case Some(sc) =>
        SeamTypeAt(x, y, sc);
        SeamTypes(x, y, sc + 3);
    }
  }

  /** The start code, and what follows it, as the slice shows them. */
  lemma SliceStart(b: seq<Byte>, lo: nat, e: nat, sc: nat)
    requires lo <= sc && IsStart(b, sc) && sc + 3 < e <= |b|
    ensures IsStart(b[lo..e], sc - lo) && b[lo..e][sc - lo + 3] == b[sc + 3]
  {
    var p := b[lo..e];
    forall i | 0 <= i < |p| ensures p[i] == b[lo + i] {
    }
    assert p[sc - lo] == b[sc] && p[sc - lo + 1] == b[sc + 1] && p[sc - lo + 2] == b[sc + 2];
  }

  /** No start code follows inside a slice that ends where the unit ends. */
  lemma SliceQuiet(b: seq<Byte>, lo: nat, sc: nat)
    requires lo <= sc && IsStart(b, sc) && sc + 3 < EndOf(b, sc + 3)
    ensures EndOf(b, sc + 3) <= |b| && NextStart(b[lo..EndOf(b, sc + 3)], sc - lo + 3) == None
  {
    NextStartSlice(b, lo, EndOf(b, sc + 3), sc - lo + 3);
    assert lo + (sc - lo + 3) == sc + 3;
  }

  /** Two start codes do not overlap. */
  lemma StartsApart(p: seq<Byte>, k: nat, t: nat)
    requires IsStart(p, k) && IsStart(p, t) && k <= t
    ensures t == k || t >= k + 3
  {
  }

  /** A slice whose last start code is at `k` ends safely if that unit's first byte is not zero. */
  lemma QuietEnd(p: seq<Byte>, k: nat)
    requires k + 3 < |p| && IsStart(p, k) && NextStart(p, k + 3) == None && p[k + 3] != 0
    ensures SafeEnd(p)
  {
    hide NextStart, IsStart;
    var t := |p| - 4;
    if IsStart(p, t) {
      StartsApart(p, k, t);
      if t != k { NextStartFirst(p, k + 3, t); }
    }
  }

  /** In a slice that ends where the unit of `sc` ends, that unit is the last one. */
  lemma SliceTypeAt(b: seq<Byte>, lo: nat, sc: nat)
    requires lo <= sc && IsStart(b, sc) && sc + 3 < EndOf(b, sc + 3)
    ensures var p := b[lo..EndOf(b, sc + 3)];
      && IsStart(p, sc - lo)
      && NextStart(p, sc - lo + 3) == None
      && TypeAt(p, sc - lo) == [NalType(b[sc + 3])]
      && (b[sc + 3] != 0 ==> SafeEnd(p))
  {
    hide NextStart, SafeEnd;
    var e := EndOf(b, sc + 3);
    SliceQuiet(b, lo, sc);
    SliceStart(b, lo, e, sc);
    if b[sc + 3] != 0 { QuietEnd(b[lo..e], sc - lo); }
  }

  /** A unit cut out of its access unit re-parses to itself alone. */
  lemma UnitAlone(b: seq<Byte>, u: Unit)
    requires u in Units(b, 0)
    ensures u.begin < u.end <= |b| && u.hdr < |b|
    ensures OpensWithCode(b[u.begin..u.end])
    ensures Types(b[u.begin..u.end], 0) == [NalType(b[u.hdr])]
    ensures NalType(b[u.hdr]) != 0 ==> SafeEnd(b[u.begin..u.end])
  {
    hide *;
    UnitsSound(b, 0, u);
    var p := b[u.begin..u.end];
    var sc := u.hdr - 3;
    BeginNear(b, sc);
    SliceTypeAt(b, u.begin, sc);
    BeginSearch(b, sc);
    NextStartSlice(b, u.begin, u.end, 0);
    TypesStep(p, 0);
    TypesStep(p, sc - u.begin + 3);
    TypeAtFull(b, sc);
    CodeNearFront(p, sc - u.begin);
  }

  lemma BeginNear(b: seq<Byte>, sc: nat)
    requires IsStart(b, sc)
    ensures sc + 3 <= |b| && (Begin(b, sc) == sc || (Begin(b, sc) == sc - 1 && b[sc - 1] == 0))
  {
  }

  lemma CodeNearFront(p: seq<Byte>, k: nat)
    requires IsStart(p, k) && (k == 0 || (k == 1 && p[0] == 0))
    ensures OpensWithCode(p)
  {
  }

  lemma UnitsFirst(b: seq<Byte>, from: nat)
    requires Units(b, from) != []
    ensures NextStart(b, from).Some?
    ensures var sc := NextStart(b, from).value;
      if sc + 3 < EndOf(b, sc + 3) then Units(b, from)[0] == Unit(Begin(b, sc), sc + 3, EndOf(b, sc + 3))
      else Units(b, sc + 3) != [] && Units(b, sc + 3)[0] == Units(b, from)[0]
  {
  }

  /** A start code followed at once by the next stays empty in a prefix that keeps both. */
  lemma EmptyTypeAt(b: seq<Byte>, sc: nat, n: nat, e: nat)
    requires IsStart(b, sc) && NextStart(b, sc + 3) == Some(n) && n + 3 <= e <= |b|
    requires sc + 3 >= EndOf(b, sc + 3)
    ensures TypeAt(b, sc) == [] && IsStart(b[..e], sc) && TypeAt(b[..e], sc) == []
  {
    hide NextStart;
    assert b[..e] == b[0..e];
    NextStartSlice(b, 0, e, sc + 3);
  }

  /** Cutting at the end of the first unit separates its type from the rest. */
  lemma {:induction false} FirstUnitTypes(b: seq<Byte>, from: nat)
    requires Units(b, from) != [] && Types(b, from) != [] && Types(b, from)[0] != 0
    ensures var e := Units(b, from)[0].end;
      && from <= e <= |b|
      && Types(b[..e], from) == [Types(b, from)[0]]
      && SafeEnd(b[..e])
    decreases |b| - from
  {
    hide *;
    var u := Units(b, from)[0];
    UnitsSound(b, from, u);
    UnitsFirst(b, from);
    var x := b[..u.end];
    assert x == b[0..u.end];
    var sc := NextStart(b, from).value;
    StartInside(b, sc);
    TypesStep(b, from);
    TypesStep(x, from);
    NextStartSlice(b, 0, u.end, from);
    if sc + 3 < EndOf(b, sc + 3) {
      SliceTypeAt(b, 0, sc);
      TypeAtFull(b, sc);
      TypesStep(x, sc + 3);
    } else {
      UnitsFirst(b, sc + 3);
      UnitsSound(b, sc + 3, u);
      var n := NextStart(b, sc + 3).value;
      StartInside(b, n);
      FirstBeforeEnd(b, sc + 3);
      EmptyTypeAt(b, sc, n, u.end);
      FirstUnitTypes(b, sc + 3);
    }
  }

  lemma FirstBeforeEnd(b: seq<Byte>, from: nat)
    requires Units(b, from) != []
    ensures NextStart(b, from).Some? && NextStart(b, from).value + 3 <= Units(b, from)[0].end
  {
    hide *;
    UnitsFirst(b, from);
    var sc := NextStart(b, from).value;
    StartInside(b, sc);
    if sc + 3 >= EndOf(b, sc + 3) {
      UnitsSound(b, sc + 3, Units(b, from)[0]);
    }
  }

  lemma TypeAtFull(b: seq<Byte>, sc: nat)
    requires sc + 3 <= |b| && sc + 3 < EndOf(b, sc + 3)
    ensures sc + 3 < |b| && TypeAt(b, sc) == [NalType(b[sc + 3])]
    ensures NalType(b[sc + 3]) != 0 ==> b[sc + 3] != 0
  {
  }

  /** When another unit follows the first, the cut leaves a string that opens with its start code. */
  lemma {:induction false} RestOpens(b: seq<Byte>, from: nat)
    requires |Units(b, from)| >= 2
    ensures Units(b, from)[0].end <= |b|
    ensures OpensWithCode(b[Units(b, from)[0].end..])
    decreases |b| - from
  {
    hide NextStart;
    var sc := NextStart(b, from).value;
    if sc + 3 < EndOf(b, sc + 3) {
      var n := NextStart(b, sc + 3).value;
      var y := b[Begin(b, n)..];
      if Begin(b, n) == n { assert IsStart(y, 0); } else { assert IsStart(y, 1); }
    } else {
      RestOpens(b, sc + 3);
    }
  }
}
