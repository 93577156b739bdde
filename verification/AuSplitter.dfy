/**
 * The streaming AUD-delimited splitter of agent/src/lib.rs: whatever way the bytes are
 * chunked, the access units are the stream cut exactly at its AUD start codes; key frames
 * that lack parameter sets get the cached ones.
 */
module AuSplitting {
  import opened Wrappers
  import opened AnnexB

  // ------------------------------------------------------ where to cut ----

  /** The start code at `sc` opens an access unit delimiter that is not already in front. */
  predicate IsCut(s: seq<Byte>, sc: nat) {
    IsStart(s, sc) && sc + 3 < |s| && NalType(s[sc + 3]) == AUD && Begin(s, sc) > 0
  }

  /** The cut positions the search finds from `from` on. */
  function Cuts(s: seq<Byte>, from: nat): seq<nat>
    decreases |s| - from
  {
    match NextStart(s, from)
    case None => []
    case Some(sc) =>
      if sc + 3 >= |s| then []
      else (if IsCut(s, sc) then [Begin(s, sc)] else []) + Cuts(s, sc + 3)
  }

  /** Where the search must resume once everything in `s` has been looked at. */
  function Resume(s: seq<Byte>, from: nat): nat
    decreases |s| - from
  {
    match NextStart(s, from)
    case None => if |s| < 2 then 0 else |s| - 2
    case Some(sc) => if sc + 3 >= |s| then sc else Resume(s, sc + 3)
  }

  lemma CutsStep(s: seq<Byte>, from: nat)
    ensures Cuts(s, from)
         == match NextStart(s, from)
            case None => []
            case Some(sc) =>
              if sc + 3 >= |s| then []
              else (if IsCut(s, sc) then [Begin(s, sc)] else []) + Cuts(s, sc + 3)
    ensures Resume(s, from)
         == match NextStart(s, from)
            case None => if |s| < 2 then 0 else |s| - 2
            case Some(sc) => if sc + 3 >= |s| then sc else Resume(s, sc + 3)
  {
  }

  /** A position the search can stand at: the front, or just after a start code. */
  predicate Resumable(s: seq<Byte>, from: nat) {
    from == 0 || (3 <= from < |s| && IsStart(s, from - 3))
  }

  lemma ExtendSearch(s: seq<Byte>, d: seq<Byte>, from: nat)
    requires from <= |s|
    ensures NextStart(s, from).Some? ==> NextStart(s + d, from) == NextStart(s, from)
    ensures NextStart(s, from).None? && NextStart(s + d, from).Some? ==> NextStart(s + d, from).value + 3 > |s|
  {
    hide NextStart;
    var z := s + d;
    assert z[0..|s|] == s;
    NextStartSlice(z, 0, |s|, from);
  }

  /** Nothing found in `s`: with more data, searching from `from` or from the last two bytes is the same. */
  lemma ExtendNone(s: seq<Byte>, d: seq<Byte>, from: nat)
    requires Resumable(s, from) && NextStart(s, from) == None
    ensures NextStart(s + d, if |s| < 2 then 0 else |s| - 2) == NextStart(s + d, from)
  {
    hide NextStart;
    ExtendSearch(s, d, from);
    var z := s + d;
    var r := if |s| < 2 then 0 else |s| - 2;
    if r < from {
      assert r == from - 1 && z[from - 1] == s[from - 1] == 1;
      SearchPast(z, r);
    } else if NextStart(z, from).Some? {
      NextStartLater(z, from, r);
    } else if NextStart(z, r).Some? {
      NextStartFirst(z, from, NextStart(z, r).value);
    }
  }

  lemma SearchPast(z: seq<Byte>, r: nat)
    requires r < |z| && z[r] != 0
    ensures NextStart(z, r) == NextStart(z, r + 1)
  {
  }

  /** The start code found last, too close to the end to go past: the search resumes at it. */
  lemma ExtendAtEnd(s: seq<Byte>, d: seq<Byte>, from: nat, sc: nat)
    requires Resumable(s, from) && NextStart(s, from) == Some(sc) && sc + 3 >= |s|
    ensures Resume(s, from) == sc && Cuts(s, from) == []
    ensures Cuts(s + d, from) == Cuts(s + d, sc) && Resume(s + d, from) == Resume(s + d, sc)
  {
    hide NextStart, Cuts, Resume;
    var z := s + d;
    ExtendSearch(s, d, from);
    CutsStep(s, from);
    CutsStep(z, from);
    NextStartLater(z, from, sc);
    CutsStep(z, sc);
  }

  /** A start code with more behind it is the same cut, or the same none, with more data. */
  lemma SameCut(s: seq<Byte>, d: seq<Byte>, sc: nat)
    requires sc + 3 < |s| && IsStart(s, sc)
    ensures IsCut(s + d, sc) == IsCut(s, sc) && Begin(s + d, sc) == Begin(s, sc)
  {
  }

  /** The key to chunk independence: the cuts of a longer stream are the cuts already
      made, then those found from where the search stopped. */
  lemma {:induction false} ExtendCuts(s: seq<Byte>, d: seq<Byte>, from: nat)
    requires Resumable(s, from)
    ensures Resume(s, from) <= |s|
    ensures Cuts(s + d, from) == Cuts(s, from) + Cuts(s + d, Resume(s, from))
    ensures Resume(s + d, from) == Resume(s + d, Resume(s, from))
    decreases |s| - from
  {
    hide NextStart, Cuts, Resume, IsCut, Begin;
    var z := s + d;
    match NextStart(s, from) {
      case None =>
        ExtendSearch(s, d, from);
        CutsStep(s, from);
        CutsStep(z, from);
        ExtendNone(s, d, from);
        CutsStep(z, Resume(s, from));
      case Some(sc) =>
        if sc + 3 >= |s| {
          ExtendAtEnd(s, d, from, sc);
        } else {
          ExtendSearch(s, d, from);
          CutsStep(s, from);
          CutsStep(z, from);
          assert IsStart(s, sc + 3 - 3);
          ExtendCuts(s, d, sc + 3);
          SameCut(s, d, sc);
        }
    }
  }

  /** The cuts are exactly the AUD start codes not at the very front (their leading
      zero byte included), in increasing order. */
  lemma {:induction false} CutsExact(s: seq<Byte>, from: nat, c: nat)
    ensures c in Cuts(s, from) <==> exists sc: nat :: from <= sc && IsCut(s, sc) && c == Begin(s, sc)
    decreases |s| - from
  {
    hide NextStart, Cuts;
    CutsStep(s, from);
    match NextStart(s, from) {
      case None =>
        if sc: nat :| from <= sc && IsCut(s, sc) { NextStartFirst(s, from, sc); }
      case Some(a) =>
        CutsExact(s, a + 3, c);
        if sc: nat :| from <= sc && IsCut(s, sc) && c == Begin(s, sc) {
          NextStartFirst(s, from, sc);
          assert sc == a || sc >= a + 3;
        }
    }
  }

  lemma {:induction false} CutsIncrease(s: seq<Byte>, from: nat)
    requires from == 0 || (3 <= from <= |s| && IsStart(s, from - 3))
    ensures forall i :: 0 <= i < |Cuts(s, from)| ==> 0 < Cuts(s, from)[i] < |s| && from <= Cuts(s, from)[i]
    ensures forall i, j :: 0 <= i < j < |Cuts(s, from)| ==> Cuts(s, from)[i] < Cuts(s, from)[j]
    decreases |s| - from
  {
    hide NextStart, Cuts;
    CutsStep(s, from);
    if NextStart(s, from).Some? && NextStart(s, from).value + 3 < |s| {
      var sc := NextStart(s, from).value;
      CutsIncrease(s, sc + 3);
    }
  }

  // --------------------------------------------------------- the pieces ----

  function Last(cuts: seq<nat>): nat {
    if cuts == [] then 0 else cuts[|cuts| - 1]
  }

  predicate Ordered(s: seq<Byte>, cuts: seq<nat>) {
    && (forall i :: 0 <= i < |cuts| ==> cuts[i] <= |s|)
    && (forall i, j :: 0 <= i < j < |cuts| ==> cuts[i] <= cuts[j])
  }

  /** The stream up to the last cut, piece by piece. */
  function Pieces(s: seq<Byte>, cuts: seq<nat>): seq<seq<Byte>>
    requires Ordered(s, cuts)
  {
    if cuts == [] then []
    else
      var front := cuts[..|cuts| - 1];
      Pieces(s, front) + [s[Last(front)..Last(cuts)]]
  }

  function Flatten(parts: seq<seq<Byte>>): seq<Byte> {
    if parts == [] then [] else Flatten(parts[..|parts| - 1]) + parts[|parts| - 1]
  }

  lemma {:induction false} PiecesCover(s: seq<Byte>, cuts: seq<nat>)
    requires Ordered(s, cuts)
    ensures Last(cuts) <= |s| && Flatten(Pieces(s, cuts)) == s[..Last(cuts)]
  {
    if cuts != [] {
      var front := cuts[..|cuts| - 1];
      PiecesCover(s, front);
      assert Pieces(s, cuts)[..|Pieces(s, cuts)| - 1] == Pieces(s, front);
    }
  }

  lemma {:induction false} PiecesExtend(s: seq<Byte>, d: seq<Byte>, cuts: seq<nat>)
    requires Ordered(s, cuts)
    ensures Ordered(s + d, cuts) && Pieces(s + d, cuts) == Pieces(s, cuts)
  {
    if cuts != [] {
      var front := cuts[..|cuts| - 1];
      PiecesExtend(s, d, front);
      assert (s + d)[Last(front)..Last(cuts)] == s[Last(front)..Last(cuts)];
    }
  }

  // ------------------------------------------------------ parameter sets ----

  type Params = p: seq<Option<seq<Byte>>> | |p| == 3 witness [None, None, None]

  datatype AccessUnit = AccessUnit(data: seq<Byte>, key: bool)

  /** The bytes of the last unit of type `t` among `us`. */
  function LastUnit(au: seq<Byte>, us: seq<Unit>, t: nat): Option<seq<Byte>>
    requires UnitsIn(au, us)
  {
    if us == [] then None
    else
      var u := us[|us| - 1];
      if NalType(au[u.hdr]) == t then Some(au[u.begin..u.end]) else LastUnit(au, us[..|us| - 1], t)
  }

  predicate UnitsIn(au: seq<Byte>, us: seq<Unit>) {
    forall u :: u in us ==> u.begin < u.hdr < u.end <= |au|
  }

  lemma UnitsInside(au: seq<Byte>)
    ensures UnitsIn(au, Units(au, 0))
  {
    forall u | u in Units(au, 0) ensures u.begin < u.hdr < u.end <= |au| { UnitsSound(au, 0, u); }
  }

  function OrElse(a: Option<seq<Byte>>, b: Option<seq<Byte>>): Option<seq<Byte>> {
    if a.Some? then a else b
  }

  /** The cache after an access unit: the newest VPS, SPS and PPS it carries replace the old ones. */
  function Cached(au: seq<Byte>, us: seq<Unit>, params: Params): Params
    requires UnitsIn(au, us)
  {
    [OrElse(LastUnit(au, us, VPS), params[0]),
     OrElse(LastUnit(au, us, SPS), params[1]),
     OrElse(LastUnit(au, us, PPS), params[2])]
  }

  predicate IsKey(ts: seq<nat>) {
    exists i :: 0 <= i < |ts| && IsIrap(ts[i])
  }

  predicate Complete(params: Params) {
    params[0].Some? && params[1].Some? && params[2].Some?
  }

  /** The cached sets an access unit of types `ts` lacks, in VPS, SPS, PPS order. */
  function Missing(ts: seq<nat>, params: Params): seq<Byte>
    requires Complete(params)
  {
    (if VPS in ts then [] else params[0].value)
    + (if SPS in ts then [] else params[1].value)
    + (if PPS in ts then [] else params[2].value)
  }

  /** Where cached sets go: after a leading AUD, else in front. */
  function InsertAt(au: seq<Byte>): (e: nat)
    ensures e <= |au|
  {
    UnitsInside(au);
    var us := Units(au, 0);
    if us != [] && NalType(au[us[0].hdr]) == AUD then us[0].end else 0
  }

  predicate Inserts(ts: seq<nat>, params: Params) {
    IsKey(ts) && !(VPS in ts && SPS in ts && PPS in ts) && Complete(params)
  }

  function ParamsAfter(au: seq<Byte>, params: Params): Params {
    UnitsInside(au);
    Cached(au, Units(au, 0), params)
  }

  function Finished(au: seq<Byte>, params: Params): AccessUnit {
    var ts := Types(au, 0);
    var p := ParamsAfter(au, params);
    if Inserts(ts, p) then
      AccessUnit(au[..InsertAt(au)] + Missing(ts, p) + au[InsertAt(au)..], true)
    else AccessUnit(au, IsKey(ts))
  }

  /** The cache and the finished units after a list of raw pieces. */
  function CacheAfter(raws: seq<seq<Byte>>, params: Params): Params {
    if raws == [] then params
    else ParamsAfter(raws[|raws| - 1], CacheAfter(raws[..|raws| - 1], params))
  }

  function FinishedAll(raws: seq<seq<Byte>>, params: Params): (out: seq<AccessUnit>)
    ensures |out| == |raws|
  {
    if raws == [] then []
    else
      var front := raws[..|raws| - 1];
      FinishedAll(front, params) + [Finished(raws[|raws| - 1], CacheAfter(front, params))]
  }

  // ------------------------------------------- soundness of re-insertion ----

  /** A cached set: one unit of type `t` that can be set between other units. */
  predicate SoundParam(p: seq<Byte>, t: nat) {
    OpensWithCode(p) && SafeEnd(p) && Types(p, 0) == [t]
  }

  predicate SoundCache(params: Params) {
    forall i :: 0 <= i < 3 ==> params[i].Some? ==> SoundParam(params[i].value, VPS + i)
  }

  lemma {:induction false} LastUnitSound(au: seq<Byte>, us: seq<Unit>, t: nat)
    requires UnitsIn(au, us) && t != 0
    requires forall u :: u in us ==> u in Units(au, 0)
    ensures LastUnit(au, us, t).Some? ==> SoundParam(LastUnit(au, us, t).value, t)
    ensures LastUnit(au, us, t).Some? <==> exists i :: 0 <= i < |us| && NalType(au[us[i].hdr]) == t
  {
    hide NextStart, Units, Types, OpensWithCode, SafeEnd;
    if us != [] {
      var u := us[|us| - 1];
      if NalType(au[u.hdr]) == t {
        UnitAlone(au, u);
      } else {
        LastUnitSound(au, us[..|us| - 1], t);
      }
    }
  }

  /** Every run keeps the cache sound. */
  lemma CacheStaysSound(au: seq<Byte>, params: Params)
    requires SoundCache(params)
    ensures SoundCache(ParamsAfter(au, params))
  {
    hide NextStart, Units, Types, SoundParam, LastUnit;
    UnitsInside(au);
    LastUnitSound(au, Units(au, 0), VPS);
    LastUnitSound(au, Units(au, 0), SPS);
    LastUnitSound(au, Units(au, 0), PPS);
  }

  lemma {:induction false} CacheAfterSound(raws: seq<seq<Byte>>, params: Params)
    requires SoundCache(params)
    ensures SoundCache(CacheAfter(raws, params))
  {
    hide NextStart, Units, Types, SoundCache, ParamsAfter;
    if raws != [] {
      CacheAfterSound(raws[..|raws| - 1], params);
      CacheStaysSound(raws[|raws| - 1], CacheAfter(raws[..|raws| - 1], params));
    }
  }

  /** The NAL types an insertion adds. */
  function MissingTypes(ts: seq<nat>): seq<nat> {
    (if VPS in ts then [] else [VPS]) + (if SPS in ts then [] else [SPS]) + (if PPS in ts then [] else [PPS])
  }

  /** Setting one sound parameter set after a safe prefix appends its type and stays safe. */
  lemma AppendParam(x: seq<Byte>, p: seq<Byte>, t: nat)
    requires SafeEnd(x) && SoundParam(p, t)
    ensures SafeEnd(x + p) && Types(x + p, 0) == Types(x, 0) + [t]
  {
    hide NextStart, Types;
    SeamTypes(x, p, 0);
    TypesStep(p, 0);
    ParamLong(p, t);
  }

  lemma ParamLong(p: seq<Byte>, t: nat)
    requires SoundParam(p, t)
    ensures |p| >= 4
  {
    hide NextStart, Types;
    TypesStep(p, 0);
    if |p| < 4 {
      var sc := NextStart(p, 0).value;
      TypesStep(p, sc + 3);
    }
  }

  lemma AppendMissing(x: seq<Byte>, ts: seq<nat>, params: Params)
    requires SafeEnd(x) && Complete(params) && SoundCache(params)
    ensures SafeEnd(x + Missing(ts, params))
    ensures Types(x + Missing(ts, params), 0) == Types(x, 0) + MissingTypes(ts)
  {
    hide NextStart, Types, SafeEnd, SoundParam;
    var a := if VPS in ts then [] else params[0].value;
    var b := if SPS in ts then [] else params[1].value;
    var c := if PPS in ts then [] else params[2].value;
    assert SoundParam(params[0].value, VPS) && SoundParam(params[1].value, VPS + 1) && SoundParam(params[2].value, VPS + 2);
    assert x + [] == x && (x + a) + [] == x + a && (x + a + b) + [] == x + a + b;
    if VPS !in ts { AppendParam(x, a, VPS); }
    if SPS !in ts { AppendParam(x + a, b, SPS); }
    if PPS !in ts { AppendParam(x + a + b, c, PPS); }
    assert x + Missing(ts, params) == x + a + b + c;
  }

  /** The insertion point splits the types of the access unit: nothing, or the AUD alone, in front. */
  lemma InsertPoint(au: seq<Byte>)
    requires IsKey(Types(au, 0))
    requires InsertAt(au) == 0 ==> OpensWithCode(au)
    ensures var e := InsertAt(au);
      && SafeEnd(au[..e]) && OpensWithCode(au[e..])
      && Types(au[..e], 0) == (if e == 0 then [] else [AUD])
      && Types(au, 0) == Types(au[..e], 0) + Types(au[e..], 0)
  {
    hide NextStart, Types, Units, SafeEnd, OpensWithCode;
    UnitsInside(au);
    TypesOfUnits(au, 0);
    var us := Units(au, 0);
    var e := InsertAt(au);
    if us != [] && NalType(au[us[0].hdr]) == AUD {
      assert |us| >= 2;
      FirstUnitTypes(au, 0);
      RestOpens(au, 0);
      assert au == au[..e] + au[e..];
      SeamTypes(au[..e], au[e..], 0);
    } else {
      assert au[..0] == [] && au[0..] == au;
      EmptyTypes();
    }
  }

  lemma EmptyTypes()
    ensures Types([], 0) == [] && SafeEnd([])
  {
  }

  /** Re-insertion is sound: a key frame that starts with an AUD (or with any start code)
      and lacks parameter sets re-parses to its own types plus exactly the missing ones,
      right after the AUD; every other unit leaves as it came. */
  lemma ReinsertionSound(au: seq<Byte>, params: Params)
    requires SoundCache(params)
    ensures var ts := Types(au, 0);
      var out := Finished(au, params);
      && out.key == IsKey(ts)
      && (!Inserts(ts, ParamsAfter(au, params)) ==> out.data == au)
      && (Inserts(ts, ParamsAfter(au, params)) && (InsertAt(au) == 0 ==> OpensWithCode(au)) ==>
           var k := if InsertAt(au) == 0 then 0 else 1;
           && k <= |ts| && (k == 1 ==> ts[0] == AUD)
           && Types(out.data, 0) == ts[..k] + MissingTypes(ts) + ts[k..])
  {
    hide NextStart, Types, SafeEnd, OpensWithCode, SoundCache, ParamsAfter, InsertAt, Missing, MissingTypes, Complete;
    var ts := Types(au, 0);
    var p := ParamsAfter(au, params);
    if Inserts(ts, p) && (InsertAt(au) == 0 ==> OpensWithCode(au)) {
      CacheStaysSound(au, params);
      InsertPoint(au);
      var e := InsertAt(au);
      var x := au[..e] + Missing(ts, p);
      AppendMissing(au[..e], ts, p);
      SeamTypes(x, au[e..], 0);
      var k := if e == 0 then 0 else 1;
      assert ts[..k] == Types(au[..e], 0) && ts[k..] == Types(au[e..], 0);
    }
  }

  /** A late joiner can start at any key frame: once VPS, SPS and PPS have all been seen,
      every key frame that starts with an AUD carries all three. */
  lemma KeyFramesCarryParameterSets(au: seq<Byte>, params: Params)
    requires SoundCache(params) && Complete(ParamsAfter(au, params))
    requires IsKey(Types(au, 0)) && Types(au, 0)[0] == AUD
    ensures var ts := Types(Finished(au, params).data, 0);
      VPS in ts && SPS in ts && PPS in ts && ts[0] == AUD && IsKey(ts)
  {
    hide NextStart, Types, Units, SoundCache, ParamsAfter, Missing, Complete, SafeEnd, OpensWithCode;
    ReinsertionSound(au, params);
    UnitsInside(au);
    TypesOfUnits(au, 0);
    var ts := Types(au, 0);
    if Inserts(ts, ParamsAfter(au, params)) {
      assert InsertAt(au) != 0;
      var out := Types(Finished(au, params).data, 0);
      assert out == ts[..1] + MissingTypes(ts) + ts[1..];
      var i :| 0 <= i < |ts| && IsIrap(ts[i]);
      var m := |MissingTypes(ts)|;
      assert out[i + m] == ts[i];
      assert MissingTypes(ts) == out[1..1 + m];
      assert forall t :: t in ts ==> t in out by {
        assert ts == ts[..1] + ts[1..];
      }
      assert forall t :: t in MissingTypes(ts) ==> t in out;
    }
  }

  // ---------------------------------------------------------- the class ----

  /** The whole-stream meaning: cut at the AUDs, finish each piece, and the rest on flush. */
  function Raws(s: seq<Byte>): seq<seq<Byte>> {
    CutsOrdered(s);
    Pieces(s, Cuts(s, 0))
  }

  function Split(s: seq<Byte>, params: Params): seq<AccessUnit> {
    FinishedAll(AllRaws(s), params)
  }

  function AllRaws(s: seq<Byte>): seq<seq<Byte>> {
    CutsOrdered(s);
    var rest := s[Last(Cuts(s, 0))..];
    Raws(s) + if rest == [] then [] else [rest]
  }

  lemma CutsOrdered(s: seq<Byte>)
    ensures Ordered(s, Cuts(s, 0)) && Last(Cuts(s, 0)) <= |s|
  {
    hide Cuts;
    CutsIncrease(s, 0);
  }

  /** Before parameter sets are added the units concatenate back to the stream. */
  lemma RawsConcatenate(s: seq<Byte>)
    ensures Flatten(AllRaws(s)) == s
  {
    hide Cuts, Pieces, Ordered;
    CutsOrdered(s);
    PiecesCover(s, Cuts(s, 0));
    var rest := s[Last(Cuts(s, 0))..];
    assert s == s[..Last(Cuts(s, 0))] + rest;
    if rest != [] {
      assert AllRaws(s)[..|AllRaws(s)| - 1] == Raws(s);
    } else {
      assert AllRaws(s) == Raws(s);
    }
  }

  lemma PiecesAppend(s: seq<Byte>, cuts: seq<nat>, c: nat)
    requires Ordered(s, cuts + [c])
    ensures Ordered(s, cuts) && Last(cuts) <= c <= |s|
    ensures Pieces(s, cuts + [c]) == Pieces(s, cuts) + [s[Last(cuts)..c]]
  {
    assert (cuts + [c])[..|cuts|] == cuts;
    assert forall i :: 0 <= i < |cuts| ==> (cuts + [c])[i] == cuts[i];
    assert (cuts + [c])[|cuts|] == c;
  }

  lemma FinishAppend(raws: seq<seq<Byte>>, raw: seq<Byte>, params: Params)
    ensures CacheAfter(raws + [raw], params) == ParamsAfter(raw, CacheAfter(raws, params))
    ensures FinishedAll(raws + [raw], params)
         == FinishedAll(raws, params) + [Finished(raw, CacheAfter(raws, params))]
  {
    hide ParamsAfter, Finished;
    assert (raws + [raw])[..|raws|] == raws;
  }

  lemma OrderedPrefix(s: seq<Byte>, cuts: seq<nat>, more: seq<nat>)
    requires Ordered(s, cuts + more)
    ensures Ordered(s, cuts)
  {
    assert forall i :: 0 <= i < |cuts| ==> (cuts + more)[i] == cuts[i];
  }

  lemma ScanStart(au: seq<Byte>, params: Params)
    ensures Cached(au, [], params) == params && !IsKey([])
  {
  }

  /** One turn of the loop over an access unit's units. */
  lemma ScanStep(au: seq<Byte>, us: seq<Unit>, i: nat, ts: seq<nat>, params: Params)
    requires UnitsIn(au, us) && i < |us| == |ts| && ts[i] == NalType(au[us[i].hdr])
    ensures UnitsIn(au, us[..i]) && UnitsIn(au, us[..i + 1])
    ensures ts[..i + 1] == ts[..i] + [ts[i]]
    ensures IsKey(ts[..i + 1]) == (IsKey(ts[..i]) || IsIrap(ts[i]))
    ensures Cached(au, us[..i + 1], params)
         == var c := Cached(au, us[..i], params);
            if VPS <= ts[i] <= PPS then c[ts[i] - VPS := Some(au[us[i].begin..us[i].end])] else c
  {
    assert us[..i + 1][..i] == us[..i];
    assert ts[..i + 1] == ts[..i] + [ts[i]];
    assert IsIrap(ts[i]) ==> IsIrap(ts[..i + 1][i]);
    assert forall j :: 0 <= j < i ==> ts[..i + 1][j] == ts[..i][j];
  }

  lemma FinishedMeans(au: seq<Byte>, params: Params)
    ensures UnitsIn(au, Units(au, 0))
    ensures ParamsAfter(au, params) == Cached(au, Units(au, 0), params)
    ensures var ts := Types(au, 0);
      var p := ParamsAfter(au, params);
      Finished(au, params) ==
        if Inserts(ts, p) then AccessUnit((au[..InsertAt(au)] + Missing(ts, p)) + au[InsertAt(au)..], true)
        else AccessUnit(au, IsKey(ts))
    ensures InsertAt(au) ==
      if Units(au, 0) != [] && NalType(au[Units(au, 0)[0].hdr]) == AUD then Units(au, 0)[0].end else 0
  {
    hide NextStart, Types, Units, Missing, Cached, IsKey;
    UnitsInside(au);
  }

  lemma MissingMeans(ts: seq<nat>, params: Params, front: seq<Byte>)
    requires Complete(params)
    ensures var a := if VPS in ts then front else front + params[0].value;
      var b := if SPS in ts then a else a + params[1].value;
      var c := if PPS in ts then b else b + params[2].value;
      c == front + Missing(ts, params)
  {
  }

  class AuSplitter {
    var buf: seq<Byte>
    var searchFrom: nat
    var params: Params
    /** Everything pushed since the last flush, and the cache as it was then. */
    ghost var stream: seq<Byte>
    ghost var base: Params

    ghost predicate Valid()
      reads this
    {
      At(stream, Cuts(stream, 0)) && Last(Cuts(stream, 0)) + searchFrom == Resume(stream, 0)
    }

    /** The buffer is the stream after the last of `done` cuts; the cache is that of the pieces before it. */
    ghost predicate At(s: seq<Byte>, done: seq<nat>)
      reads this
    {
      && Ordered(s, done) && Last(done) <= |s|
      && buf == s[Last(done)..]
      && searchFrom <= |buf|
      && (done != [] ==> searchFrom >= 2 && |buf| >= 4)
      && params == CacheAfter(Pieces(s, done), base)
    }

    constructor ()
      ensures Valid() && stream == [] && base == [None, None, None]
    {
      buf, searchFrom, params := [], 0, [None, None, None];
      stream, base := [], [None, None, None];
    }

    method Finish(au: seq<Byte>) returns (unit: AccessUnit)
      modifies this`params
      ensures unit == Finished(au, old(params)) && params == ParamsAfter(au, old(params))
    {
      hide NextStart, Types, Units, Cached, IsKey, IsIrap, NalType, Finished, Missing, InsertAt, LastUnit;
      var units := NalUnits(au);
      UnitsInside(au);
      var key, have := Scan(au, units);
      unit := Rebuild(au, units, key, have);
      hide ParamsAfter;
      FinishedMeans(au, old(params));
    }

    /** The loop of `finish`: what the units are, and the cache with their parameter sets. */
    method Scan(au: seq<Byte>, units: seq<Unit>) returns (key: bool, have: seq<bool>)
      requires units == Units(au, 0) && UnitsIn(au, units)
      modifies this`params
      ensures key == IsKey(Types(au, 0)) && have == [VPS in Types(au, 0), SPS in Types(au, 0), PPS in Types(au, 0)]
      ensures params == Cached(au, units, old(params))
    {
      hide NextStart, Types, Units, Cached, IsKey, IsIrap, NalType;
      TypesOfUnits(au, 0);
      ghost var ts := Types(au, 0);
      key, have := false, [false, false, false];
      ScanStart(au, old(params));
      for i := 0 to |units|
        invariant |have| == 3
        invariant key == IsKey(ts[..i])
        invariant have == [VPS in ts[..i], SPS in ts[..i], PPS in ts[..i]]
        invariant UnitsIn(au, units[..i])
        invariant params == Cached(au, units[..i], old(params))
      {
        var u := units[i];
        var t := NalType(au[u.hdr]);
        ScanStep(au, units, i, ts, old(params));
        if IsIrap(t) {
          key := true;
        }
        if VPS <= t <= PPS {
          have := have[t - VPS := true];
          params := params[t - VPS := Some(au[u.begin..u.end])];
        }
      }
      assert ts[..|units|] == ts && units[..|units|] == units;
    }

    /** The tail of `finish`: a key frame without in-band sets gets the cached ones after its AUD. */
    method Rebuild(au: seq<Byte>, units: seq<Unit>, key: bool, have: seq<bool>) returns (unit: AccessUnit)
      requires units == Units(au, 0) && UnitsIn(au, units) && key == IsKey(Types(au, 0))
      requires have == [VPS in Types(au, 0), SPS in Types(au, 0), PPS in Types(au, 0)]
      ensures unit ==
        if Inserts(Types(au, 0), params)
        then AccessUnit((au[..InsertAt(au)] + Missing(Types(au, 0), params)) + au[InsertAt(au)..], true)
        else AccessUnit(au, IsKey(Types(au, 0)))
    {
      hide NextStart, Types, Units, IsKey, NalType, Missing;
      if !key || (have[0] && have[1] && have[2]) || params[0].None? || params[1].None? || params[2].None? {
        return AccessUnit(au, key);
      }
      var audEnd := if units != [] && NalType(au[units[0].hdr]) == AUD then units[0].end else 0;
      var rebuilt := au[..audEnd];
      MissingMeans(Types(au, 0), params, rebuilt);
      if !have[0] { rebuilt := rebuilt + params[0].value; }
      if !have[1] { rebuilt := rebuilt + params[1].value; }
      if !have[2] { rebuilt := rebuilt + params[2].value; }
      rebuilt := rebuilt + au[audEnd..];
      return AccessUnit(rebuilt, key);
    }

    /** `done` are the cuts made; those the search will still find complete them. */
    ghost predicate Between(done: seq<nat>)
      reads this
    {
      && At(stream, done)
      && Cuts(stream, 0) == done + Cuts(stream, Last(done) + searchFrom)
      && Resume(stream, 0) == Resume(stream, Last(done) + searchFrom)
    }

    /** Split the buffer at an AUD and finish the unit in front of it. */
    method SplitOff(ghost done: seq<nat>, begin: nat, sc: nat) returns (unit: AccessUnit, ghost done': seq<nat>)
      requires At(stream, done) && 0 < begin <= sc <= begin + 1 && sc + 3 < |buf|
      requires Cuts(stream, 0) == done + ([Last(done) + begin] + Cuts(stream, Last(done) + sc + 3))
      modifies `buf, `searchFrom, `params
      ensures done' == done + [Last(done) + begin]
      ensures At(stream, done')
      ensures Cuts(stream, 0) == done' + Cuts(stream, Last(done') + searchFrom)
      ensures Last(done') + searchFrom == Last(done) + sc + 3
      ensures FinishedAll(Pieces(stream, done'), base) == FinishedAll(Pieces(stream, done), base) + [unit]
    {
      hide NextStart, Cuts, Pieces, FinishedAll, Finished, ParamsAfter, CacheAfter, Ordered, Last;
      ghost var cut := Last(done) + begin;
      TakeCut(stream, done, cut, Cuts(stream, Last(done) + sc + 3), base);
      var au := buf[..begin];
      assert au == stream[Last(done)..cut] && buf[begin..] == stream[cut..];
      buf := buf[begin..];
      unit := Finish(au);
      searchFrom := sc - begin + 3;
      done' := done + [cut];
    }

    /** One turn of the push loop: stop for lack of data, emit a unit, or step past a start code. */
    method Advance(ghost done: seq<nat>) returns (more: bool, out: seq<AccessUnit>, ghost done': seq<nat>)
      requires Between(done)
      modifies `buf, `searchFrom, `params
      ensures more ==> Between(done') && Last(done') + searchFrom > old(Last(done) + searchFrom)
      ensures !more ==> Valid() && out == [] && done' == Cuts(stream, 0) == done
      ensures Last(done') <= |stream| && Ordered(stream, done')
      ensures FinishedAll(Pieces(stream, done'), base) == FinishedAll(Pieces(stream, done), base) + out
    {
      hide NextStart, Cuts, Resume, Pieces, FinishedAll, Finished, ParamsAfter, CacheAfter, IsStart, NalType, Ordered, Last, IsCut;
      Look(stream, done, searchFrom);
      var found := FindStartCode(buf, searchFrom);
      out, done' := [], done;
      assert done + [] == done;
      assert |buf| == |stream| - Last(done);
      if found.None? {
        searchFrom := if |buf| < 2 then 0 else |buf| - 2;
        return false, [], done;
      }
      var sc := found.value;
      if sc + 3 >= |buf| {
        // The NAL header byte is still to come.
        searchFrom := sc;
        return false, [], done;
      }
      var t := NalType(buf[sc + 3]);
      var begin := if sc > 0 && buf[sc - 1] == 0 then sc - 1 else sc;
      if t == AUD && begin > 0 {
        var unit;
        unit, done' := SplitOff(done, begin, sc);
        return true, [unit], done';
      } else {
        searchFrom := sc + 3;
        return true, [], done;
      }
    }

    /** Whatever the chunking, after a push the splitter stands where the whole stream so far
        puts it, and has emitted exactly the finished pieces of that stream. */
    method Push(data: seq<Byte>) returns (out: seq<AccessUnit>)
      requires Valid()
      modifies this
      ensures Valid() && stream == old(stream) + data && base == old(base)
      ensures FinishedAll(Raws(stream), base) == FinishedAll(Raws(old(stream)), base) + out
    {
      hide NextStart, Cuts, Resume, Pieces, FinishedAll, Finished, ParamsAfter, CacheAfter, Ordered, Last;
      ghost var s := stream + data;
      ghost var done: seq<nat> := Cuts(stream, 0);
      CutsOrdered(stream);
      ExtendCuts(stream, data, 0);
      PiecesExtend(stream, data, done);
      assert s[Last(done)..] == buf + data;
      ghost var before := FinishedAll(Raws(stream), base);
      buf := buf + data;
      stream := s;
      out := [];
      var more := true;
      while more
        invariant base == old(base) && stream == s
        invariant if more then Between(done) else Valid() && done == Cuts(s, 0)
        invariant Last(done) <= |s| && Ordered(s, done)
        invariant FinishedAll(Pieces(s, done), base) == before + out
        decreases more, |s| - (Last(done) + searchFrom)
      {
        var units;
        more, units, done := Advance(done);
        out := out + units;
      }
    }

    method Flush() returns (out: seq<AccessUnit>)
      requires Valid()
      modifies this
      ensures Valid() && stream == [] && base == CacheAfter(AllRaws(old(stream)), old(base))
      ensures FinishedAll(Raws(old(stream)), old(base)) + out == Split(old(stream), old(base))
    {
      hide NextStart, Pieces, FinishedAll, Finished, ParamsAfter, CacheAfter;
      CutsOrdered(stream);
      out := [];
      if buf != [] {
        FinishAppend(Raws(stream), buf, base);
        var unit := Finish(buf);
        out := [unit];
        buf := [];
      } else {
        assert Raws(stream) + [] == Raws(stream);
      }
      searchFrom := 0;
      stream, base := [], params;
      EmptyStream(base);
    }
  }

  lemma EmptyStream(params: Params)
    ensures Cuts([], 0) == [] && Resume([], 0) == 0 && CacheAfter(Pieces([], []), params) == params
  {
  }

  /** What one search in the buffer says about the stream. */
  lemma Look(s: seq<Byte>, done: seq<nat>, from: nat)
    requires Ordered(s, done) && Last(done) + from <= |s|
    requires done != [] ==> from >= 2
    ensures done == [] ==> Last(done) == 0
    ensures var off := Last(done);
      var b := s[off..];
      match NextStart(b, from)
      case None => Cuts(s, off + from) == [] && Resume(s, off + from) == if |s| < 2 then 0 else |s| - 2
      case Some(sc) =>
        && from <= sc && sc + 3 <= |b|
        && if sc + 3 == |b| then Cuts(s, off + from) == [] && Resume(s, off + from) == off + sc
           else
             && Resume(s, off + from) == Resume(s, off + sc + 3)
             && (if NalType(b[sc + 3]) == AUD && Begin(b, sc) > 0
                 then Cuts(s, off + from) == [off + Begin(b, sc)] + Cuts(s, off + sc + 3)
                 else Cuts(s, off + from) == Cuts(s, off + sc + 3))
  {
    hide NextStart, Cuts, Resume, IsStart, IsCut, Begin, NalType;
    var off := Last(done);
    assert s[off..|s|] == s[off..];
    NextStartSlice(s, off, |s|, from);
    CutsStep(s, off + from);
    if NextStart(s, off + from).Some? {
      var sc := NextStart(s, off + from).value - off;
      StartInside(s, off + sc);
      if sc + 3 < |s| - off { CutHere(s, off, sc); }
      assert off + sc + 3 == off + (sc + 3);
    }
  }

  lemma TakeCut(s: seq<Byte>, done: seq<nat>, cut: nat, more: seq<nat>, base: Params)
    requires Cuts(s, 0) == done + ([cut] + more)
    ensures Ordered(s, done + [cut]) && Last(done) <= cut <= |s|
    ensures FinishedAll(Pieces(s, done + [cut]), base)
         == FinishedAll(Pieces(s, done), base) + [Finished(s[Last(done)..cut], CacheAfter(Pieces(s, done), base))]
    ensures CacheAfter(Pieces(s, done + [cut]), base)
         == ParamsAfter(s[Last(done)..cut], CacheAfter(Pieces(s, done), base))
    ensures Cuts(s, 0) == (done + [cut]) + more && Last(done + [cut]) == cut
  {
    hide NextStart, Cuts, Pieces, FinishedAll, Finished, ParamsAfter, CacheAfter;
    CutsOrdered(s);
    assert Cuts(s, 0) == (done + [cut]) + more;
    OrderedPrefix(s, done + [cut], more);
    PiecesAppend(s, done, cut);
    FinishAppend(Pieces(s, done), s[Last(done)..cut], base);
  }

  /** In the buffer's own coordinates the cut test and the unit's first byte are those of the stream. */
  lemma CutHere(s: seq<Byte>, off: nat, sc: nat)
    requires off + sc + 3 < |s| && IsStart(s, off + sc) && (off > 0 ==> sc >= 2)
    ensures var b := s[off..];
      && Begin(b, sc) + off == Begin(s, off + sc)
      && (IsCut(s, off + sc) <==> NalType(b[sc + 3]) == AUD && Begin(b, sc) > 0)
  {
  }

  /** All the bytes of a list of chunks. */
  lemma FlattenAppend(chunks: seq<seq<Byte>>, c: seq<Byte>)
    ensures Flatten(chunks + [c]) == Flatten(chunks) + c
  {
    assert (chunks + [c])[..|chunks|] == chunks;
  }

  /** Chunking never matters: pushing a stream in any chunks and flushing gives the units
      of the whole stream. */
  method SplitChunks(chunks: seq<seq<Byte>>) returns (out: seq<AccessUnit>)
    ensures out == Split(Flatten(chunks), [None, None, None])
  {
    hide Split, FinishedAll, Raws, Cuts, Resume, Pieces;
    var splitter := new AuSplitter();
    out := [];
    NothingYet(splitter.base);
    for i := 0 to |chunks|
      invariant fresh(splitter) && splitter.Valid()
      invariant splitter.base == [None, None, None]
      invariant splitter.stream == Flatten(chunks[..i])
      invariant out == FinishedAll(Raws(splitter.stream), splitter.base)
    {
      var units := splitter.Push(chunks[i]);
      out := out + units;
      FlattenAppend(chunks[..i], chunks[i]);
      assert chunks[..i + 1] == chunks[..i] + [chunks[i]];
    }
    assert chunks[..|chunks|] == chunks;
    var units := splitter.Flush();
    out := out + units;
  }

  lemma NothingYet(params: Params)
    ensures FinishedAll(Raws([]), params) == []
  {
    EmptyStream(params);
  }

  /** Over a whole stream: one unit per piece, each piece's bytes unless sets were added,
      and every cache along the way sound. */
  lemma SplitSound(s: seq<Byte>, k: nat)
    requires k < |AllRaws(s)|
    ensures var raws := AllRaws(s);
      var cache := CacheAfter(raws[..k], [None, None, None]);
      && |Split(s, [None, None, None])| == |raws|
      && Split(s, [None, None, None])[k] == Finished(raws[k], cache)
      && SoundCache(cache)
  {
    hide Cuts, Pieces, Finished, ParamsAfter, SoundParam;
    FinishedAt(AllRaws(s), [None, None, None], k);
    CacheAfterSound(AllRaws(s)[..k], [None, None, None]);
  }

  lemma {:induction false} FinishedAt(raws: seq<seq<Byte>>, params: Params, k: nat)
    requires k < |raws|
    ensures FinishedAll(raws, params)[k] == Finished(raws[k], CacheAfter(raws[..k], params))
  {
    hide Finished, ParamsAfter;
    var front := raws[..|raws| - 1];
    if k < |raws| - 1 {
      FinishedAt(front, params, k);
      assert front[..k] == raws[..k];
    }
  }
}
