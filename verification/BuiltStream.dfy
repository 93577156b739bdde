/**
 * What the splitter of agent/src/lib.rs makes of a stream an encoder wrote: the stream is given as a
 * list of NAL units (Rec. ITU-T H.265 sections B.2 and 7.3.1.2), the units that come out as lists too.
 */
module BuiltStreams {
  import opened Wrappers
  import opened AnnexB
  import opened AuSplitting

  /** A NAL unit: whether its start code has four bytes, the fields of its first header byte
      (forbidden bit, type, top bit of the layer), and the bytes behind that. */
  datatype Nal = Nal(long: bool, forbidden: nat, kind: nat, layer: nat, body: seq<Byte>)

  predicate Fields(n: Nal) {
    n.forbidden < 2 && n.kind < 64 && n.layer < 2
  }

  function Header(n: Nal): Byte
    requires Fields(n)
  {
    128 * n.forbidden + 2 * n.kind + n.layer
  }

  function Content(n: Nal): seq<Byte>
    requires Fields(n)
  {
    [Header(n)] + n.body
  }

  /** As the standard demands: no start code inside a unit, and no zero byte at its end. */
  predicate Good(n: Nal) {
    && Fields(n) && Content(n)[|n.body|] != 0
    && forall i :: 0 <= i < |Content(n)| ==> !IsStart(Content(n), i)
  }

  function Code(n: Nal): seq<Byte> {
    if n.long then [0, 0, 0, 1] else [0, 0, 1]
  }

  function Bytes(n: Nal): seq<Byte>
    requires Fields(n)
  {
    Code(n) + Content(n)
  }

  predicate AllGood(ns: seq<Nal>) {
    forall n :: n in ns ==> Good(n)
  }

  function Flat(ns: seq<Nal>): seq<Byte>
    requires AllGood(ns)
  {
    if ns == [] then []
    else
      var n := ns[|ns| - 1];
      assert n in ns;
      Flat(ns[..|ns| - 1]) + Bytes(n)
  }

  /** `nal_type` reads the six bits behind the forbidden bit. */
  lemma HeaderType(n: Nal)
    requires Fields(n)
    ensures NalType(Header(n)) == n.kind
  {
    assert Header(n) / 2 == 64 * n.forbidden + n.kind;
  }

  // --------------------------------------------------- one unit's bytes ----

  /** Where the start code's `00 00 01` lies. */
  function Lead(n: Nal): nat {
    if n.long then 1 else 0
  }

  /** What a search in a list of whole units needs of it: it ends in no zero and in no start code. */
  predicate Whole(x: seq<Byte>) {
    x == [] || (|x| >= 4 && x[|x| - 1] != 0 && !IsStart(x, |x| - 3))
  }

  lemma NalSearch(n: Nal)
    requires Good(n)
    ensures var y, d := Bytes(n), Lead(n);
      && |y| > d + 3 && IsStart(y, d) && NextStart(y, 0) == Some(d) && NextStart(y, d + 3) == None
      && OpensWithCode(y) && Whole(y) && y[d + 3] == Header(n) && y[0] == 0 && y[1] == 0
  {
    hide Header;
    var y, d, c := Bytes(n), Lead(n), Content(n);
    assert y[|y| - 1] == c[|n.body|];
    assert IsStart(y, d);
    ShiftSearch(Code(n), c, 0);
    assert |Code(n)| == d + 3;
    NoCode(n);
    assert NextStart(y, 0) == if n.long then NextStart(y, 1) else Some(0);
  }

  lemma NoCode(n: Nal)
    requires Good(n)
    ensures NextStart(Content(n), 0) == None && !IsStart(Bytes(n), |Bytes(n)| - 3)
  {
    hide Header, NextStart;
    var y, c := Bytes(n), Content(n);
    if |c| >= 3 { StartInTail(Code(n), c, |c| - 3); }
  }

  lemma StartInTail(x: seq<Byte>, y: seq<Byte>, i: nat)
    requires i + 3 <= |y|
    ensures IsStart(x + y, |x| + i) <==> IsStart(y, i)
  {
  }

  // ------------------------------------------------------ one unit more ----

  lemma SearchBoth(x: seq<Byte>, n: Nal, from: nat)
    requires Whole(x) && Good(n) && from <= |x|
    ensures var z, y, d := x + Bytes(n), Bytes(n), Lead(n);
      && NextStart(z, from) == (if NextStart(x, from).Some? then NextStart(x, from) else Some(|x| + d))
      && NextStart(z, |x| + d + 3) == None
      && Begin(z, |x| + d) == |x| && |x| + d + 3 < |z| && z[|x| + d + 3] == Header(n) && IsStart(z, |x| + d)
  {
    hide NextStart, Header;
    NalSearch(n);
    SeamSearch(x, Bytes(n), from);
    ShiftSearch(x, Bytes(n), Lead(n) + 3);
    StartInTail(x, Bytes(n), Lead(n));
  }

  /** A start code of `x` has its header in `x`. */
  lemma HeaderInside(x: seq<Byte>, sc: nat)
    requires Whole(x) && IsStart(x, sc)
    ensures sc + 3 < |x|
  {
  }

  lemma {:induction false} SeamCuts(x: seq<Byte>, n: Nal, from: nat)
    requires Whole(x) && Good(n) && from <= |x|
    ensures Cuts(x + Bytes(n), from) == Cuts(x, from) + if n.kind == 35 && x != [] then [|x|] else []
    decreases |x| - from
  {
    hide NextStart, Cuts, Whole, Header, Bytes, Good;
    GoodFields(n);
    var z := x + Bytes(n);
    SearchBoth(x, n, from);
    CutsStep(z, from);
    CutsStep(x, from);
    if NextStart(x, from).Some? {
      var sc := NextStart(x, from).value;
      HeaderInside(x, sc);
      SameCut(x, Bytes(n), sc);
      SeamCuts(x, n, sc + 3);
    } else {
      HeaderType(n);
      CutsStep(z, |x| + Lead(n) + 3);
    }
  }

  lemma GoodFields(n: Nal)
    requires Good(n)
    ensures Fields(n)
  {
  }

  lemma UnitsStep(b: seq<Byte>, from: nat)
    ensures Units(b, from) == match NextStart(b, from) case None => [] case Some(sc) => UnitAt(b, sc) + Units(b, sc + 3)
  {
  }

  function LastOne(x: seq<Byte>, n: Nal): Unit
    requires Fields(n)
  {
    Unit(|x|, |x| + Lead(n) + 3, |x| + |Bytes(n)|)
  }

  lemma SameUnit(x: seq<Byte>, n: Nal, sc: nat)
    requires Whole(x) && Good(n) && IsStart(x, sc)
    ensures sc + 3 <= |x| && UnitAt(x + Bytes(n), sc) == UnitAt(x, sc)
  {
    hide NextStart, Header, Whole, Bytes, Good;
    GoodFields(n);
    HeaderInside(x, sc);
    SearchBoth(x, n, sc + 3);
  }

  lemma {:induction false} SeamUnits(x: seq<Byte>, n: Nal, from: nat)
    requires Whole(x) && Good(n) && from <= |x|
    ensures Units(x + Bytes(n), from) == Units(x, from) + [LastOne(x, n)]
    decreases |x| - from
  {
    hide *;
    GoodFields(n);
    var z := x + Bytes(n);
    SearchBoth(x, n, from);
    UnitsStep(z, from);
    UnitsStep(x, from);
    if NextStart(x, from).Some? {
      var sc := NextStart(x, from).value;
      HeaderInside(x, sc);
      SameUnit(x, n, sc);
      SeamUnits(x, n, sc + 3);
      assert (UnitAt(x, sc) + Units(x, sc + 3)) + [LastOne(x, n)] == UnitAt(x, sc) + (Units(x, sc + 3) + [LastOne(x, n)]);
    } else {
      UnitsStep(z, |x| + Lead(n) + 3);
      OneUnit(x, n);
    }
  }

  lemma OneUnit(x: seq<Byte>, n: Nal)
    requires Whole(x) && Good(n)
    ensures Fields(n) && |x| + Lead(n) + 3 < |x + Bytes(n)|
    ensures UnitAt(x + Bytes(n), |x| + Lead(n)) == [LastOne(x, n)]
  {
    hide Whole, Good, NextStart, Header, Bytes, Lead, Begin;
    GoodFields(n);
    SearchBoth(x, n, |x|);
  }

  // ----------------------------------------------------- lists of units ----

  lemma FlatSnoc(front: seq<Nal>, n: Nal)
    requires AllGood(front) && Good(n)
    ensures AllGood(front + [n]) && Flat(front + [n]) == Flat(front) + Bytes(n)
  {
    hide Good;
    GoodFields(n);
    assert (front + [n])[..|front|] == front;
  }

  lemma {:induction false} FlatAppend(a: seq<Nal>, b: seq<Nal>)
    requires AllGood(a) && AllGood(b)
    ensures AllGood(a + b) && Flat(a + b) == Flat(a) + Flat(b)
  {
    hide *;
    if b == [] {
      assert a + b == a;
      NoFlat();
      assert Flat(a) + [] == Flat(a);
    } else {
      var front, n := GoodFront(b);
      FlatAppend(a, front);
      FlatSnoc(a + front, n);
      FlatSnoc(front, n);
      assert a + b == (a + front) + [n];
      assert (Flat(a) + Flat(front)) + Bytes(n) == Flat(a) + (Flat(front) + Bytes(n));
    }
  }

  lemma GoodFront(ns: seq<Nal>) returns (front: seq<Nal>, n: Nal)
    requires AllGood(ns) && ns != []
    ensures front == ns[..|ns| - 1] && n == ns[|ns| - 1] && ns == front + [n] && n in ns
    ensures AllGood(front) && Good(n) && Fields(n)
  {
    hide Good, Fields;
    front, n := ns[..|ns| - 1], ns[|ns| - 1];
    GoodFields(n);
  }

  lemma NoFlat()
    ensures Flat([]) == []
  {
  }

  lemma {:induction false} FlatWhole(ns: seq<Nal>)
    requires AllGood(ns)
    ensures Whole(Flat(ns)) && (Flat(ns) == [] <==> ns == [])
  {
    hide Good, Fields;
    if ns != [] {
      var front, n := GoodFront(ns);
      FlatWhole(front);
      FlatSnoc(front, n);
      NalSearch(n);
      WholeAppend(Flat(front), Bytes(n));
    }
  }

  lemma WholeAppend(x: seq<Byte>, y: seq<Byte>)
    requires Whole(y) && y != []
    ensures Whole(x + y)
  {
    StartInTail(x, y, |y| - 3);
  }

  /** The splitter's units as lists: a new one at each access unit delimiter. */
  function Groups(ns: seq<Nal>): seq<seq<Nal>> {
    if ns == [] then []
    else
      var gs, n := Groups(ns[..|ns| - 1]), ns[|ns| - 1];
      if n.kind == 35 || gs == [] then gs + [[n]]
      else gs[..|gs| - 1] + [gs[|gs| - 1] + [n]]
  }

  predicate GroupsGood(gs: seq<seq<Nal>>) {
    forall g :: g in gs ==> AllGood(g) && g != []
  }

  function Flats(gs: seq<seq<Nal>>): seq<seq<Byte>>
    requires GroupsGood(gs)
  {
    seq(|gs|, i requires 0 <= i < |gs| => Flat(gs[i]))
  }

  lemma {:induction false} GroupsAreGood(ns: seq<Nal>)
    requires AllGood(ns)
    ensures GroupsGood(Groups(ns)) && (Groups(ns) == [] <==> ns == [])
  {
    hide Good;
    if ns != [] {
      var front, n := ns[..|ns| - 1], ns[|ns| - 1];
      assert n in ns && AllGood(front);
      GroupsAreGood(front);
      var gs := Groups(front);
      if !(n.kind == 35 || gs == []) { assert gs[|gs| - 1] in gs; }
    }
  }

  lemma AllRawsIs(s: seq<Byte>)
    ensures Ordered(s, Cuts(s, 0)) && Last(Cuts(s, 0)) <= |s|
    ensures var rest := s[Last(Cuts(s, 0))..];
      AllRaws(s) == Pieces(s, Cuts(s, 0)) + if rest == [] then [] else [rest]
    ensures s != [] ==> s[Last(Cuts(s, 0))..] != []
  {
    hide Cuts, Pieces;
    CutsOrdered(s);
    CutsIncrease(s, 0);
  }

  /** A delimiter begins a new piece; any other unit joins the last. */
  lemma RawsSnoc(x: seq<Byte>, n: Nal)
    requires Whole(x) && Good(n)
    ensures Fields(n)
    ensures x == [] || n.kind == 35 ==> AllRaws(x + Bytes(n)) == AllRaws(x) + [Bytes(n)]
    ensures x != [] && n.kind != 35 ==>
      var rs := AllRaws(x);
      rs != [] && AllRaws(x + Bytes(n)) == rs[..|rs| - 1] + [rs[|rs| - 1] + Bytes(n)]
  {
    hide Cuts, Pieces, AllRaws, Ordered, Bytes, Whole, Good, Last;
    GoodFields(n);
    var y := Bytes(n);
    var z := x + y;
    SeamCuts(x, n, 0);
    AllRawsIs(x);
    AllRawsIs(z);
    BytesSome(n);
    PiecesExtend(x, y, Cuts(x, 0));
    var cuts := Cuts(x, 0);
    var last := Last(cuts);
    assert z[last..] == x[last..] + y;
    if n.kind == 35 && x != [] {
      PiecesAppend(z, cuts, |x|);
      assert z[last..|x|] == x[last..] && z[|x|..] == y;
      LastOf(cuts, |x|);
    } else {
      assert cuts + [] == cuts;
      if x == [] { EmptyCuts(x); assert z == y; }
    }
  }

  lemma BytesSome(n: Nal)
    requires Fields(n)
    ensures Bytes(n) != []
  {
  }

  lemma LastOf(cuts: seq<nat>, c: nat)
    ensures Last(cuts + [c]) == c
  {
  }

  lemma EmptyCuts(x: seq<Byte>)
    requires x == []
    ensures Cuts(x, 0) == [] && Last([]) == 0 && AllRaws(x) == []
  {
  }

  /** Cut at its delimiters, a stream of units falls into their groups. */
  lemma {:induction false} RawsAreGroups(ns: seq<Nal>)
    requires AllGood(ns)
    ensures GroupsGood(Groups(ns)) && AllRaws(Flat(ns)) == Flats(Groups(ns))
  {
    hide *;
    GroupsAreGood(ns);
    if ns == [] {
      NoFlat();
      EmptyCuts(Flat(ns));
      GroupsEnd();
    } else {
      var front, n := GoodFront(ns);
      RawsAreGroups(front);
      GroupsAreGood(front);
      FlatWhole(front);
      FlatSnoc(front, n);
      RawsSnoc(Flat(front), n);
      GroupsSnoc(front, n);
      FlatsSnoc(Groups(front), n);
    }
  }

  lemma GroupsEnd()
    ensures Groups([]) == [] && Flats([]) == []
  {
  }

  lemma GroupsSnoc(front: seq<Nal>, n: Nal)
    ensures var gs := Groups(front);
      Groups(front + [n]) == if n.kind == 35 || gs == [] then gs + [[n]] else gs[..|gs| - 1] + [gs[|gs| - 1] + [n]]
  {
    assert (front + [n])[..|front|] == front;
  }

  lemma FlatsSnoc(gs: seq<seq<Nal>>, n: Nal)
    requires GroupsGood(gs) && Good(n)
    ensures |Flats(gs)| == |gs|
    ensures Fields(n) && GroupsGood(gs + [[n]]) && Flats(gs + [[n]]) == Flats(gs) + [Bytes(n)]
    ensures gs != [] ==>
      var rs, ns := Flats(gs), gs[..|gs| - 1] + [gs[|gs| - 1] + [n]];
      GroupsGood(ns) && Flats(ns) == rs[..|gs| - 1] + [rs[|gs| - 1] + Bytes(n)]
  {
    hide Good, Flat, Bytes;
    OneFlat(n);
    if gs != [] {
      assert gs[|gs| - 1] in gs;
      FlatSnoc(gs[|gs| - 1], n);
    }
  }

  lemma OneFlat(n: Nal)
    requires Good(n)
    ensures AllGood([n]) && Fields(n) && Flat([n]) == Bytes(n)
  {
    FlatSnoc([], n);
    assert [] + [n] == [n] && [] + Bytes(n) == Bytes(n);
  }

  // ------------------------------------------- parameter sets, as units ----

  predicate Has(ns: seq<Nal>, t: nat) {
    exists i :: 0 <= i < |ns| && ns[i].kind == t
  }

  /** Some unit is a random access picture. */
  predicate KeyUnits(ns: seq<Nal>) {
    exists i :: 0 <= i < |ns| && 16 <= ns[i].kind <= 23
  }

  function Newest(ns: seq<Nal>, t: nat): Option<Nal> {
    if ns == [] then None
    else if ns[|ns| - 1].kind == t then Some(ns[|ns| - 1])
    else Newest(ns[..|ns| - 1], t)
  }

  /** The newest unit of type `t` in the groups so far. */
  function Known(gs: seq<seq<Nal>>, t: nat): Option<Nal> {
    if gs == [] then None
    else
      var g := gs[|gs| - 1];
      if Newest(g, t).Some? then Newest(g, t) else Known(gs[..|gs| - 1], t)
  }

  function Lacking(g: seq<Nal>, t: nat, newest: Nal): seq<Nal> {
    if Has(g, t) then [] else [newest]
  }

  /** The group that leaves, after the groups `gs` that end with it: a random access one that lacks a
      parameter set (types 32, 33, 34) gets the newest of each it lacks, if all three are known, behind
      its delimiter or in front. */
  function Sent(gs: seq<seq<Nal>>): seq<Nal>
    requires gs != []
  {
    var g := gs[|gs| - 1];
    var v, s, p := Known(gs, 32), Known(gs, 33), Known(gs, 34);
    if KeyUnits(g) && !(Has(g, 32) && Has(g, 33) && Has(g, 34)) && v.Some? && s.Some? && p.Some? && g != [] then
      var sets := Lacking(g, 32, v.value) + Lacking(g, 33, s.value) + Lacking(g, 34, p.value);
      if g[0].kind == 35 then [g[0]] + sets + g[1..] else sets + g
    else g
  }

  lemma {:induction false} NewestIn(ns: seq<Nal>, t: nat)
    ensures Newest(ns, t).Some? <==> Has(ns, t)
    ensures Newest(ns, t).Some? ==> Newest(ns, t).value in ns
  {
    if ns != [] {
      var front := ns[..|ns| - 1];
      NewestIn(front, t);
      if ns[|ns| - 1].kind != t {
        if i :| 0 <= i < |ns| && ns[i].kind == t { assert front[i].kind == t; }
        if i :| 0 <= i < |front| && front[i].kind == t { assert ns[i].kind == t; }
      }
    }
  }

  function BytesOf(n: Option<Nal>): Option<seq<Byte>>
    requires n.Some? ==> Good(n.value)
  {
    match n case Some(x) => Some(Bytes(x)) case None => None
  }

  lemma LastUnitFront(x: seq<Byte>, y: seq<Byte>, us: seq<Unit>, t: nat)
    requires UnitsIn(x, us)
    ensures UnitsIn(x + y, us) && LastUnit(x + y, us, t) == LastUnit(x, us, t)
  {
    if us != [] {
      var u := us[|us| - 1];
      assert u in us && (x + y)[u.begin..u.end] == x[u.begin..u.end];
      LastUnitFront(x, y, us[..|us| - 1], t);
    }
  }

  lemma LastUnitSnoc(x: seq<Byte>, n: Nal, t: nat)
    requires Whole(x) && Good(n)
    ensures UnitsIn(x, Units(x, 0)) && UnitsIn(x + Bytes(n), Units(x + Bytes(n), 0))
    ensures LastUnit(x + Bytes(n), Units(x + Bytes(n), 0), t)
         == if n.kind == t then Some(Bytes(n)) else LastUnit(x, Units(x, 0), t)
  {
    hide Units, Header, Whole, Good, NalType, Bytes;
    GoodFields(n);
    UnitsInside(x);
    UnitsInside(x + Bytes(n));
    SeamUnits(x, n, 0);
    SearchBoth(x, n, |x|);
    HeaderType(n);
    LastUnitFront(x, Bytes(n), Units(x, 0), t);
    var us := Units(x + Bytes(n), 0);
    assert us[..|us| - 1] == Units(x, 0);
    assert (x + Bytes(n))[|x|..|x| + |Bytes(n)|] == Bytes(n);
  }

  lemma NewestGood(ns: seq<Nal>, t: nat)
    requires AllGood(ns)
    ensures Newest(ns, t).Some? ==> Good(Newest(ns, t).value)
  {
    hide Good;
    NewestIn(ns, t);
  }

  /** The last unit of a type in a group's bytes is the group's newest. */
  lemma {:induction false} LastUnitIs(ns: seq<Nal>, t: nat)
    requires AllGood(ns)
    ensures UnitsIn(Flat(ns), Units(Flat(ns), 0)) && (Newest(ns, t).Some? ==> Good(Newest(ns, t).value))
    ensures LastUnit(Flat(ns), Units(Flat(ns), 0), t) == BytesOf(Newest(ns, t))
  {
    hide Units, Good, LastUnit, Bytes, Whole;
    UnitsInside(Flat(ns));
    NewestGood(ns, t);
    if ns == [] {
      NoUnits(t);
    } else {
      var front, n := GoodFront(ns);
      LastUnitIs(front, t);
      FlatWhole(front);
      FlatSnoc(front, n);
      LastUnitSnoc(Flat(front), n, t);
    }
  }

  lemma NoUnits(t: nat)
    ensures Units([], 0) == [] && LastUnit([], [], t) == None
  {
  }

  lemma {:induction false} TypesAre(ns: seq<Nal>)
    requires AllGood(ns)
    ensures var ts := Types(Flat(ns), 0); |ts| == |ns| && forall i :: 0 <= i < |ns| ==> ts[i] == ns[i].kind
  {
    hide NextStart, Types, Good, Whole, Bytes, OpensWithCode, SafeEnd;
    if ns == [] {
      EmptyTypes();
    } else {
      var front, n := GoodFront(ns);
      TypesAre(front);
      FlatWhole(front);
      FlatSnoc(front, n);
      NalSearch(n);
      WholeSafe(Flat(front));
      SeamTypes(Flat(front), Bytes(n), 0);
      OneType(n);
    }
  }

  lemma WholeSafe(x: seq<Byte>)
    requires Whole(x)
    ensures SafeEnd(x)
  {
  }

  lemma OneType(n: Nal)
    requires Good(n)
    ensures Fields(n) && Types(Bytes(n), 0) == [n.kind]
  {
    hide Header, NextStart, Types, Good, Bytes, NalType;
    GoodFields(n);
    NalSearch(n);
    HeaderType(n);
    TypesStep(Bytes(n), 0);
    TypesStep(Bytes(n), Lead(n) + 3);
    assert TypeAt(Bytes(n), Lead(n)) == [NalType(Header(n))];
  }

  // -------------------------------------------------------- the whole ----

  function SetAt(p: Params, t: nat): Option<seq<Byte>>
    requires 32 <= t <= 34
  {
    p[t - 32]
  }

  lemma {:induction false} KnownGood(gs: seq<seq<Nal>>, t: nat)
    requires GroupsGood(gs)
    ensures Known(gs, t).Some? ==> Good(Known(gs, t).value)
  {
    hide Good;
    if gs != [] {
      assert gs[|gs| - 1] in gs;
      NewestGood(gs[|gs| - 1], t);
      KnownGood(gs[..|gs| - 1], t);
    }
  }

  /** The cache the splitter keeps is the newest set of each kind. */
  lemma {:induction false} CacheIsKnown(gs: seq<seq<Nal>>, t: nat)
    requires GroupsGood(gs) && 32 <= t <= 34
    ensures Known(gs, t).Some? ==> Good(Known(gs, t).value)
    ensures SetAt(CacheAfter(Flats(gs), [None, None, None]), t) == BytesOf(Known(gs, t))
  {
    hide Good, Units, LastUnit, Flat, Bytes, AllGood;
    KnownGood(gs, t);
    if gs != [] {
      var front, g := gs[..|gs| - 1], gs[|gs| - 1];
      assert g in gs && GroupsGood(front);
      CacheIsKnown(front, t);
      assert Flats(gs)[..|gs| - 1] == Flats(front);
      LastUnitIs(g, t);
      CachedAt(Flat(g), CacheAfter(Flats(front), [None, None, None]), t);
    }
  }

  lemma CachedAt(au: seq<Byte>, params: Params, t: nat)
    requires 32 <= t <= 34
    ensures UnitsIn(au, Units(au, 0))
    ensures SetAt(ParamsAfter(au, params), t) == OrElse(LastUnit(au, Units(au, 0), t), SetAt(params, t))
  {
    hide Units, LastUnit;
    UnitsInside(au);
  }

  lemma KindsSame(g: seq<Nal>, ts: seq<nat>)
    requires |ts| == |g| && forall i :: 0 <= i < |g| ==> ts[i] == g[i].kind
    ensures IsKey(ts) <==> KeyUnits(g)
    ensures forall t: nat :: t in ts <==> Has(g, t)
  {
    if i :| 0 <= i < |ts| && IsIrap(ts[i]) { assert 16 <= g[i].kind <= 23; }
    if i :| 0 <= i < |g| && 16 <= g[i].kind <= 23 { assert IsIrap(ts[i]); }
    forall t: nat ensures t in ts <==> Has(g, t) {
      if t in ts { var i :| 0 <= i < |ts| && ts[i] == t; assert g[i].kind == t; }
      if i :| 0 <= i < |g| && g[i].kind == t { assert ts[i] == t; }
    }
  }

  /** The first unit of a group's bytes is its first unit. */
  lemma {:induction false} FirstUnit(g: seq<Nal>)
    requires AllGood(g) && g != []
    ensures Good(g[0]) && Fields(g[0])
    ensures var us := Units(Flat(g), 0);
      us != [] && us[0].end == |Bytes(g[0])| && us[0].hdr < |Flat(g)| && NalType(Flat(g)[us[0].hdr]) == g[0].kind
  {
    hide Good, Units, Bytes, Whole, Flat, NalType, Header;
    var front, n := g[..|g| - 1], g[|g| - 1];
    assert g[0] in g && n in g && AllGood(front) && g == front + [n];
    GoodFields(g[0]);
    GoodFields(n);
    FlatWhole(front);
    FlatSnoc(front, n);
    SeamUnits(Flat(front), n, 0);
    if front == [] {
      OneFlat(n);
      NalSearch(n);
      HeaderType(n);
      NoUnits(0);
      NoFlat();
    } else {
      FirstUnit(front);
    }
  }

  lemma InsertWhere(g: seq<Nal>)
    requires AllGood(g) && g != []
    ensures Good(g[0]) && Fields(g[0])
    ensures InsertAt(Flat(g)) == if g[0].kind == 35 then |Bytes(g[0])| else 0
  {
    hide Good, Units, Bytes, Flat, NalType;
    FirstUnit(g);
    UnitsInside(Flat(g));
  }

  lemma LackingGood(g: seq<Nal>, t: nat, n: Nal)
    requires Good(n)
    ensures Fields(n) && AllGood(Lacking(g, t, n)) && Flat(Lacking(g, t, n)) == if Has(g, t) then [] else Bytes(n)
  {
    hide Good, Has, Bytes;
    OneFlat(n);
    NoFlat();
  }

  /** Inserting the sets' bytes is inserting the sets. */
  lemma Inserted(g: seq<Nal>, sets: seq<Nal>)
    requires AllGood(g) && AllGood(sets) && g != []
    ensures var e := InsertAt(Flat(g));
      var out := if g[0].kind == 35 then [g[0]] + sets + g[1..] else sets + g;
      && AllGood(out) && Flat(out) == Flat(g)[..e] + Flat(sets) + Flat(g)[e..]
  {
    hide Good, InsertAt, Bytes, Flat;
    InsertWhere(g);
    var b := Flat(g);
    if g[0].kind == 35 {
      OneFlat(g[0]);
      assert g == [g[0]] + g[1..] && AllGood(g[1..]);
      FlatAppend([g[0]], g[1..]);
      FlatAppend([g[0]], sets);
      FlatAppend([g[0]] + sets, g[1..]);
      var e := |Bytes(g[0])|;
      assert b[..e] == Bytes(g[0]) && b[e..] == Flat(g[1..]);
    } else {
      FlatAppend(sets, g);
      assert b[..0] == [] && b[0..] == b && [] + Flat(sets) == Flat(sets);
    }
  }

  lemma SetsFlat(g: seq<Nal>, v: Nal, s: Nal, p: Nal)
    requires Good(v) && Good(s) && Good(p)
    ensures Fields(v) && Fields(s) && Fields(p)
    ensures var sets := Lacking(g, 32, v) + Lacking(g, 33, s) + Lacking(g, 34, p);
      && AllGood(sets)
      && Flat(sets) == (if Has(g, 32) then [] else Bytes(v)) + (if Has(g, 33) then [] else Bytes(s))
                     + (if Has(g, 34) then [] else Bytes(p))
  {
    hide Good, Has, Bytes, Flat, Lacking, AllGood;
    LackingGood(g, 32, v);
    LackingGood(g, 33, s);
    LackingGood(g, 34, p);
    FlatAppend(Lacking(g, 32, v), Lacking(g, 33, s));
    FlatAppend(Lacking(g, 32, v) + Lacking(g, 33, s), Lacking(g, 34, p));
  }

  /** One group: what leaves is the group, or the group with the sets it lacks. */
  lemma FinishedGroup(gs: seq<seq<Nal>>)
    requires GroupsGood(gs) && gs != []
    ensures AllGood(Sent(gs))
    ensures var front, g := gs[..|gs| - 1], gs[|gs| - 1];
      && GroupsGood(front) && AllGood(g)
      && Finished(Flat(g), CacheAfter(Flats(front), [None, None, None])) == AccessUnit(Flat(Sent(gs)), KeyUnits(g))
  {
    hide Good, Units, Types, Bytes, Flat, AllGood, Known, KeyUnits, Has, InsertAt, Newest, IsKey, CacheAfter, ParamsAfter, Lacking;
    var front, g := gs[..|gs| - 1], gs[|gs| - 1];
    assert g in gs && GroupsGood(front);
    assert Flats(gs)[..|gs| - 1] == Flats(front);
    CacheStep(Flats(gs), [None, None, None]);
    CacheIsKnown(gs, 32);
    CacheIsKnown(gs, 33);
    CacheIsKnown(gs, 34);
    TypesAre(g);
    KindsSame(g, Types(Flat(g), 0));
    var v, s, p := Known(gs, 32), Known(gs, 33), Known(gs, 34);
    if v.Some? && s.Some? && p.Some? {
      SetsFlat(g, v.value, s.value, p.value);
      Inserted(g, Lacking(g, 32, v.value) + Lacking(g, 33, s.value) + Lacking(g, 34, p.value));
    }
  }

  lemma CacheStep(raws: seq<seq<Byte>>, params: Params)
    requires raws != []
    ensures CacheAfter(raws, params) == ParamsAfter(raws[|raws| - 1], CacheAfter(raws[..|raws| - 1], params))
  {
  }

  lemma {:induction false} AllFinished(gs: seq<seq<Nal>>, k: nat)
    requires GroupsGood(gs) && k < |gs|
    ensures AllGood(Sent(gs[..k + 1]))
    ensures FinishedAll(Flats(gs), [None, None, None])[k] == AccessUnit(Flat(Sent(gs[..k + 1])), KeyUnits(gs[k]))
  {
    hide Good, Flat, AllGood, Finished, Sent, KeyUnits, CacheAfter;
    var front := gs[..|gs| - 1];
    assert GroupsGood(front) && Flats(gs)[..|gs| - 1] == Flats(front);
    if k == |gs| - 1 {
      assert gs[..k + 1] == gs;
      FinishedGroup(gs);
    } else {
      AllFinished(front, k);
      assert front[..k + 1] == gs[..k + 1];
    }
  }

  /** Whatever units an encoder wrote, in whatever chunks: the splitter's units are theirs, a new one at
      each type-35 delimiter, `key` where one has a type from 16 to 23, and each as it was written but
      for a key unit that lacks parameter sets, which gets the newest of each it lacks once all three
      kinds have been seen. */
  lemma SplitBuilt(ns: seq<Nal>, k: nat)
    requires AllGood(ns)
    ensures |Split(Flat(ns), [None, None, None])| == |Groups(ns)|
    ensures k < |Groups(ns)| ==>
      && AllGood(Sent(Groups(ns)[..k + 1]))
      && Split(Flat(ns), [None, None, None])[k]
         == AccessUnit(Flat(Sent(Groups(ns)[..k + 1])), KeyUnits(Groups(ns)[k]))
  {
    hide Good, Flat, AllRaws, FinishedAll, Sent, KeyUnits, Groups;
    RawsAreGroups(ns);
    if k < |Groups(ns)| { AllFinished(Groups(ns), k); }
  }
}
