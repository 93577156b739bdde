/**
 * What the order of a table's rows means for Windows paths (qcbridge/ring1/pathmap.py,
 * translate): rows are sorted by the length of their Windows side with its drive, and matched
 * without it.
 */
module WinRows {
  import opened Wrappers
  import opened PathMaps
  import opened PathRoundTrips
  import opened RowOrders

  /** Row `r` is tried before row `q` on a Windows path. */
  predicate RowBefore(rows: seq<Row>, r: Row, q: Row) {
    Before(Rules(rows, Win, Mac), RuleOf(r, Win, Mac), RuleOf(q, Win, Mac))
  }

  predicate Holds(me: Machine, q: Row, path: string) {
    Hits(me, Win, RuleOf(q, Win, Mac), path)
  }

  lemma SameRule(r: Row, q: Row)
    requires Both(r) && Both(q) && RuleOf(r, Win, Mac) == RuleOf(q, Win, Mac)
    ensures r == q
  {
  }

  /** The row used on a Windows path holds it and is tried before every other that does. */
  lemma RowUsed(me: Machine, rows: seq<Row>, path: string, r: Row)
    requires r in rows && Both(r)
    ensures Chosen(me, Win, Mac, path, rows) == Some(RuleOf(r, Win, Mac)) <==>
      Holds(me, r, path) && forall q :: q in rows && Both(q) && q != r && Holds(me, q, path) ==> RowBefore(rows, r, q)
  {
    hide Hits, Rules, Both, RuleOf, Before, Chosen;
    var cs, c := Rules(rows, Win, Mac), RuleOf(r, Win, Mac);
    ChosenExactly(me, Win, Mac, path, rows, c);
    RulesAre(rows, Win, Mac);
    BothWays(r);
    if Leads(me, Win, cs, path, c) {
      forall q | q in rows && Both(q) && q != r && Holds(me, q, path) ensures RowBefore(rows, r, q) {
        BothWays(q);
        if RuleOf(q, Win, Mac) == c { SameRule(q, r); }
      }
    }
    if Holds(me, r, path) && forall q :: q in rows && Both(q) && q != r && Holds(me, q, path) ==> RowBefore(rows, r, q) {
      forall d | d in cs && d != c && Hits(me, Win, d, path) ensures Before(cs, c, d) {
        var q :| q in rows && Usable(q, Win, Mac) && RuleOf(q, Win, Mac) == d;
        BothWays(q);
        assert Holds(me, q, path);
      }
    }
  }

  // --------------------------------------- can two rows hold one path? ----

  /** `b` goes on from `a` by a component that a path under `a` may have. */
  predicate Below(b: string, a: string) {
    a + "/" <= b && |b| > |a| + 1 && b[|a| + 1] != '/'
  }

  /** Some Windows form of a path under row `r` is held by row `q`. A bare drive compares with its
      letter; a rooted row ignores letters, so under a bare drive it always finds one. */
  predicate Meets(r: Row, q: Row) {
    if BareRow(q) then Under(Lower(WinRoot(r)), Lower(WinRoot(q)))
    else BareRow(r) || Under(Lower(Key(r)), Lower(Key(q))) || Below(Lower(Key(q)), Lower(Key(r)))
  }

  /** The tail of one such path. */
  function Crossing(r: Row, q: Row): string {
    if BareRow(q) then []
    else if BareRow(r) then Key(q)
    else if Under(Lower(Key(r)), Lower(Key(q))) || |Key(q)| <= |Key(r)| then []
    else Key(q)[|Key(r)| + 1..]
  }

  lemma BothUnder(path: string, a: string, b: string)
    requires Under(path, a) && Under(path, b)
    ensures Under(b, a) || (b + "/" <= a && a <= path)
  {
    if |a| <= |b| { UnderBoth(path, a, b); } else { UnderBoth(path, b, a); }
  }

  lemma BareHolds(r: Row, q: Row, rem: string)
    requires BareRow(q) && Under(Lower(WinPath(r, rem)), Lower(WinRoot(q)))
    ensures Under(Lower(WinRoot(r)), Lower(WinRoot(q)))
  {
    BareRootForm(q);
    LowerJoined(WinRoot(r), rem);
    JoinedUnder(Lower(WinRoot(r)), Lower(rem));
    var a, b := Lower(WinRoot(q)), Lower(WinRoot(r));
    assert forall i :: 0 <= i < |a| ==> a[i] != '/';
    hide WinRoot, BareRow, WinPath, Under, Lower, Joined;
    BothUnder(Joined(b, Lower(rem)), a, b);
    NoSlashInside(a, b);
  }

  lemma NoSlashInside(a: string, b: string)
    requires forall i :: 0 <= i < |a| ==> a[i] != '/'
    ensures !(b + "/" <= a)
  {
    if |b| < |a| { assert a[|b|] != (b + "/")[|b|]; }
  }

  lemma KeyEnd(q: Row)
    requires !BareRow(q)
    ensures Key(q) != [] && Key(q)[|Key(q)| - 1] != '/'
  {
    StripUnderRoot(q, []);
  }

  lemma RootedHolds(r: Row, q: Row, rem: string)
    requires !BareRow(q) && Plain(rem) && Under(Joined(Lower(Key(r)), Lower(rem)), Lower(Key(q)))
    ensures Under(Lower(Key(r)), Lower(Key(q))) || Below(Lower(Key(q)), Lower(Key(r)))
  {
    KeyEnd(q);
    var path, a, b := Joined(Lower(Key(r)), Lower(rem)), Lower(Key(q)), Lower(Key(r));
    JoinedUnder(b, Lower(rem));
    assert a[|a| - 1] == LowerChar(Key(q)[|a| - 1]);
    hide Key, BareRow, Under, Lower;
    BothUnder(path, a, b);
    if b + "/" <= a && a <= path {
      assert a[|b|] == '/' && |a| > |b| + 1;
      assert path == b + "/" + Lower(rem);
      assert a[|b| + 1] == path[|b| + 1] == Lower(rem)[0] == LowerChar(rem[0]);
    }
  }

  /** A row that holds such a path meets the path's own row. */
  lemma HoldsMeets(me: Machine, w: string, r: Row, q: Row, rem: string)
    requires !HasTilde(q.win) && Norm(w) == WinPath(r, rem) && Plain(rem) && Holds(me, q, w)
    ensures Meets(r, q)
  {
    BackHits(me, q, w);
    ProbeBack(q, w, r, rem);
    OwnProbe(w, r, rem);
    ProbeBack(r, w, r, rem);
    hide Hits, WinProbe, BareRow, Under, Lower, Joined, Key, WinRoot, StripForWin, WinPath, Below;
    if BareRow(q) {
      BareHolds(r, q, rem);
    } else if !BareRow(r) {
      RootedHolds(r, q, rem);
    }
  }

  lemma CrossingPlain(r: Row, q: Row)
    requires Meets(r, q)
    ensures Plain(Crossing(r, q))
  {
    if !BareRow(q) {
      StripUnderRoot(q, []);
      KeyIsNorm(q);
      var a, b := Lower(Key(r)), Lower(Key(q));
      if !BareRow(r) && !Under(a, b) {
        assert |b| > |a| + 1 && b[|a| + 1] == LowerChar(Key(q)[|a| + 1]);
        var z := Key(q)[|a| + 1..];
        assert z[0] == Key(q)[|a| + 1];
        forall i | 0 <= i < |z| ensures Norm(z)[i] == z[i] { assert Norm(Key(q))[|a| + 1 + i] == z[i]; }
      }
    }
  }

  lemma LowerTail(s: string, n: nat)
    requires n <= |s|
    ensures Lower(s[n..]) == Lower(s)[n..]
  {
  }

  lemma BelowIsUnder(b: string, a: string)
    requires Below(b, a)
    ensures Joined(a, b[|a| + 1..]) == b && Under(b, b)
  {
    assert b == (a + "/") + b[|a| + 1..];
  }

  lemma RootedCrosses(r: Row, q: Row)
    requires !BareRow(r) && !BareRow(q) && Meets(r, q)
    ensures Under(Joined(Lower(Key(r)), Lower(Crossing(r, q))), Lower(Key(q)))
  {
    hide Key, BareRow, Under, Lower, Joined;
    var a, b := Lower(Key(r)), Lower(Key(q));
    if Under(a, b) {
      NoTail(a);
    } else {
      BelowIsUnder(b, a);
      LowerTail(Key(q), |Key(r)| + 1);
    }
  }

  lemma NoTail(a: string)
    ensures Joined(a, Lower([])) == a
  {
  }

  /** And where they meet, that path is held. */
  lemma CrossingHolds(me: Machine, w: string, r: Row, q: Row)
    requires !HasTilde(q.win) && Meets(r, q) && Plain(Crossing(r, q)) && Norm(w) == WinPath(r, Crossing(r, q))
    ensures Holds(me, q, w)
  {
    var rem := Crossing(r, q);
    BackHits(me, q, w);
    ProbeBack(q, w, r, rem);
    ProbeBack(r, w, r, rem);
    OwnProbe(w, r, rem);
    if BareRow(q) {
      assert WinPath(r, []) == WinRoot(r);
    } else if BareRow(r) {
      KeyBelowDrive(r, q);
    } else {
      hide Hits, WinProbe, BareRow, Under, Lower, Joined, Key, WinRoot, StripForWin, WinPath, Below, Crossing, Meets;
      RootedCrosses(r, q);
    }
  }

  // ------------------------------------------------- the round trip ----

  predicate Trips(me: Machine, rows: seq<Row>, r: Row, rem: string) {
    Translated(me, Win, Mac, Translated(me, Mac, Win, MacPath(r, rem), rows), rows) == MacPath(r, rem)
  }

  /** Every normalised path under a mapped mac root goes to its Windows form and back unchanged. */
  ghost predicate AllTrip(me: Machine, rows: seq<Row>) {
    forall r, rem :: r in rows && Both(r) && Plain(rem) ==> Trips(me, rows, r, rem)
  }

  /** Where the Windows sides of two rows meet, each is tried first on its own paths. */
  ghost predicate Ordered(rows: seq<Row>) {
    forall r, q :: r in rows && q in rows && Both(r) && Both(q) && r != q && Meets(r, q) ==> RowBefore(rows, r, q)
  }

  lemma TripsWhenFirst(me: Machine, rows: seq<Row>, r: Row, rem: string)
    requires NoTildes(rows) && ApartRoots(rows) && r in rows && Both(r) && Plain(rem)
    ensures var w := Translated(me, Mac, Win, MacPath(r, rem), rows);
      Trips(me, rows, r, rem) <==> forall q :: q in rows && Both(q) && q != r && Holds(me, q, w) ==> RowBefore(rows, r, q)
  {
    hide Translated, Chosen, Hits, MacPath, WinPath, RowBefore, Both, Norm;
    var w := Translated(me, Mac, Win, MacPath(r, rem), rows);
    OutIs(me, rows, r, rem);
    BackByOwnRow(me, w, r, rem);
    RoundTripExactly(me, rows, r, rem);
    RowUsed(me, rows, w, r);
  }

  /** The round trip, for the whole table: every path comes back iff, for every pair of usable rows
      whose Windows sides meet, the sort tries the path's own row first. */
  lemma RoundTripsIffOrdered(me: Machine, rows: seq<Row>)
    requires NoTildes(rows) && ApartRoots(rows)
    ensures AllTrip(me, rows) <==> Ordered(rows)
  {
    hide Trips, Meets, RowBefore, Both, Plain, Crossing, Holds;
    if AllTrip(me, rows) {
      forall r, q | r in rows && q in rows && Both(r) && Both(q) && r != q && Meets(r, q) ensures RowBefore(rows, r, q) {
        MeetingOrdered(me, rows, r, q);
      }
    }
    if Ordered(rows) {
      forall r, rem | r in rows && Both(r) && Plain(rem) ensures Trips(me, rows, r, rem) {
        OrderedTrips(me, rows, r, rem);
      }
    }
  }

  lemma MeetingOrdered(me: Machine, rows: seq<Row>, r: Row, q: Row)
    requires NoTildes(rows) && ApartRoots(rows) && AllTrip(me, rows)
    requires r in rows && q in rows && Both(r) && Both(q) && r != q && Meets(r, q)
    ensures RowBefore(rows, r, q)
  {
    hide Translated, Meets, RowBefore, Both, Plain, Crossing, Holds, Norm, WinPath;
    var rem := Crossing(r, q);
    CrossingPlain(r, q);
    var w := Translated(me, Mac, Win, MacPath(r, rem), rows);
    OutIs(me, rows, r, rem);
    CrossingHolds(me, w, r, q);
    TripsWhenFirst(me, rows, r, rem);
  }

  lemma OrderedTrips(me: Machine, rows: seq<Row>, r: Row, rem: string)
    requires NoTildes(rows) && ApartRoots(rows) && Ordered(rows) && r in rows && Both(r) && Plain(rem)
    ensures Trips(me, rows, r, rem)
  {
    hide Translated, Meets, RowBefore, Both, Plain, Holds, Norm, WinPath, Trips;
    var w := Translated(me, Mac, Win, MacPath(r, rem), rows);
    OutIs(me, rows, r, rem);
    TripsWhenFirst(me, rows, r, rem);
    forall q | q in rows && Both(q) && q != r && Holds(me, q, w) ensures RowBefore(rows, r, q) {
      HoldsMeets(me, w, r, q, rem);
    }
  }

  // ------------------------------------------------ the longest key ----

  /** What a row's Windows side says once its drive is off; a bare drive says nothing. */
  function KeyLen(r: Row): nat {
    if BareRow(r) then 0 else |Key(r)|
  }

  /** The row used has the longest key of those that hold the path. */
  ghost predicate LongestKeyUsed(me: Machine, rows: seq<Row>, path: string) {
    forall r, q :: (r in rows && Both(r) && q in rows && Both(q)
      && Chosen(me, Win, Mac, path, rows) == Some(RuleOf(r, Win, Mac)) && Holds(me, q, path)) ==> KeyLen(q) <= KeyLen(r)
  }

  /** The key of `c` lies under that of `d`, or `d` is a bare drive. */
  predicate Nests(c: Row, d: Row) {
    !BareRow(c) && (BareRow(d) || (Under(Lower(Key(c)), Lower(Key(d))) && |Key(d)| < |Key(c)|))
  }

  predicate SameKey(e: Row, c: Row) {
    !BareRow(e) && !BareRow(c) && Lower(Key(e)) == Lower(Key(c))
  }

  /** Wherever two keys nest, a row with the longer one is tried before the row with the shorter. */
  ghost predicate Aligned(rows: seq<Row>) {
    forall c, d :: c in rows && d in rows && Both(c) && Both(d) && Nests(c, d) ==>
      exists e :: e in rows && Both(e) && SameKey(e, c) && RowBefore(rows, e, d)
  }

  /** How a row looks at a Windows path. */
  lemma HoldsIs(me: Machine, q: Row, path: string)
    requires !HasTilde(q.win)
    ensures Holds(me, q, path) ==
      if BareRow(q) then Under(Lower(Norm(path)), Lower(WinRoot(q)))
      else Under(Lower(StripForWin(Norm(path))), Lower(Key(q)))
  {
    NoExpansion(me, Win, q.win);
  }

  /** A path that spells just the key of `c`, on the drive of `d` if that is a bare one. */
  function Spelled(c: Row, d: Row): string {
    (if BareRow(d) then WinRoot(d) else []) + "/" + Key(c)
  }

  lemma SpelledOut(c: Row, d: Row)
    requires !BareRow(c)
    ensures Norm(Spelled(c, d)) == Spelled(c, d) && StripForWin(Spelled(c, d)) == Key(c)
  {
    hide Norm, Key, StripForWin, BareRow;
    KeyIsNorm(c);
    NothingIsPlain();
    StripUnderRoot(c, []);
    if BareRow(d) {
      KeyBelowDrive(d, c);
      RootNorm(d);
      JoinedNorm(WinRoot(d), Key(c));
      assert Joined(WinRoot(d), Key(c)) == Spelled(c, d);
    } else {
      JoinedNorm([], Key(c));
      SlashOff(Key(c));
    }
  }

  lemma JoinedNorm(a: string, b: string)
    requires Norm(a) == a && Norm(b) == b
    ensures Norm(a + "/" + b) == a + "/" + b
  {
    NormAppend(a + "/", b);
    NormAppend(a, "/");
  }

  lemma NothingIsPlain()
    ensures Plain([])
  {
  }

  lemma SlashOff(key: string)
    requires key != [] && key[0] != '/'
    ensures StripForWin([] + "/" + key) == key
  {
    assert [] + "/" + key == "/" + key && ("/" + key)[1..] == key;
    assert !HasDrive("/" + key) && LStrip("/" + key, false) == LStrip(key, false);
  }

  lemma RootNorm(d: Row)
    ensures Norm(WinRoot(d)) == WinRoot(d)
  {
    RStripSplits(Norm(d.win), false);
  }

  lemma SpelledHolds(me: Machine, c: Row, d: Row)
    requires Nests(c, d) && !HasTilde(c.win) && !HasTilde(d.win)
    ensures Holds(me, c, Spelled(c, d)) && Holds(me, d, Spelled(c, d))
  {
    SpelledOut(c, d);
    HoldsIs(me, c, Spelled(c, d));
    HoldsIs(me, d, Spelled(c, d));
    hide Key, StripForWin, BareRow, Norm, Holds;
    if BareRow(d) {
      LowerAppend(WinRoot(d) + "/", Key(c));
      LowerAppend(WinRoot(d), "/");
    }
  }

  /** Of the rows that hold that path, those whose key is as long have the same key. */
  lemma SpelledLongest(me: Machine, c: Row, d: Row, e: Row)
    requires !BareRow(c) && !HasTilde(e.win) && Holds(me, e, Spelled(c, d)) && KeyLen(e) >= |Key(c)|
    ensures SameKey(e, c)
  {
    KeyEnd(c);
    SpelledOut(c, d);
    HoldsIs(me, e, Spelled(c, d));
    hide Key, StripForWin, BareRow, Norm, Holds, Spelled;
  }

  lemma SameKeyHolds(me: Machine, e: Row, c: Row, path: string)
    requires SameKey(e, c) && !HasTilde(e.win) && !HasTilde(c.win) && Holds(me, c, path)
    ensures Holds(me, e, path) && KeyLen(e) == KeyLen(c)
  {
    HoldsIs(me, e, path);
    HoldsIs(me, c, path);
    hide Key, StripForWin, BareRow, Norm, Holds;
  }

  lemma LongerNests(me: Machine, c: Row, d: Row, path: string)
    requires !HasTilde(c.win) && !HasTilde(d.win) && Holds(me, c, path) && Holds(me, d, path) && KeyLen(d) < KeyLen(c)
    ensures Nests(c, d)
  {
    HoldsIs(me, c, path);
    HoldsIs(me, d, path);
    hide Key, StripForWin, BareRow, Norm, Holds, Under, Lower;
    if !BareRow(d) {
      UnderBoth(Lower(StripForWin(Norm(path))), Lower(Key(d)), Lower(Key(c)));
    }
  }

  /** Every Windows path uses the row with the longest key that holds it, iff wherever two rows'
      keys nest a row with the longer one is tried first. */
  lemma LongestKeyIffAligned(me: Machine, rows: seq<Row>)
    requires NoTildes(rows)
    ensures (forall path :: LongestKeyUsed(me, rows, path)) <==> Aligned(rows)
  {
    hide LongestKeyUsed, Nests, SameKey, RowBefore, Both;
    if forall path :: LongestKeyUsed(me, rows, path) {
      forall c, d | c in rows && d in rows && Both(c) && Both(d) && Nests(c, d)
        ensures exists e :: e in rows && Both(e) && SameKey(e, c) && RowBefore(rows, e, d)
      {
        var e := LongerTriedFirst(me, rows, c, d);
      }
    }
    if Aligned(rows) {
      forall path ensures LongestKeyUsed(me, rows, path) {
        AlignedUsesLongest(me, rows, path);
      }
    }
  }

  lemma LongerTriedFirst(me: Machine, rows: seq<Row>, c: Row, d: Row) returns (e: Row)
    requires NoTildes(rows) && c in rows && d in rows && Both(c) && Both(d) && Nests(c, d)
    requires LongestKeyUsed(me, rows, Spelled(c, d))
    ensures e in rows && Both(e) && SameKey(e, c) && RowBefore(rows, e, d)
  {
    hide Chosen, RowBefore, Both, Holds, Spelled, Key, BareRow, RuleOf;
    var path := Spelled(c, d);
    SpelledHolds(me, c, d);
    e := HolderUsed(me, rows, path, c);
    NestsLengths(c, d);
    SpelledLongest(me, c, d, e);
    RowUsed(me, rows, path, e);
    if e == d { SameKeyLengths(e, c); }
  }

  lemma NestsLengths(c: Row, d: Row)
    requires Nests(c, d)
    ensures !BareRow(c) && KeyLen(c) == |Key(c)| && KeyLen(d) < KeyLen(c)
  {
    KeyEnd(c);
  }

  lemma SameKeyLengths(e: Row, c: Row)
    requires SameKey(e, c)
    ensures KeyLen(e) == KeyLen(c)
  {
    hide Key, BareRow;
  }

  /** If some row holds the path, a row is used. */
  lemma HolderUsed(me: Machine, rows: seq<Row>, path: string, c: Row) returns (e: Row)
    requires c in rows && Both(c) && Holds(me, c, path)
    ensures e in rows && Both(e) && Holds(me, e, path) && Chosen(me, Win, Mac, path, rows) == Some(RuleOf(e, Win, Mac))
  {
    hide Chosen, Rules, Both, RuleOf, Hits, Rewritten, Translated;
    e := BackUses(me, rows, path, c);
  }

  lemma AlignedUsesLongest(me: Machine, rows: seq<Row>, path: string)
    requires NoTildes(rows) && Aligned(rows)
    ensures LongestKeyUsed(me, rows, path)
  {
    hide Chosen, RowBefore, Both, Holds, KeyLen, SameKey, Nests, RuleOf, Rules;
    forall r, q | r in rows && Both(r) && q in rows && Both(q)
      && Chosen(me, Win, Mac, path, rows) == Some(RuleOf(r, Win, Mac)) && Holds(me, q, path)
      ensures KeyLen(q) <= KeyLen(r)
    {
      if KeyLen(q) > KeyLen(r) {
        RowUsed(me, rows, path, r);
        LongerNests(me, q, r, path);
        var e :| e in rows && Both(e) && SameKey(e, q) && RowBefore(rows, e, r);
        SameKeyHolds(me, e, q, path);
        OneWay(rows, e, r);
      }
    }
  }

  lemma OneWay(rows: seq<Row>, r: Row, q: Row)
    requires RowBefore(rows, r, q)
    ensures !RowBefore(rows, q, r)
  {
    BeforeOneWay(Rules(rows, Win, Mac), RuleOf(r, Win, Mac), RuleOf(q, Win, Mac));
  }

  // ------------------------------------ a longer key passed over ----

  const SHARE: Row := Row("U:/proj", "/Volumes/p", true)
  const INNER: Row := Row("proj/x", "/Volumes/x", true)

  lemma Plainly(s: string)
    requires s != [] && s[|s| - 1] != '/' && forall i :: 0 <= i < |s| ==> s[i] != '\\'
    ensures Norm(s) == s && RStrip(s, false) == s
  {
  }

  lemma ShareSide()
    ensures Norm("U:/proj") == "U:/proj" && RStrip("U:/proj", false) == "U:/proj"
    ensures StripForWin("U:/proj") == "proj" && RStrip("proj", false) == "proj"
  {
    Plainly("U:/proj");
    Plainly("proj");
    assert "U:/proj"[2..] == "/proj" && "/proj"[1..] == "proj";
  }

  lemma InnerSide()
    ensures Norm("proj/x") == "proj/x" && RStrip("proj/x", false) == "proj/x" && StripForWin("proj/x") == "proj/x"
  {
    Plainly("proj/x");
  }

  lemma InnerPath()
    ensures Norm("U:/proj/x/f") == "U:/proj/x/f" && StripForWin("U:/proj/x/f") == "proj/x/f"
  {
    Plainly("U:/proj/x/f");
    assert "U:/proj/x/f"[2..] == "/proj/x/f" && "/proj/x/f"[1..] == "proj/x/f";
  }

  lemma TwoRows()
    ensures Rules([SHARE, INNER], Win, Mac) == [RuleOf(SHARE, Win, Mac), RuleOf(INNER, Win, Mac)]
    ensures Both(SHARE) && Both(INNER)
  {
    assert [SHARE, INNER][..1] == [SHARE] && [SHARE][..0] == [];
    assert Rules([SHARE], Win, Mac) == [] + [RuleOf(SHARE, Win, Mac)];
  }

  lemma ShareIs()
    ensures !BareRow(SHARE) && Key(SHARE) == "proj" && Weight(RuleOf(SHARE, Win, Mac)) == 7 && KeyLen(SHARE) == 4
  {
    ShareSide();
    NotBare("U:/proj");
    hide Norm, RStrip, StripForWin, Bare;
  }

  lemma InnerIs()
    ensures !BareRow(INNER) && Key(INNER) == "proj/x" && Weight(RuleOf(INNER, Win, Mac)) == 6 && KeyLen(INNER) == 6
  {
    InnerSide();
    NotBare("proj/x");
    hide Norm, RStrip, StripForWin, Bare;
  }

  lemma LowerForms()
    ensures Lower("proj") == "proj" && Lower("proj/x") == "proj/x" && Lower("proj/x/f") == "proj/x/f"
    ensures Under("proj/x/f", "proj") && Under("proj/x/f", "proj/x")
  {
  }

  lemma BothHold(me: Machine)
    ensures Holds(me, SHARE, "U:/proj/x/f") && Holds(me, INNER, "U:/proj/x/f")
  {
    ShareIs();
    InnerIs();
    InnerPath();
    LowerForms();
    hide Norm, RStrip, StripForWin, BareRow, Key, Lower, Under, Holds;
    NoTilde();
    HoldsIs(me, SHARE, "U:/proj/x/f");
    HoldsIs(me, INNER, "U:/proj/x/f");
  }

  lemma NoTilde()
    ensures !HasTilde(SHARE.win) && !HasTilde(INNER.win) && NoTildes([SHARE, INNER])
  {
  }

  /** The drive counts in the sort and not in the match: `U:/proj` goes before `proj/x`, though on
      `U:/proj/x/f` both hold and the second one's key is the longer. */
  lemma LongerKeyPassedOver(me: Machine)
    ensures var rows, path := [SHARE, INNER], "U:/proj/x/f";
      && Chosen(me, Win, Mac, path, rows) == Some(RuleOf(SHARE, Win, Mac))
      && Holds(me, INNER, path) && KeyLen(INNER) > KeyLen(SHARE)
      && !Aligned(rows)
  {
    hide Chosen, Holds, KeyLen, Weight, Rules, Both, Aligned, At, RuleOf, NoTildes;
    var rows, path := [SHARE, INNER], "U:/proj/x/f";
    ShareIs();
    InnerIs();
    BothHold(me);
    TwoRows();
    NoTilde();
    assert SHARE in rows && INNER in rows && forall q :: q in rows ==> q == SHARE || q == INNER;
    RowUsed(me, rows, path, SHARE);
    LongestKeyIffAligned(me, rows);
    assert !LongestKeyUsed(me, rows, path);
  }
}
