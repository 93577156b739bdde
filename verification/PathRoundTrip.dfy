/**
 * A mac path to its Windows form and back (qcbridge/ring1/pathmap.py).
 */
module PathRoundTrips {
  import opened Wrappers
  import opened PathMaps

  // -------------------------------------------------- strings, again ----

  predicate AllSlashes(s: string, both: bool) {
    forall c :: c in s ==> Slash(c, both)
  }

  lemma {:induction false} RStripSplits(s: string, both: bool)
    ensures RStrip(s, both) <= s && AllSlashes(s[|RStrip(s, both)|..], both)
  {
    if s != [] && Slash(s[|s| - 1], both) {
      var front := s[..|s| - 1];
      RStripSplits(front, both);
      assert s[|RStrip(s, both)|..] == front[|RStrip(s, both)|..] + [s[|s| - 1]];
    }
  }

  lemma {:induction false} RStripAppend(a: string, b: string, both: bool)
    requires a == [] || !Slash(a[|a| - 1], both)
    requires AllSlashes(b, both)
    ensures RStrip(a + b, both) == a
  {
    if b == [] {
      assert a + b == a;
    } else {
      assert (a + b)[..|a + b| - 1] == a + b[..|b| - 1];
      assert b[|b| - 1] in b;
      RStripAppend(a, b[..|b| - 1], both);
    }
  }

  lemma {:induction false} LStripAppend(a: string, b: string)
    requires a == [] || !Slash(a[|a| - 1], false)
    requires a == [] ==> b == [] || !Slash(b[0], false)
    ensures LStrip(a + b, false) == LStrip(a, false) + b
    ensures a != [] ==> LStrip(a, false) != []
  {
    if a == [] {
      assert a + b == b;
    } else if Slash(a[0], false) {
      assert (a + b)[1..] == a[1..] + b;
      assert |a| > 1;
      LStripAppend(a[1..], b);
    }
  }

  lemma {:induction false} LStripAll(a: string, b: string, both: bool)
    requires AllSlashes(a, both) && (b == [] || !Slash(b[0], both))
    ensures LStrip(a + b, both) == b
  {
    if a == [] {
      assert a + b == b;
    } else {
      assert (a + b)[1..] == a[1..] + b && a[0] in a;
      LStripAll(a[1..], b, both);
    }
  }

  lemma LStripLast(a: string)
    requires a != [] && !Slash(a[|a| - 1], false)
    ensures LStrip(a, false) != [] && LStrip(a, false)[|LStrip(a, false)| - 1] == a[|a| - 1]
    decreases |a|
  {
    if Slash(a[0], false) { LStripLast(a[1..]); }
  }

  lemma NormAppend(a: string, b: string)
    ensures Norm(a + b) == Norm(a) + Norm(b)
  {
  }

  /** Stripping either slash and then normalising is normalising and then stripping. */
  lemma NormOfStripped(s: string)
    ensures Norm(RStrip(s, true)) == RStrip(Norm(s), false)
  {
    var a := RStrip(s, true);
    RStripSplits(s, true);
    var b := s[|a|..];
    assert s == a + b;
    NormAppend(a, b);
    forall c | c in Norm(b) ensures Slash(c, false) {
      var i :| 0 <= i < |b| && Norm(b)[i] == c;
      assert b[i] in b;
    }
    RStripAppend(Norm(a), Norm(b), false);
  }

  lemma NormOfNative(s: string, os: Os)
    ensures Norm(ToNative(s, os)) == Norm(s)
  {
  }

  lemma LowerAppend(a: string, b: string)
    ensures Lower(a + b) == Lower(a) + Lower(b)
  {
  }

  lemma NormJoined(a: string, rem: string)
    requires Norm(rem) == rem
    ensures Norm(Joined(a, rem)) == Joined(Norm(a), rem)
  {
    if rem != [] {
      NormAppend(a + "/", rem);
      NormAppend(a, "/");
      assert a + "/" + rem == (a + "/") + rem;
    }
  }

  lemma LowerJoined(a: string, rem: string)
    ensures Lower(Joined(a, rem)) == Joined(Lower(a), Lower(rem))
  {
    if rem != [] {
      LowerAppend(a + "/", rem);
      LowerAppend(a, "/");
      assert a + "/" + rem == (a + "/") + rem;
    }
  }

  lemma JoinedUnder(a: string, rem: string)
    ensures Under(Joined(a, rem), a)
  {
    if rem != [] { assert a + "/" + rem == (a + "/") + rem; }
  }

  /** Two prefixes of one path on component boundaries are one under the other. */
  lemma UnderBoth(path: string, a: string, b: string)
    requires Under(path, a) && Under(path, b) && |a| <= |b|
    ensures Under(b, a)
  {
    assert a == path[..|a|] && b == path[..|b|];
    if |a| < |b| {
      assert (a + "/") == path[..|a| + 1];
      assert path[..|a| + 1] == b[..|a| + 1];
    }
  }

  // ----------------------------------------------- the Windows side ----

  /** A row's Windows root, in forward slashes without trailing ones. */
  function WinRoot(r: Row): string {
    RStrip(Norm(r.win), false)
  }

  /** What a rooted Windows row is compared by: no drive, no slashes at either end. */
  function Key(r: Row): string {
    RStrip(StripForWin(Norm(r.win)), false)
  }

  /** A path tail as a table row leaves it: forward slashes, and no doubled slash at the seam. */
  predicate Plain(rem: string) {
    Norm(rem) == rem && (rem == [] || rem[0] != '/')
  }

  predicate BareRow(r: Row) {
    Bare(Norm(r.win))
  }

  /** Splitting off a drive does not depend on what follows the root. */
  lemma DriveOfRoot(n: string, x: string)
    requires RStrip(n, false) != [] && (x == [] || x[0] == '/')
    ensures HasDrive(RStrip(n, false) + x) == HasDrive(n)
    ensures HasDrive(n) ==> |RStrip(n, false)| >= 2
  {
    var w := RStrip(n, false);
    RStripSplits(n, false);
    assert forall i :: |w| <= i < |n| ==> n[i] in n[|w|..];
    if |n| >= 2 && n[1] == ':' {
      assert (w + x)[1] == n[1] && (w + x)[0] == n[0];
    } else {
      assert |w + x| >= 2 ==> (w + x)[1] == if |w| >= 2 then n[1] else '/';
      assert |w| >= 2 ==> |n| >= 2;
    }
  }

  /** The part of a rooted row after its drive. */
  function Tail(n: string): string {
    if HasDrive(n) then n[2..] else n
  }

  /** A rooted form's part between its drive and its trailing slashes. */
  function Mid(n: string): string {
    var w, t := RStrip(n, false), if HasDrive(n) then 2 else 0;
    if |w| < t then [] else w[t..]
  }

  lemma RootedTail(n: string)
    requires !Bare(n)
    ensures RStrip(n, false) <= n && AllSlashes(n[|RStrip(n, false)|..], false)
    ensures Mid(n) != [] && !Slash(Mid(n)[|Mid(n)| - 1], false)
    ensures Tail(n) == Mid(n) + n[|RStrip(n, false)|..]
  {
    var w := RStrip(n, false);
    RStripSplits(n, false);
    assert n == w + n[|w|..];
    var t := if HasDrive(n) then 2 else 0;
    if |w| <= t { TailSlashes(n, t); }
  }

  lemma TailOfPath(n: string, x: string)
    requires !Bare(n) && (x == [] || x[0] == '/')
    ensures Tail(RStrip(n, false) + x) == Mid(n) + x
  {
    RootedTail(n);
    DriveOfRoot(n, x);
  }

  lemma TailSlashes(n: string, t: nat)
    requires t == (if HasDrive(n) then 2 else 0) && |RStrip(n, false)| <= t
    ensures Bare(n)
  {
    RStripSplits(n, false);
    forall c | c in n[t..] ensures Slash(c, false) {
      var i :| 0 <= i < |n[t..]| && n[t..][i] == c;
      assert n[t + i] in n[|RStrip(n, false)|..];
    }
    assert n[t..] + [] == n[t..];
    LStripAll(n[t..], [], false);
    assert StripForWin(n) == [];
  }

  lemma StripIsTail(n: string)
    ensures StripForWin(n) == LStrip(Tail(n), false)
  {
  }

  /** The key is the middle without its leading slashes. */
  lemma KeyIsMid(n: string)
    requires !Bare(n)
    ensures RStrip(StripForWin(n), false) == LStrip(Mid(n), false)
    ensures LStrip(Mid(n), false) != []
  {
    RootedTail(n);
    var mid, x := Mid(n), n[|RStrip(n, false)|..];
    hide Mid, RStrip, LStrip, Tail, StripForWin;
    StripIsTail(n);
    StripMid(mid, x);
    LStripLast(mid);
    RStripAppend(LStrip(mid, false), x, false);
  }

  lemma StripMid(mid: string, x: string)
    requires mid != [] && !Slash(mid[|mid| - 1], false)
    ensures LStrip(mid + x, false) == LStrip(mid, false) + x
  {
    LStripAppend(mid, x);
  }

  /** Stripping a path under a rooted row gives the row's key and the same tail. */
  lemma StripUnderRoot(r: Row, rem: string)
    requires !BareRow(r) && Plain(rem)
    ensures StripForWin(Joined(WinRoot(r), rem)) == Joined(Key(r), rem)
    ensures Key(r) != [] && Key(r)[0] != '/'
  {
    var n := Norm(r.win);
    var x := if rem == [] then [] else "/" + rem;
    JoinedIs(WinRoot(r), rem, x);
    JoinedIs(Key(r), rem, x);
    hide Joined, Mid, RStrip, Tail, StripForWin, Norm, Bare;
    RootedTail(n);
    TailOfPath(n, x);
    StripIsTail(WinRoot(r) + x);
    StripMid(Mid(n), x);
    KeyIsMid(n);
  }

  lemma JoinedIs(a: string, rem: string, x: string)
    requires x == if rem == [] then [] else "/" + rem
    ensures Joined(a, rem) == a + x
  {
    if rem == [] { assert a + [] == a; } else { assert a + "/" + rem == a + ("/" + rem); }
  }

  // ------------------------------------------------- there and back ----

  predicate Both(r: Row) {
    Usable(r, Mac, Win) && Usable(r, Win, Mac)
  }

  /** A path under `r`'s mac root. */
  function MacPath(r: Row, rem: string): string {
    Joined(Root(r), rem)
  }

  /** Its Windows form by row `r`, in forward slashes. */
  function WinPath(r: Row, rem: string): string {
    Joined(WinRoot(r), rem)
  }

  /** No usable mac root lies under another. */
  ghost predicate ApartRoots(rows: seq<Row>) {
    forall r, q :: r in rows && q in rows && Both(r) && Both(q) && r != q ==> !Under(Root(r), Root(q))
  }

  lemma BothWays(r: Row)
    ensures Usable(r, Mac, Win) == Both(r) && Usable(r, Win, Mac) == Both(r)
  {
  }

  lemma RootIsNorm(r: Row)
    ensures Norm(Root(r)) == Root(r)
  {
    RStripSplits(Norm(r.mac), false);
  }

  /** Under incomparable roots the path's own row is the one used on the way out. */
  lemma OutUses(me: Machine, rows: seq<Row>, r: Row, rem: string)
    requires NoTildes(rows) && ApartRoots(rows) && r in rows && Both(r) && Plain(rem)
    ensures Chosen(me, Mac, Win, MacPath(r, rem), rows) == Some(RuleOf(r, Mac, Win))
    ensures Norm(MacPath(r, rem)) == MacPath(r, rem)
  {
    hide Chosen, Rules, Root, Both, Under, RuleOf;
    var p := MacPath(r, rem);
    NormJoined(Root(r), rem);
    RootIsNorm(r);
    JoinedUnder(Root(r), rem);
    RulesAre(rows, Mac, Win);
    ChosenIsARule(me, Mac, Win, p, rows);
    MacHits(me, Win, r, p);
    BothWays(r);
    assert RuleOf(r, Mac, Win) in Rules(rows, Mac, Win);
    var c := Chosen(me, Mac, Win, p, rows).value;
    var q :| q in rows && Usable(q, Mac, Win) && RuleOf(q, Mac, Win) == c;
    BothWays(q);
    MacHits(me, Win, q, p);
    RootsMeet(p, q, r);
  }

  lemma RootsMeet(p: string, q: Row, r: Row)
    requires Under(p, Root(q)) && Under(p, Root(r))
    ensures Under(Root(r), Root(q)) || Under(Root(q), Root(r))
  {
    hide Root;
    if |Root(q)| <= |Root(r)| { UnderBoth(p, Root(q), Root(r)); } else { UnderBoth(p, Root(r), Root(q)); }
  }

  lemma TailBack(a: string, rem: string)
    requires Plain(rem)
    ensures Joined(a, rem)[|a|..] == (if rem == [] then [] else "/" + rem)
    ensures LStrip(Joined(a, rem)[|a|..], true) == rem
  {
    var x := if rem == [] then [] else "/" + rem;
    JoinedIs(a, rem, x);
    assert (a + x)[|a|..] == x;
    if rem != [] {
      assert rem[0] != '\\' by { assert Norm(rem)[0] == rem[0]; }
      LStripAll("/", rem, true);
    }
  }

  /** The Windows form: the row's Windows root and the same tail. */
  lemma OutIs(me: Machine, rows: seq<Row>, r: Row, rem: string)
    requires NoTildes(rows) && ApartRoots(rows) && r in rows && Both(r) && Plain(rem)
    ensures Norm(Translated(me, Mac, Win, MacPath(r, rem), rows)) == WinPath(r, rem)
  {
    OutUses(me, rows, r, rem);
    MacHits(me, Win, r, MacPath(r, rem));
    RewrittenOut(me, r, rem);
  }

  lemma RewrittenOut(me: Machine, r: Row, rem: string)
    requires !HasTilde(r.mac) && !HasTilde(r.win) && Plain(rem)
    requires Norm(MacPath(r, rem)) == MacPath(r, rem) && Hits(me, Mac, RuleOf(r, Mac, Win), MacPath(r, rem))
    ensures Norm(Rewritten(me, Mac, Win, RuleOf(r, Mac, Win), MacPath(r, rem))) == WinPath(r, rem)
  {
    NoExpansion(me, Mac, r.mac);
    NoExpansion(me, Win, r.win);
    hide Expand, Root, Joined, Under, Norm, RStrip, ToNative;
    TailBack(Root(r), rem);
    NormOfNative(Joined(RStrip(r.win, true), rem), Win);
    NormJoined(RStrip(r.win, true), rem);
    NormOfStripped(r.win);
    assert Root(r) == RStrip(Norm(r.mac), false) by { RootDef(r); }
  }

  lemma RootDef(r: Row)
    ensures Root(r) == RStrip(Norm(r.mac), false)
  {
  }

  // ------------------------------------------------------ the way back ----

  /** How a row looks at the Windows form of a path under row `r`. */
  lemma ProbeBack(q: Row, w: string, r: Row, rem: string)
    requires Norm(w) == WinPath(r, rem) && Plain(rem)
    ensures var p := WinProbe(q.win, w);
      if BareRow(q)
      then p == Probe(WinPath(r, rem), Lower(WinPath(r, rem)), Lower(WinRoot(q)))
      else p == Probe(StripForWin(WinPath(r, rem)), Lower(StripForWin(WinPath(r, rem))), Lower(Key(q)))
  {
  }

  lemma BackHits(me: Machine, q: Row, w: string)
    requires !HasTilde(q.win)
    ensures var p := WinProbe(q.win, w);
      Hits(me, Win, RuleOf(q, Win, Mac), w) == Under(p.cmpPath, p.cmpSource)
  {
    NoExpansion(me, Win, q.win);
  }

  /** What row `r` compares a path under it by, and what it finds after its prefix. */
  function OwnPrefix(r: Row): string {
    if BareRow(r) then WinRoot(r) else Key(r)
  }

  lemma OwnProbe(w: string, r: Row, rem: string)
    requires Norm(w) == WinPath(r, rem) && Plain(rem)
    ensures WinProbe(r.win, w) ==
      Probe(Joined(OwnPrefix(r), rem), Joined(Lower(OwnPrefix(r)), Lower(rem)), Lower(OwnPrefix(r)))
  {
    hide WinProbe, StripForWin, WinRoot, Key, BareRow, Joined;
    ProbeBack(r, w, r, rem);
    if !BareRow(r) { StripUnderRoot(r, rem); }
    LowerJoined(OwnPrefix(r), rem);
  }

  /** By its own row, the Windows form goes back to the path it came from. */
  lemma BackByOwnRow(me: Machine, w: string, r: Row, rem: string)
    requires !HasTilde(r.mac) && !HasTilde(r.win) && Norm(w) == WinPath(r, rem) && Plain(rem)
    ensures Hits(me, Win, RuleOf(r, Win, Mac), w)
    ensures Rewritten(me, Win, Mac, RuleOf(r, Win, Mac), w) == MacPath(r, rem)
  {
    BackHits(me, r, w);
    OwnProbe(w, r, rem);
    JoinedUnder(Lower(OwnPrefix(r)), Lower(rem));
    TailBack(OwnPrefix(r), rem);
    NoExpansion(me, Win, r.win);
    NoExpansion(me, Mac, r.mac);
    hide Expand, WinProbe, OwnPrefix, Joined, Under, Norm, RStrip, Root;
    NormOfNative(Joined(RStrip(r.mac, true), rem), Mac);
    NormJoined(RStrip(r.mac, true), rem);
    NormOfStripped(r.mac);
    RootDef(r);
    NativeMac(Joined(RStrip(r.mac, true), rem));
  }

  lemma NativeMac(s: string)
    ensures ToNative(s, Mac) == Norm(s)
  {
  }

  /** By any row, what comes back lies under that row's mac root. */
  lemma BackLandsUnder(me: Machine, w: string, q: Row)
    requires !HasTilde(q.mac) && Hits(me, Win, RuleOf(q, Win, Mac), w)
    ensures Under(Rewritten(me, Win, Mac, RuleOf(q, Win, Mac), w), Root(q))
  {
    NoExpansion(me, Mac, q.mac);
    ProbeLengths(me, Win, RuleOf(q, Win, Mac), w);
    var p := ProbeOf(me, Win, RuleOf(q, Win, Mac), w);
    var rem := LStrip(p.casePath[|p.cmpSource|..], true);
    hide Expand, ProbeOf, LStrip, RStrip, Norm, Root, Under;
    NativeMac(Joined(RStrip(q.mac, true), rem));
    NormOfStripped(q.mac);
    RootDef(q);
    NormJoinedAny(RStrip(q.mac, true), rem);
    JoinedUnder(Root(q), Norm(rem));
  }

  lemma NormJoinedAny(a: string, rem: string)
    ensures Norm(Joined(a, rem)) == Joined(Norm(a), Norm(rem))
  {
    if rem != [] {
      NormAppend(a + "/", rem);
      NormAppend(a, "/");
      assert a + "/" + rem == (a + "/") + rem;
    }
  }

  /** The row used on the way back. */
  lemma BackUses(me: Machine, rows: seq<Row>, w: string, r: Row) returns (q: Row)
    requires r in rows && Both(r) && Hits(me, Win, RuleOf(r, Win, Mac), w)
    ensures q in rows && Both(q) && Chosen(me, Win, Mac, w, rows) == Some(RuleOf(q, Win, Mac))
    ensures Hits(me, Win, RuleOf(q, Win, Mac), w)
    ensures Translated(me, Win, Mac, w, rows) == Rewritten(me, Win, Mac, RuleOf(q, Win, Mac), w)
  {
    hide Chosen, Rules, Both, RuleOf, Hits, Rewritten;
    RulesAre(rows, Win, Mac);
    ChosenIsARule(me, Win, Mac, w, rows);
    BothWays(r);
    var c := Chosen(me, Win, Mac, w, rows).value;
    q :| q in rows && Usable(q, Win, Mac) && RuleOf(q, Win, Mac) == c;
    BothWays(q);
  }

  /** Out and back returns the path exactly when the way back uses the row the way out used. */
  lemma RoundTripExactly(me: Machine, rows: seq<Row>, r: Row, rem: string)
    requires NoTildes(rows) && ApartRoots(rows) && r in rows && Both(r) && Plain(rem)
    ensures var w := Translated(me, Mac, Win, MacPath(r, rem), rows);
      Translated(me, Win, Mac, w, rows) == MacPath(r, rem) <==>
      Chosen(me, Win, Mac, w, rows) == Some(RuleOf(r, Win, Mac))
  {
    hide Translated, Chosen, Root, Under, Hits, Rewritten, Joined, WinPath;
    var w := Translated(me, Mac, Win, MacPath(r, rem), rows);
    OutIs(me, rows, r, rem);
    BackByOwnRow(me, w, r, rem);
    var q := BackUses(me, rows, w, r);
    BackLandsUnder(me, w, q);
    JoinedUnder(Root(r), rem);
    if q != r && Translated(me, Win, Mac, w, rows) == MacPath(r, rem) {
      RootsMeet(MacPath(r, rem), q, r);
    }
  }

  // -------------------------------------------- a bare drive beside a root ----

  lemma BareRootForm(r: Row)
    requires BareRow(r)
    ensures WinRoot(r) == [] || (|WinRoot(r)| == 2 && HasDrive(WinRoot(r)))
  {
    var n, w := Norm(r.win), WinRoot(r);
    RStripSplits(n, false);
    BareTail(n);
    if HasDrive(n) {
      assert n == n[..2] + n[2..];
      RStripAppend(n[..2], n[2..], false);
    } else {
      assert [] + n == n;
      RStripAppend([], n, false);
    }
  }

  lemma {:induction false} LStripEmpty(s: string)
    requires LStrip(s, false) == []
    ensures AllSlashes(s, false)
  {
    if s != [] {
      LStripEmpty(s[1..]);
      assert s == [s[0]] + s[1..];
    }
  }

  lemma BareTail(n: string)
    requires Bare(n)
    ensures AllSlashes(Tail(n), false)
  {
    if StripForWin(n) != [] { NotBare(n); }
    LStripEmpty(Tail(n));
  }

  lemma NotBare(n: string)
    requires StripForWin(n) != []
    ensures !Bare(n)
  {
    assert StripForWin(n)[0] in StripForWin(n);
  }

  /** Below a bare drive, a rooted row's key is found as if the drive were not there. */
  lemma KeyBelowDrive(r: Row, q: Row)
    requires BareRow(r) && !BareRow(q)
    ensures Plain(Key(q)) && Key(q) != []
    ensures StripForWin(WinPath(r, Key(q))) == Key(q)
  {
    BareRootForm(r);
    assert Plain([]);
    StripUnderRoot(q, []);
    KeyIsNorm(q);
    var d := WinRoot(r);
    assert d + "/" + Key(q) == d + ("/" + Key(q));
    if d == [] {
      assert d + ("/" + Key(q)) == "/" + Key(q);
    } else {
      assert (d + ("/" + Key(q)))[2..] == "/" + Key(q);
    }
    LStripAll("/", Key(q), false);
  }

  lemma KeyIsNorm(q: Row)
    ensures Norm(Key(q)) == Key(q)
  {
    var n := Norm(q.win);
    SuffixOf(Tail(n));
    RStripSplits(StripForWin(n), false);
    assert forall c :: c in Tail(n) ==> c in n;
    assert StripForWin(n)[..|Key(q)|] == Key(q);
    NoBackslashes(Key(q), n, q.win);
  }

  lemma NoBackslashes(s: string, n: string, win: string)
    requires n == Norm(win) && forall c :: c in s ==> c in n
    ensures Norm(s) == s
  {
    forall i | 0 <= i < |s| ensures Norm(s)[i] == s[i] {
      assert s[i] in n;
      var j :| 0 <= j < |n| && n[j] == s[i];
      assert Norm(win)[j] != '\\';
    }
  }

  lemma {:induction false} SuffixOf(s: string)
    ensures forall c :: c in LStrip(s, false) ==> c in s
  {
    if s != [] && Slash(s[0], false) { SuffixOf(s[1..]); }
  }

  /** A bare drive in one row and a longer rooted Windows side in another always lose a path: the
      one below the drive that spells the other row's key. */
  lemma BareDriveLosesAPath(me: Machine, rows: seq<Row>, r: Row, q: Row)
    requires NoTildes(rows) && ApartRoots(rows) && r in rows && q in rows && Both(r) && Both(q)
    requires BareRow(r) && !BareRow(q) && |WinRoot(q)| > |WinRoot(r)|
    ensures Plain(Key(q))
    ensures var w := Translated(me, Mac, Win, MacPath(r, Key(q)), rows);
      Translated(me, Win, Mac, w, rows) != MacPath(r, Key(q))
  {
    KeyBelowDrive(r, q);
    var rem := Key(q);
    var w := Translated(me, Mac, Win, MacPath(r, rem), rows);
    OutIs(me, rows, r, rem);
    hide Translated, Chosen, Hits, WinPath, MacPath, WinProbe, Key, StripForWin, Lower, Joined, BareRow, Rules;
    ProbeBack(q, w, r, rem);
    BackHits(me, q, w);
    RulesAre(rows, Win, Mac);
    BothWays(q);
    ChosenIsHeaviest(me, Win, Mac, w, rows, RuleOf(q, Win, Mac));
    RoundTripExactly(me, rows, r, rem);
  }
}
