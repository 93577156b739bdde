/**
 * Cross-platform path translation (qcbridge/ring1/pathmap.py).
 *
 * A table of rows pairs a Windows root with a mac root. A path is rewritten by the first row, in
 * order of falling source length, whose root holds it on a component boundary; Windows roots are
 * compared without drive and case unless a row is nothing but a drive. Paths no row holds only
 * have their separators converted. Which row is used is settled here; `PathRoundTrips` goes there
 * and back.
 */
module PathMaps {
  import opened Wrappers

  datatype Os = Win | Mac | Lin

  /** One row of the table. */
  datatype Row = Row(win: string, mac: string, enabled: bool)

  /** This machine: its system, and its home directory in forward-slash form. */
  datatype Machine = Machine(os: Os, home: string)

  // -------------------------------------------------------- strings ----

  function Replace(s: string, a: char, b: char): (r: string)
    ensures |r| == |s| && forall i :: 0 <= i < |s| ==> r[i] == if s[i] == a then b else s[i]
  {
    seq(|s|, i requires 0 <= i < |s| => if s[i] == a then b else s[i])
  }

  /** Forward slashes. */
  function Norm(s: string): string {
    Replace(s, '\\', '/')
  }

  function ToNative(s: string, os: Os): string {
    if os == Win then Replace(s, '/', '\\') else Norm(s)
  }

  predicate Slash(c: char, both: bool) {
    c == '/' || (both && c == '\\')
  }

  /** `lstrip("/")`, or `lstrip("/\\")` with `both`. */
  function LStrip(s: string, both: bool): (r: string)
    ensures r == [] || !Slash(r[0], both)
  {
    if s != [] && Slash(s[0], both) then LStrip(s[1..], both) else s
  }

  function RStrip(s: string, both: bool): (r: string)
    ensures r == [] || !Slash(r[|r| - 1], both)
  {
    if s != [] && Slash(s[|s| - 1], both) then RStrip(s[..|s| - 1], both) else s
  }

  function LowerChar(c: char): char {
    if 'A' <= c <= 'Z' then c + 32 as char else c
  }

  function Lower(s: string): (r: string)
    ensures |r| == |s| && forall i :: 0 <= i < |s| ==> r[i] == LowerChar(s[i])
  {
    seq(|s|, i requires 0 <= i < |s| => LowerChar(s[i]))
  }

  predicate IsAlpha(c: char) {
    'a' <= c <= 'z' || 'A' <= c <= 'Z'
  }

  predicate HasDrive(s: string) {
    |s| >= 2 && s[1] == ':' && IsAlpha(s[0])
  }

  /** `_strip_for_win`. */
  function StripForWin(s: string): string {
    LStrip(if HasDrive(s) then s[2..] else s, false)
  }

  /** `_expand_mapping_prefix`. */
  function Expand(me: Machine, os: Os, prefix: string): string {
    if os == me.os && (prefix == "~" || "~/" <= prefix || "~\\" <= prefix) then
      var rest := LStrip(prefix[1..], true);
      if rest == [] then me.home else me.home + "/" + rest
    else prefix
  }

  predicate HasTilde(prefix: string) {
    prefix != [] && prefix[0] == '~'
  }

  // ---------------------------------------------------- translation ----

  /** A usable row, seen from one system to another. */
  datatype Rule = Rule(source: string, target: string)

  function Side(r: Row, os: Os): string {
    match os
    case Win => r.win
    case Mac => r.mac
    case Lin => ""
  }

  predicate Usable(r: Row, src: Os, dst: Os) {
    r.enabled && Side(r, src) != "" && Side(r, dst) != ""
  }

  function RuleOf(r: Row, src: Os, dst: Os): Rule {
    Rule(Side(r, src), Side(r, dst))
  }

  function Rules(rows: seq<Row>, src: Os, dst: Os): seq<Rule> {
    if rows == [] then []
    else
      var rest, r := Rules(rows[..|rows| - 1], src, dst), rows[|rows| - 1];
      if Usable(r, src, dst) then rest + [RuleOf(r, src, dst)] else rest
  }

  /** The sort key, longest first. */
  function Weight(c: Rule): nat {
    |RStrip(Norm(c.source), false)|
  }

  function Insert(cs: seq<Rule>, c: Rule): (n: seq<Rule>)
    ensures |n| == |cs| + 1
  {
    if cs == [] || Weight(cs[|cs| - 1]) >= Weight(c) then cs + [c]
    else Insert(cs[..|cs| - 1], c) + [cs[|cs| - 1]]
  }

  /** Longest source first; equal lengths keep the table's order. */
  function Sort(cs: seq<Rule>): seq<Rule> {
    if cs == [] then [] else Insert(Sort(cs[..|cs| - 1]), cs[|cs| - 1])
  }

  /** A path against a rule: the path with its case, the path as compared, the prefix as compared. */
  datatype Probe = Probe(casePath: string, cmpPath: string, cmpSource: string)

  /** A drive with nothing under it: compared with its letter, since that is all it says. */
  predicate Bare(normSource: string) {
    forall c :: c in StripForWin(normSource) ==> c == '/'
  }

  function WinProbe(source: string, path: string): Probe {
    var normSource, normPath := Norm(source), Norm(path);
    if Bare(normSource)
    then Probe(normPath, Lower(normPath), Lower(RStrip(normSource, false)))
    else
      var casePath := StripForWin(normPath);
      Probe(casePath, Lower(casePath), Lower(RStrip(StripForWin(normSource), false)))
  }

  function ProbeOf(me: Machine, src: Os, c: Rule, path: string): Probe {
    var source := Expand(me, src, c.source);
    if src == Win then WinProbe(source, path)
    else Probe(Norm(path), Norm(path), RStrip(Norm(source), false))
  }

  /** `prefix` ends on a component boundary of `path`. */
  predicate Under(path: string, prefix: string) {
    path == prefix || prefix + "/" <= path
  }

  predicate Hits(me: Machine, src: Os, c: Rule, path: string) {
    var p := ProbeOf(me, src, c, path);
    Under(p.cmpPath, p.cmpSource)
  }

  function Joined(target: string, remainder: string): string {
    if remainder == [] then target else target + "/" + remainder
  }

  lemma ProbeLengths(me: Machine, src: Os, c: Rule, path: string)
    ensures var p := ProbeOf(me, src, c, path); |p.casePath| == |p.cmpPath|
  {
  }

  function Rewritten(me: Machine, src: Os, dst: Os, c: Rule, path: string): string
    requires Hits(me, src, c, path)
  {
    ProbeLengths(me, src, c, path);
    var p := ProbeOf(me, src, c, path);
    var remainder := LStrip(p.casePath[|p.cmpSource|..], true);
    ToNative(Joined(RStrip(Expand(me, dst, c.target), true), remainder), dst)
  }

  function FirstHit(me: Machine, src: Os, cs: seq<Rule>, path: string): Option<Rule> {
    if cs == [] then None
    else if Hits(me, src, cs[0], path) then Some(cs[0])
    else FirstHit(me, src, cs[1..], path)
  }

  lemma {:induction false} FirstHitHits(me: Machine, src: Os, cs: seq<Rule>, path: string)
    ensures match FirstHit(me, src, cs, path)
      case Some(c) => c in cs && Hits(me, src, c, path)
      case None => forall c :: c in cs ==> !Hits(me, src, c, path)
  {
    hide Hits;
    if cs != [] { FirstHitHits(me, src, cs[1..], path); }
  }

  /** The rule `translate` uses. */
  function Chosen(me: Machine, src: Os, dst: Os, path: string, rows: seq<Row>): Option<Rule> {
    FirstHit(me, src, Sort(Rules(rows, src, dst)), path)
  }

  function Translated(me: Machine, src: Os, dst: Os, path: string, rows: seq<Row>): string {
    match Chosen(me, src, dst, path, rows)
    case Some(c) =>
      FirstHitHits(me, src, Sort(Rules(rows, src, dst)), path);
      Rewritten(me, src, dst, c, path)
    case None => ToNative(path, dst)
  }

  /** The loop that collects the usable rows. */
  method Collect(rows: seq<Row>, src: Os, dst: Os) returns (candidates: seq<Rule>)
    ensures candidates == Rules(rows, src, dst)
  {
    candidates := [];
    for i := 0 to |rows|
      invariant candidates == Rules(rows[..i], src, dst)
    {
      assert rows[..i + 1][..i] == rows[..i];
      if rows[i].enabled && Side(rows[i], src) != "" && Side(rows[i], dst) != "" {
        candidates := candidates + [Rule(Side(rows[i], src), Side(rows[i], dst))];
      }
    }
    assert rows[..|rows|] == rows;
  }

  /** `translate`: collect, sort, and rewrite by the first candidate that matches. */
  method Translate(me: Machine, src: Os, dst: Os, path: string, rows: seq<Row>) returns (out: string)
    ensures out == Translated(me, src, dst, path, rows)
  {
    hide Hits, Rewritten, Rules, Sort;
    var candidates := Collect(rows, src, dst);
    candidates := Sort(candidates);
    for i := 0 to |candidates|
      invariant FirstHit(me, src, candidates[i..], path) == Chosen(me, src, dst, path, rows)
    {
      var c := candidates[i];
      assert candidates[i..][0] == c && candidates[i..][1..] == candidates[i + 1..];
      if Hits(me, src, c, path) {
        return Rewritten(me, src, dst, c, path);
      }
    }
    return ToNative(path, dst);
  }

  /** Whatever row is used, what comes out is in the target's own form: no separator of the other. */
  lemma ComesOutNative(me: Machine, src: Os, dst: Os, path: string, rows: seq<Row>)
    ensures (if dst == Win then '/' else '\\') !in Translated(me, src, dst, path, rows)
  {
    hide Chosen, Hits;
  }

  /** A path no usable row holds keeps every character but its separators. */
  lemma UnmatchedKeeps(me: Machine, src: Os, dst: Os, path: string, rows: seq<Row>, i: nat)
    requires forall c :: c in Rules(rows, src, dst) ==> !Hits(me, src, c, path)
    ensures var out := Translated(me, src, dst, path, rows);
      && |out| == |path|
      && (i < |path| ==>
            out[i] == if path[i] != '/' && path[i] != '\\' then path[i]
                      else if dst == Win then '\\' else '/')
  {
    hide Hits, Insert, Rewritten, Rules;
    SortKeeps(Rules(rows, src, dst));
    SameElements(Sort(Rules(rows, src, dst)), Rules(rows, src, dst));
    FirstHitHits(me, src, Sort(Rules(rows, src, dst)), path);
  }

  lemma SameElements(a: seq<Rule>, b: seq<Rule>)
    requires multiset(a) == multiset(b)
    ensures forall c :: c in a ==> c in b
  {
    assert forall c :: c in a ==> c in multiset(b);
  }

  // ------------------------------------------------- the row that is used ----

  lemma {:induction false} InsertKeeps(cs: seq<Rule>, c: Rule)
    ensures multiset(Insert(cs, c)) == multiset(cs) + multiset{c}
  {
    hide Weight;
    if cs == [] || Weight(cs[|cs| - 1]) >= Weight(c) {
    } else {
      var front, last := cs[..|cs| - 1], cs[|cs| - 1];
      assert cs == front + [last];
      InsertKeeps(front, c);
    }
  }

  lemma {:induction false} InsertFalls(cs: seq<Rule>, c: Rule)
    requires Falling(cs)
    ensures Falling(Insert(cs, c))
  {
    hide Weight;
    if cs == [] || Weight(cs[|cs| - 1]) >= Weight(c) {
      FallingSnoc(cs, c);
    } else {
      var front, last := cs[..|cs| - 1], cs[|cs| - 1];
      assert cs == front + [last];
      FallingSnoc(front, last);
      InsertFalls(front, c);
      InsertLast(front, c);
      FallingSnoc(Insert(front, c), last);
    }
  }

  lemma InsertLast(cs: seq<Rule>, c: Rule)
    ensures var n := Insert(cs, c); n[|n| - 1] == c || (cs != [] && n[|n| - 1] == cs[|cs| - 1])
  {
  }

  /** Weights never rise along the list. */
  predicate Falling(cs: seq<Rule>) {
    cs == [] || (Falling(cs[..|cs| - 1]) && (|cs| == 1 || Weight(cs[|cs| - 2]) >= Weight(cs[|cs| - 1])))
  }

  lemma FallingSnoc(cs: seq<Rule>, c: Rule)
    ensures Falling(cs + [c]) <==> Falling(cs) && (cs == [] || Weight(cs[|cs| - 1]) >= Weight(c))
  {
    hide Weight;
    assert (cs + [c])[..|cs|] == cs;
  }

  /** Sorting loses and adds no candidate. */
  lemma {:induction false} SortKeeps(cs: seq<Rule>)
    ensures multiset(Sort(cs)) == multiset(cs)
  {
    hide Insert;
    if cs != [] {
      var front := cs[..|cs| - 1];
      assert cs == front + [cs[|cs| - 1]];
      SortKeeps(front);
      InsertKeeps(Sort(front), cs[|cs| - 1]);
    }
  }

  /** Sorted, the longest source comes first. */
  lemma {:induction false} SortFalls(cs: seq<Rule>)
    ensures Falling(Sort(cs))
  {
    hide Insert, Falling;
    if cs == [] {
      EmptyFalls();
    } else {
      SortFalls(cs[..|cs| - 1]);
      InsertFalls(Sort(cs[..|cs| - 1]), cs[|cs| - 1]);
    }
  }

  lemma EmptyFalls()
    ensures Falling([])
  {
  }

  lemma {:induction false} FallingPairs(cs: seq<Rule>, i: nat, j: nat)
    requires Falling(cs) && i <= j < |cs|
    ensures Weight(cs[i]) >= Weight(cs[j])
  {
    hide Weight;
    if i < j {
      if j < |cs| - 1 {
        FallingPairs(cs[..|cs| - 1], i, j);
      } else {
        FallingPairs(cs[..|cs| - 1], i, j - 1);
      }
    }
  }

  lemma {:induction false} FirstHitIndex(me: Machine, src: Os, cs: seq<Rule>, path: string) returns (k: nat)
    requires FirstHit(me, src, cs, path).Some?
    ensures k < |cs| && FirstHit(me, src, cs, path) == Some(cs[k]) && Hits(me, src, cs[k], path)
    ensures forall j :: 0 <= j < k ==> !Hits(me, src, cs[j], path)
  {
    hide Hits;
    if Hits(me, src, cs[0], path) {
      k := 0;
    } else {
      k := FirstHitIndex(me, src, cs[1..], path);
      k := k + 1;
    }
  }

  /** No rule that matches is heavier than the one used. */
  lemma ChosenIsHeaviest(me: Machine, src: Os, dst: Os, path: string, rows: seq<Row>, c: Rule)
    requires c in Rules(rows, src, dst) && Hits(me, src, c, path)
    ensures var chosen := Chosen(me, src, dst, path, rows);
      chosen.Some? && chosen.value in Rules(rows, src, dst) && Hits(me, src, chosen.value, path)
      && Weight(chosen.value) >= Weight(c)
  {
    hide Hits, Weight, Falling, Rules;
    var cs := Sort(Rules(rows, src, dst));
    SortKeeps(Rules(rows, src, dst));
    SortFalls(Rules(rows, src, dst));
    SameMembers(cs, Rules(rows, src, dst));
    FirstHitHits(me, src, cs, path);
    assert c in cs;
    var j :| 0 <= j < |cs| && cs[j] == c;
    var k := FirstHitIndex(me, src, cs, path);
    FallingPairs(cs, k, if k <= j then j else k);
  }

  lemma SameMembers(a: seq<Rule>, b: seq<Rule>)
    requires multiset(a) == multiset(b)
    ensures forall c :: c in a <==> c in b
  {
    forall c ensures c in a <==> c in b {
      assert c in a <==> c in multiset(a);
      assert c in b <==> c in multiset(b);
    }
  }

  lemma {:induction false} RulesAre(rows: seq<Row>, src: Os, dst: Os)
    ensures forall c :: c in Rules(rows, src, dst) <==> exists r :: r in rows && Usable(r, src, dst) && RuleOf(r, src, dst) == c
  {
    hide Usable, RuleOf;
    if rows != [] {
      var front, last := rows[..|rows| - 1], rows[|rows| - 1];
      assert rows == front + [last];
      RulesAre(front, src, dst);
      forall c ensures c in Rules(rows, src, dst) <==> exists r :: r in rows && Usable(r, src, dst) && RuleOf(r, src, dst) == c {
        if c in Rules(front, src, dst) {
          var r :| r in front && Usable(r, src, dst) && RuleOf(r, src, dst) == c;
          assert r in rows;
        }
      }
    }
  }

  /** A mac root as it is compared. */
  function Root(r: Row): string {
    RStrip(Norm(r.mac), false)
  }

  ghost predicate NoTildes(rows: seq<Row>) {
    forall r :: r in rows ==> !HasTilde(r.mac) && !HasTilde(r.win)
  }

  /** No two usable rows have the same mac root. */
  ghost predicate DistinctRoots(rows: seq<Row>, dst: Os) {
    forall r, q :: r in rows && q in rows && Usable(r, Mac, dst) && Usable(q, Mac, dst) && r != q ==> Root(r) != Root(q)
  }

  /** `r` is usable, its root holds `path` on a component boundary, and no other such row's root is
      as long. */
  ghost predicate LongestRoot(rows: seq<Row>, dst: Os, path: string, r: Row) {
    && r in rows && Usable(r, Mac, dst) && Under(Norm(path), Root(r))
    && forall q :: q in rows && Usable(q, Mac, dst) && Under(Norm(path), Root(q)) && q != r ==> |Root(q)| < |Root(r)|
  }

  lemma MacHits(me: Machine, dst: Os, r: Row, path: string)
    requires !HasTilde(r.mac)
    ensures Hits(me, Mac, RuleOf(r, Mac, dst), path) == Under(Norm(path), Root(r))
    ensures Weight(RuleOf(r, Mac, dst)) == |Root(r)|
  {
    hide RStrip, Norm, Under;
    NoExpansion(me, Mac, r.mac);
  }

  lemma NoExpansion(me: Machine, os: Os, prefix: string)
    requires !HasTilde(prefix)
    ensures Expand(me, os, prefix) == prefix
  {
  }

  /** From a mac path, the row used is the one with the longest root that holds the path on a
      component boundary: in one direction, the row used is that row; in the other, a row is used
      whenever some root holds the path. */
  lemma LongestRootUsed(me: Machine, dst: Os, path: string, rows: seq<Row>) returns (used: Option<Row>)
    requires NoTildes(rows) && DistinctRoots(rows, dst)
    ensures match used
      case Some(r) => LongestRoot(rows, dst, path, r) && Chosen(me, Mac, dst, path, rows) == Some(RuleOf(r, Mac, dst))
      case None => Chosen(me, Mac, dst, path, rows) == None
                   && forall q :: q in rows && Usable(q, Mac, dst) ==> !Under(Norm(path), Root(q))
  {
    hide Hits, Weight, Root, Rules, Usable, RuleOf, Under, Norm, Sort;
    RulesAre(rows, Mac, dst);
    if Chosen(me, Mac, dst, path, rows).None? {
      used := None;
      forall q | q in rows && Usable(q, Mac, dst) ensures !Under(Norm(path), Root(q)) {
        NoneHits(me, dst, path, rows, q);
      }
    } else {
      ChosenIsARule(me, Mac, dst, path, rows);
      var c := Chosen(me, Mac, dst, path, rows).value;
      var r :| r in rows && Usable(r, Mac, dst) && RuleOf(r, Mac, dst) == c;
      used := Some(r);
      MacHits(me, dst, r, path);
      forall q | q in rows && Usable(q, Mac, dst) && Under(Norm(path), Root(q)) && q != r ensures |Root(q)| < |Root(r)| {
        OthersShorter(me, dst, path, rows, r, q);
      }
    }
  }

  lemma ChosenIsARule(me: Machine, src: Os, dst: Os, path: string, rows: seq<Row>)
    ensures match Chosen(me, src, dst, path, rows)
      case Some(c) => c in Rules(rows, src, dst) && Hits(me, src, c, path)
      case None => forall c :: c in Rules(rows, src, dst) ==> !Hits(me, src, c, path)
  {
    hide Hits, Rules;
    var cs := Sort(Rules(rows, src, dst));
    SortKeeps(Rules(rows, src, dst));
    SameMembers(cs, Rules(rows, src, dst));
    FirstHitHits(me, src, cs, path);
  }

  lemma NoneHits(me: Machine, dst: Os, path: string, rows: seq<Row>, q: Row)
    requires NoTildes(rows) && q in rows && Usable(q, Mac, dst) && Chosen(me, Mac, dst, path, rows).None?
    ensures !Under(Norm(path), Root(q))
  {
    hide Hits, Root, Rules, Chosen, Usable, RuleOf, Under, Norm;
    RulesAre(rows, Mac, dst);
    ChosenIsARule(me, Mac, dst, path, rows);
    MacHits(me, dst, q, path);
  }

  lemma OthersShorter(me: Machine, dst: Os, path: string, rows: seq<Row>, r: Row, q: Row)
    requires NoTildes(rows) && DistinctRoots(rows, dst)
    requires r in rows && Usable(r, Mac, dst) && Chosen(me, Mac, dst, path, rows) == Some(RuleOf(r, Mac, dst))
    requires q in rows && Usable(q, Mac, dst) && Under(Norm(path), Root(q)) && q != r
    ensures |Root(q)| < |Root(r)|
  {
    hide Hits, Weight, Root, Rules, Chosen, Usable, RuleOf, Under, Norm;
    RulesAre(rows, Mac, dst);
    MacHits(me, dst, q, path);
    MacHits(me, dst, r, path);
    ChosenIsHeaviest(me, Mac, dst, path, rows, RuleOf(q, Mac, dst));
    if |Root(q)| == |Root(r)| { SameLengthSameRoot(Norm(path), Root(q), Root(r)); }
  }

  lemma SameLengthSameRoot(path: string, a: string, b: string)
    requires Under(path, a) && Under(path, b) && |a| == |b|
    ensures a == b
  {
    assert a == path[..|a|] && b == path[..|b|];
  }

  /** So the order of the table never decides: any two tables with the same rows translate alike. */
  lemma OrderNeverDecides(me: Machine, dst: Os, path: string, rows: seq<Row>, again: seq<Row>)
    requires NoTildes(rows) && DistinctRoots(rows, dst)
    requires forall r :: r in rows <==> r in again
    ensures Translated(me, Mac, dst, path, rows) == Translated(me, Mac, dst, path, again)
  {
    hide Chosen, Rewritten, Hits;
    var a := LongestRootUsed(me, dst, path, rows);
    var b := LongestRootUsed(me, dst, path, again);
    OneLongest(dst, path, rows, again, a, b);
  }

  lemma OneLongest(dst: Os, path: string, rows: seq<Row>, again: seq<Row>, a: Option<Row>, b: Option<Row>)
    requires forall r :: r in rows <==> r in again
    requires a.Some? ==> LongestRoot(rows, dst, path, a.value)
    requires b.Some? ==> LongestRoot(again, dst, path, b.value)
    requires a.None? ==> forall q :: q in rows && Usable(q, Mac, dst) ==> !Under(Norm(path), Root(q))
    requires b.None? ==> forall q :: q in again && Usable(q, Mac, dst) ==> !Under(Norm(path), Root(q))
    ensures a == b
  {
    hide Usable, Under, Root, Norm;
  }
}
