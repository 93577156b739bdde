/**
 * What a path's spelling does not decide (qcbridge/ring1/pathmap.py): the case and the drive letter of a
 * Windows path, and a home directory written `~`.
 */
module PathForms {
  import opened Wrappers
  import opened PathMaps

  // ----------------------------------------------------------- case ----

  /** The same letter, but for case. */
  predicate SameLetter(a: char, b: char) {
    || a == b
    || ('a' <= a <= 'z' && b as int == a as int - 32)
    || ('a' <= b <= 'z' && a as int == b as int - 32)
  }

  predicate SameButCase(p: string, q: string) {
    |p| == |q| && forall i :: 0 <= i < |p| ==> SameLetter(p[i], q[i])
  }

  /** Two characters compare as one exactly if they are the same letter. */
  lemma LetterExact(a: char, b: char)
    ensures LowerChar(a) == LowerChar(b) <==> SameLetter(a, b)
    ensures SameLetter(a, b) ==> (IsAlpha(a) <==> IsAlpha(b)) && (a == '/' <==> b == '/') && (a == '\\' <==> b == '\\')
    ensures SameLetter(a, b) ==> (a == ':' <==> b == ':')
  {
  }

  lemma NormCase(p: string, q: string)
    requires SameButCase(p, q)
    ensures SameButCase(Norm(p), Norm(q))
  {
    forall i | 0 <= i < |p| ensures SameLetter(Norm(p)[i], Norm(q)[i]) { LetterExact(p[i], q[i]); }
  }

  lemma LowerCase(p: string, q: string)
    ensures Lower(p) == Lower(q) <==> SameButCase(p, q)
  {
    if |p| == |q| {
      forall i | 0 <= i < |p| ensures Lower(p)[i] == Lower(q)[i] <==> SameLetter(p[i], q[i]) { LetterExact(p[i], q[i]); }
    }
  }

  lemma {:induction false} StripCase(p: string, q: string)
    requires SameButCase(p, q)
    ensures SameButCase(LStrip(p, false), LStrip(q, false))
  {
    if p != [] {
      LetterExact(p[0], q[0]);
      if p[0] == '/' { StripCase(p[1..], q[1..]); }
    }
  }

  lemma StripForWinCase(p: string, q: string)
    requires SameButCase(p, q)
    ensures SameButCase(StripForWin(p), StripForWin(q))
  {
    if |p| >= 2 {
      LetterExact(p[0], q[0]);
      LetterExact(p[1], q[1]);
    }
    StripCase(if HasDrive(p) then p[2..] else p, if HasDrive(q) then q[2..] else q);
  }

  lemma HitsCase(me: Machine, c: Rule, p: string, q: string)
    requires SameButCase(p, q)
    ensures Hits(me, Win, c, p) == Hits(me, Win, c, q)
  {
    hide Expand, Bare, StripForWin, Norm, SameButCase, Lower, RStrip;
    NormCase(p, q);
    StripForWinCase(Norm(p), Norm(q));
    LowerCase(Norm(p), Norm(q));
    LowerCase(StripForWin(Norm(p)), StripForWin(Norm(q)));
  }

  lemma {:induction false} FirstHitSame(me: Machine, src: Os, cs: seq<Rule>, p: string, q: string)
    requires forall c :: c in cs ==> Hits(me, src, c, p) == Hits(me, src, c, q)
    ensures FirstHit(me, src, cs, p) == FirstHit(me, src, cs, q)
  {
    hide Hits;
    if cs != [] {
      assert cs[0] in cs;
      FirstHitSame(me, src, cs[1..], p, q);
    }
  }

  /** Two Windows paths that differ only in case use the same row, whatever the table. */
  lemma CaseNeverDecides(me: Machine, dst: Os, p: string, q: string, rows: seq<Row>)
    requires SameButCase(p, q)
    ensures Chosen(me, Win, dst, p, rows) == Chosen(me, Win, dst, q, rows)
  {
    hide Hits, Sort, Rules;
    forall c | c in Sort(Rules(rows, Win, dst)) ensures Hits(me, Win, c, p) == Hits(me, Win, c, q) { HitsCase(me, c, p, q); }
    FirstHitSame(me, Win, Sort(Rules(rows, Win, dst)), p, q);
  }

  // ---------------------------------------------------------- drives ----

  /** The path with a drive in front. */
  function OnDrive(d: char, path: string): string {
    [d] + ":" + path
  }

  predicate Letter(d: char) {
    'a' <= d <= 'z' || 'A' <= d <= 'Z'
  }

  lemma DriveStripped(d: char, path: string)
    requires Letter(d) && path != [] && Slash(path[0], true)
    ensures StripForWin(Norm(OnDrive(d, path))) == StripForWin(Norm(path))
  {
    var n := Norm(OnDrive(d, path));
    assert n[2..] == Norm(path) && n[0] == d && n[1] == ':';
    assert Norm(path)[0] == '/';
  }

  lemma HitsDrive(me: Machine, c: Rule, d: char, path: string)
    requires Letter(d) && path != [] && Slash(path[0], true) && !Bare(Norm(Expand(me, Win, c.source)))
    ensures ProbeOf(me, Win, c, OnDrive(d, path)) == ProbeOf(me, Win, c, path)
    ensures Hits(me, Win, c, OnDrive(d, path)) == Hits(me, Win, c, path)
  {
    hide Expand, Bare, StripForWin, Norm, Lower, RStrip;
    DriveStripped(d, path);
  }

  /** No usable row is a bare drive. */
  predicate NoBareDrives(me: Machine, rows: seq<Row>, dst: Os) {
    forall c :: c in Rules(rows, Win, dst) ==> !Bare(Norm(Expand(me, Win, c.source)))
  }

  /** Without bare drives in the table, a rooted Windows path a row holds goes to the same place on every
      drive and on none. */
  lemma DriveNeverDecides(me: Machine, dst: Os, d: char, path: string, rows: seq<Row>)
    requires Letter(d) && path != [] && Slash(path[0], true) && NoBareDrives(me, rows, dst)
    ensures Chosen(me, Win, dst, OnDrive(d, path), rows) == Chosen(me, Win, dst, path, rows)
    ensures Chosen(me, Win, dst, path, rows).Some? ==>
      Translated(me, Win, dst, OnDrive(d, path), rows) == Translated(me, Win, dst, path, rows)
  {
    hide Hits, Sort, Rules, Insert, ProbeOf, Expand, Bare, OnDrive;
    var cs := Sort(Rules(rows, Win, dst));
    SortKeeps(Rules(rows, Win, dst));
    SameElements(cs, Rules(rows, Win, dst));
    forall c | c in cs ensures Hits(me, Win, c, OnDrive(d, path)) == Hits(me, Win, c, path)
      ensures ProbeOf(me, Win, c, OnDrive(d, path)) == ProbeOf(me, Win, c, path)
    {
      HitsDrive(me, c, d, path);
    }
    FirstHitSame(me, Win, cs, OnDrive(d, path), path);
    FirstHitHits(me, Win, cs, path);
    FirstHitHits(me, Win, cs, OnDrive(d, path));
  }

  // ------------------------------------------------------------ home ----

  /** A name inside the home directory: not rooted. */
  predicate Relative(x: string) {
    x != [] && !Slash(x[0], true)
  }

  /** On this machine's own side `~` is its home, alone or with a name below it. */
  lemma TildeIsHome(me: Machine, x: string)
    requires Relative(x)
    ensures Expand(me, me.os, "~") == me.home
    ensures Expand(me, me.os, "~/" + x) == me.home + "/" + x && Expand(me, me.os, "~\\" + x) == me.home + "/" + x
  {
    assert ("~/" + x)[1..] == "/" + x && ("~\\" + x)[1..] == "\\" + x;
    Unrooted("/", x);
    Unrooted("\\", x);
    assert "~"[1..] == "";
  }

  lemma Unrooted(slash: string, x: string)
    requires Relative(x) && |slash| == 1 && Slash(slash[0], true)
    ensures LStrip(slash + x, true) == x
  {
    assert (slash + x)[1..] == x;
    assert LStrip(x, true) == x;
  }

  /** The other machine's side, and any name that merely begins with `~`, stay as they are. */
  lemma OtherwiseKept(me: Machine, os: Os, prefix: string)
    requires os != me.os || prefix == [] || prefix[0] != '~' || (|prefix| > 1 && !Slash(prefix[1], true))
    ensures Expand(me, os, prefix) == prefix
  {
  }

  /** A row whose mac side is below `~` maps the paths below that directory. */
  lemma TildeRowMaps(me: Machine, row: Row, x: string, tail: string)
    requires me.os == Mac && row.enabled && row.win != "" && Relative(x) && row.mac == "~/" + x && Relative(tail)
    requires x[|x| - 1] != '/' && '\\' !in me.home && '\\' !in x && '\\' !in tail
    ensures Translated(me, Mac, Win, me.home + "/" + x + "/" + tail, [row])
         == ToNative(RStrip(row.win, true) + "/" + tail, Win)
  {
    var path, root := me.home + "/" + x + "/" + tail, me.home + "/" + x;
    TildeIsHome(me, x);
    OneRule(row);
    OtherwiseKept(me, Win, row.win);
    NoBackslash(path);
    NoBackslash(root);
    assert RStrip(root, false) == root;
    assert path == root + "/" + tail && root + "/" <= path;
    var c := RuleOf(row, Mac, Win);
    assert Hits(me, Mac, c, path);
    assert path[|root|..] == "/" + tail;
    Unrooted("/", tail);
    hide Expand, Norm, Hits, RStrip;
    assert Sort([c]) == [c] by { SortOne(c); }
  }

  lemma SortOne(c: Rule)
    ensures Sort([c]) == [c]
  {
    assert [c][..0] == [];
    assert Sort([]) == [] && Insert([], c) == [] + [c];
  }

  lemma OneRule(row: Row)
    requires row.enabled && row.win != "" && row.mac != ""
    ensures Rules([row], Mac, Win) == [RuleOf(row, Mac, Win)]
  {
    assert [row][..0] == [];
    assert Rules([], Mac, Win) == [];
  }

  lemma NoBackslash(s: string)
    requires '\\' !in s
    ensures Norm(s) == s
  {
    forall i | 0 <= i < |s| ensures Norm(s)[i] == s[i] { assert s[i] in s; }
  }
}
