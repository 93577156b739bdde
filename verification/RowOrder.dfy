/**
 * Which of the rows that hold a path is used (qcbridge/ring1/pathmap.py, translate): the sort is
 * stable, so the longest source wins and, among equals, the one the table names first.
 */
module RowOrders {
  import opened Wrappers
  import opened PathMaps

  /** Where a rule first stands. */
  function At(cs: seq<Rule>, c: Rule): nat {
    if cs == [] || cs[0] == c then 0 else 1 + At(cs[1..], c)
  }

  /** `c` goes before `d`: its source is longer, or as long and named earlier. */
  predicate Before(cs: seq<Rule>, c: Rule, d: Rule) {
    Weight(c) > Weight(d) || (Weight(c) == Weight(d) && At(cs, c) < At(cs, d))
  }

  /** Of the rules that match, the heaviest, and the first of those. */
  function Winner(me: Machine, src: Os, cs: seq<Rule>, path: string): Option<Rule> {
    if cs == [] then None
    else
      var w, c := Winner(me, src, cs[..|cs| - 1], path), cs[|cs| - 1];
      if Hits(me, src, c, path) && (w.None? || Weight(w.value) < Weight(c)) then Some(c) else w
  }

  lemma {:induction false} FirstHitAppend(me: Machine, src: Os, a: seq<Rule>, b: seq<Rule>, path: string)
    ensures var w := FirstHit(me, src, a, path);
      FirstHit(me, src, a + b, path) == if w.Some? then w else FirstHit(me, src, b, path)
  {
    hide Hits;
    if a == [] {
      assert a + b == b;
    } else {
      assert (a + b)[1..] == a[1..] + b;
      FirstHitAppend(me, src, a[1..], b, path);
    }
  }

  lemma FirstHitOne(me: Machine, src: Os, c: Rule, path: string)
    ensures FirstHit(me, src, [c], path) == if Hits(me, src, c, path) then Some(c) else None
  {
    hide Hits;
  }

  lemma HitIsHeavier(me: Machine, src: Os, cs: seq<Rule>, path: string)
    requires Falling(cs) && cs != [] && FirstHit(me, src, cs, path).Some?
    ensures Weight(FirstHit(me, src, cs, path).value) >= Weight(cs[|cs| - 1])
  {
    hide Weight, Falling, FirstHit, Hits;
    var k := FirstHitIndex(me, src, cs, path);
    FallingPairs(cs, k, |cs| - 1);
  }

  /** Inserting a rule into a sorted list changes the first match only if it is heavier. */
  lemma {:induction false} FirstHitInsert(me: Machine, src: Os, cs: seq<Rule>, c: Rule, path: string)
    requires Falling(cs)
    ensures var w := FirstHit(me, src, cs, path);
      FirstHit(me, src, Insert(cs, c), path)
      == if Hits(me, src, c, path) && (w.None? || Weight(w.value) < Weight(c)) then Some(c) else w
  {
    hide Hits, Weight, FirstHit;
    FirstHitOne(me, src, c, path);
    if cs == [] {
      NothingHits(me, src, path);
      assert cs + [c] == [c];
    } else {
      var front, last := cs[..|cs| - 1], cs[|cs| - 1];
      assert cs == front + [last];
      FallingSnoc(front, last);
      FirstHitOne(me, src, last, path);
      FirstHitAppend(me, src, front, [last], path);
      if Weight(last) >= Weight(c) {
        FirstHitAppend(me, src, cs, [c], path);
        if FirstHit(me, src, cs, path).Some? { HitIsHeavier(me, src, cs, path); }
      } else {
        FirstHitInsert(me, src, front, c, path);
        FirstHitAppend(me, src, Insert(front, c), [last], path);
      }
    }
  }

  lemma NothingHits(me: Machine, src: Os, path: string)
    ensures FirstHit(me, src, [], path) == None
  {
  }

  lemma {:induction false} SortedWinner(me: Machine, src: Os, cs: seq<Rule>, path: string)
    ensures FirstHit(me, src, Sort(cs), path) == Winner(me, src, cs, path)
  {
    hide Hits, Weight, FirstHit, Insert;
    if cs == [] {
      NothingHits(me, src, path);
    } else {
      var front, c := cs[..|cs| - 1], cs[|cs| - 1];
      SortedWinner(me, src, front, path);
      SortFalls(front);
      FirstHitInsert(me, src, Sort(front), c, path);
    }
  }

  lemma {:induction false} AtAppend(a: seq<Rule>, b: seq<Rule>, c: Rule)
    ensures c in a ==> At(a + b, c) == At(a, c) < |a|
    ensures c !in a ==> At(a + b, c) == |a| + At(b, c)
  {
    if a == [] {
      assert a + b == b;
    } else if a[0] != c {
      assert (a + b)[1..] == a[1..] + b && a == [a[0]] + a[1..];
      AtAppend(a[1..], b, c);
    }
  }

  lemma {:induction false} AtBound(cs: seq<Rule>, c: Rule)
    ensures if c in cs then At(cs, c) < |cs| && cs[At(cs, c)] == c else At(cs, c) == |cs|
  {
    if cs != [] && cs[0] != c {
      assert cs == [cs[0]] + cs[1..];
      AtBound(cs[1..], c);
    }
  }

  /** A rule that matches and goes before every other that does. */
  ghost predicate Leads(me: Machine, src: Os, cs: seq<Rule>, path: string, c: Rule) {
    && c in cs && Hits(me, src, c, path)
    && forall d :: d in cs && d != c && Hits(me, src, d, path) ==> Before(cs, c, d)
  }

  lemma BeforeLonger(front: seq<Rule>, x: Rule, c: Rule, d: Rule)
    requires c in front
    ensures d in front ==> (Before(front + [x], c, d) <==> Before(front, c, d))
    ensures d !in front && d == x ==> (Before(front + [x], c, d) <==> Weight(c) >= Weight(d))
    ensures d !in front && d == x ==> (Before(front + [x], d, c) <==> Weight(d) > Weight(c))
  {
    hide Weight, At;
    AtAppend(front, [x], c);
    AtAppend(front, [x], d);
    if d == x { AtBound([x], d); }
  }

  lemma {:induction false} WinnerLeads(me: Machine, src: Os, cs: seq<Rule>, path: string)
    ensures match Winner(me, src, cs, path)
      case Some(c) => Leads(me, src, cs, path, c)
      case None => forall d :: d in cs ==> !Hits(me, src, d, path)
  {
    hide Hits, Weight, Before;
    if cs != [] {
      var front, x := cs[..|cs| - 1], cs[|cs| - 1];
      assert cs == front + [x];
      WinnerLeads(me, src, front, path);
      var w := Winner(me, src, front, path);
      if Winner(me, src, cs, path) == w {
        if w.Some? { WinnerStays(me, src, front, x, path, w.value); }
      } else {
        WinnerChanges(me, src, front, x, path);
      }
    }
  }

  lemma WinnerStays(me: Machine, src: Os, front: seq<Rule>, x: Rule, path: string, c: Rule)
    requires Leads(me, src, front, path, c) && (Hits(me, src, x, path) ==> Weight(c) >= Weight(x))
    ensures Leads(me, src, front + [x], path, c)
  {
    hide Hits, Weight, Before;
    forall d | d in front + [x] && d != c && Hits(me, src, d, path) ensures Before(front + [x], c, d) {
      BeforeLonger(front, x, c, d);
    }
  }

  lemma WinnerChanges(me: Machine, src: Os, front: seq<Rule>, x: Rule, path: string)
    requires Hits(me, src, x, path)
    requires var w := Winner(me, src, front, path);
      match w
      case Some(c) => Leads(me, src, front, path, c) && Weight(c) < Weight(x)
      case None => forall d :: d in front ==> !Hits(me, src, d, path)
    ensures Leads(me, src, front + [x], path, x)
  {
    hide Hits, Winner, At;
    var w := Winner(me, src, front, path);
    forall d | d in front + [x] && d != x && Hits(me, src, d, path) ensures Before(front + [x], x, d) {
      assert d in front;
      if w.Some? && d != w.value { assert Before(front, w.value, d); }
    }
  }

  /** No two rules go before one another. */
  lemma BeforeOneWay(cs: seq<Rule>, c: Rule, d: Rule)
    requires Before(cs, c, d)
    ensures !Before(cs, d, c)
  {
  }

  /** The row used, exactly: it holds the path and goes before every other row that does. */
  lemma ChosenExactly(me: Machine, src: Os, dst: Os, path: string, rows: seq<Row>, c: Rule)
    ensures Chosen(me, src, dst, path, rows) == Some(c) <==> Leads(me, src, Rules(rows, src, dst), path, c)
  {
    hide Hits, Before, Rules, Sort, FirstHit, Winner;
    var cs := Rules(rows, src, dst);
    SortedWinner(me, src, cs, path);
    WinnerLeads(me, src, cs, path);
    if Leads(me, src, cs, path, c) {
      var w := Winner(me, src, cs, path);
      if w.Some? && w.value != c {
        BeforeOneWay(cs, c, w.value);
      }
    }
  }
}
