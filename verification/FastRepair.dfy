/**
 * Fast-lane repair (qcbridge/ring0/host_handlers.py: resend_fast_window, _drain_fast_resend,
 * _send_t1_full; qcbridge/ring0/replica_apply.py: _apply_t1, _apply_tombstone, _end_resync).
 * Messages are lost; a hole is reported; the host re-asserts every datablock its log names
 * from the hole on. Both ends are maps from datablock to tier-1 registers.
 */
module FastRepair {
  import opened Wrappers
  import opened SeqTracking
  import opened Wire
  import opened FastLogs

  predicate Agree(a: Scene, b: Scene, u: Uuid) {
    (u in a <==> u in b) && (u in a ==> a[u] == b[u])
  }

  /** The replica may lack deletions and values, never a datablock, and it has no path of its own. */
  ghost predicate Holds(host: Scene, rep: Scene) {
    forall u :: u in host ==> u in rep && rep[u].Keys <= host[u].Keys
  }

  // ------------------------------------------------------ the re-assert ----

  /** One entry of the re-assert reaches the replica: a tombstone, or every tracked path of
      the host's shadow (a datablock the host no longer has becomes a tombstone). */
  function Reasserted(host: Scene, rep: Scene, u: Uuid, kind: Kind): Scene {
    if kind == Tomb || u !in host then rep - {u}
    else if u in rep then rep[u := rep[u] + host[u]]
    else rep
  }

  function ReassertedAll(host: Scene, rep: Scene, items: seq<(Uuid, Kind)>): Scene {
    if items == [] then rep
    else
      var x := items[|items| - 1];
      Reasserted(host, ReassertedAll(host, rep, items[..|items| - 1]), x.0, x.1)
  }

  /** No datablock the window calls deleted lives on the host. */
  ghost predicate NoneRevived(host: Scene, items: seq<(Uuid, Kind)>) {
    forall i :: 0 <= i < |items| && items[i].1 == Tomb ==> items[i].0 !in host
  }

  ghost predicate OnceEach(items: seq<(Uuid, Kind)>) {
    forall i, j :: 0 <= i < j < |items| ==> items[i].0 != items[j].0
  }

  predicate NamedIn(items: seq<(Uuid, Kind)>, u: Uuid) {
    exists i :: 0 <= i < |items| && items[i].0 == u
  }

  lemma NamedFront(items: seq<(Uuid, Kind)>, u: Uuid)
    requires items != []
    ensures NamedIn(items, u) <==> items[|items| - 1].0 == u || NamedIn(items[..|items| - 1], u)
  {
    var front := items[..|items| - 1];
    if NamedIn(front, u) {
      var i :| 0 <= i < |front| && front[i].0 == u;
      assert items[i].0 == u;
    }
    if NamedIn(items, u) && items[|items| - 1].0 != u {
      var i :| 0 <= i < |items| && items[i].0 == u;
      assert front[i].0 == u;
    }
  }

  /** Where each datablock stands after the re-assert. */
  lemma {:induction false} AfterReassert(host: Scene, rep: Scene, items: seq<(Uuid, Kind)>)
    requires OnceEach(items) && Holds(host, rep)
    ensures var n := ReassertedAll(host, rep, items);
      && (forall u :: !NamedIn(items, u) ==> Agree(n, rep, u))
      && (forall i :: 0 <= i < |items| ==>
            if items[i].1 == Tomb then items[i].0 !in n else Agree(n, host, items[i].0))
  {
    if items != [] {
      var front, x := items[..|items| - 1], items[|items| - 1];
      AfterReassert(host, rep, front);
      var before, n := ReassertedAll(host, rep, front), ReassertedAll(host, rep, items);
      assert !NamedIn(front, x.0);
      if x.1 == T1 && x.0 in host {
        assert x.0 in rep && Agree(before, rep, x.0);
        WholeSnapshotWins(before[x.0], host[x.0]);
      }
      forall u | !NamedIn(items, u) ensures Agree(n, rep, u) {
        NamedFront(items, u);
        assert Agree(before, rep, u);
      }
      forall i | 0 <= i < |items|
        ensures if items[i].1 == Tomb then items[i].0 !in n else Agree(n, host, items[i].0)
      {
        if i < |front| { assert front[i] == items[i]; }
      }
    }
  }

  lemma WholeSnapshotWins(was: Registers, now: Registers)
    requires was.Keys <= now.Keys
    ensures was + now == now
  {
  }

  /** The re-assert makes the replica equal to the host iff no datablock whose last fast
      message was a tombstone has come back. */
  lemma ReassertExact(host: Scene, rep: Scene, items: seq<(Uuid, Kind)>)
    requires OnceEach(items) && Holds(host, rep)
    requires forall u :: !NamedIn(items, u) ==> Agree(host, rep, u)
    ensures ReassertedAll(host, rep, items) == host <==> NoneRevived(host, items)
  {
    AfterReassert(host, rep, items);
    var n := ReassertedAll(host, rep, items);
    if NoneRevived(host, items) {
      forall u ensures Agree(n, host, u) {
        if i :| 0 <= i < |items| && items[i].0 == u {
        } else {
          assert !NamedIn(items, u);
        }
      }
      SameScene(n, host);
    } else {
      var i :| 0 <= i < |items| && items[i].1 == Tomb && items[i].0 in host;
      assert items[i].0 !in n;
    }
  }

  lemma SameScene(a: Scene, b: Scene)
    requires forall u :: Agree(a, b, u)
    ensures a == b
  {
    assert forall u :: u in a <==> u in b by {
      forall u ensures u in a <==> u in b { assert Agree(a, b, u); }
    }
    assert forall u :: u in a ==> a[u] == b[u] by {
      forall u | u in a ensures a[u] == b[u] { assert Agree(a, b, u); }
    }
  }

  lemma WindowItems(w: Window)
    requires Ok(w)
    ensures OnceEach(Items(w))
    ensures forall u :: NamedIn(Items(w), u) <==> u in w.kinds
  {
    forall u ensures NamedIn(Items(w), u) <==> u in w.kinds {
      if u in w.kinds {
        var i :| 0 <= i < |w.keys| && w.keys[i] == u;
        assert Items(w)[i].0 == u;
      }
    }
  }

  /** The re-assert of a window of the log, against the log itself: it makes the replica equal to the
      host iff no datablock whose last message since the hole was a tombstone lives on the host. */
  lemma WindowReassertExact(host: Scene, rep: Scene, entries: seq<Entry>, g: int)
    requires Holds(host, rep)
    requires forall u :: LastKind(entries, g, u) == None ==> Agree(host, rep, u)
    ensures Ok(WindowOf(entries, g))
    ensures ReassertedAll(host, rep, Items(WindowOf(entries, g))) == host <==>
      forall u :: LastKind(entries, g, u) == Some(Tomb) ==> u !in host
  {
    hide LastKind, WindowOf, ReassertedAll, Agree, Holds;
    WindowMeans(entries, g);
    var w := WindowOf(entries, g);
    WindowItems(w);
    ReassertExact(host, rep, Items(w));
    if forall u :: LastKind(entries, g, u) == Some(Tomb) ==> u !in host {
      forall i | 0 <= i < |Items(w)| && Items(w)[i].1 == Tomb ensures Items(w)[i].0 !in host {
        assert w.keys[i] in w.kinds;
      }
    } else {
      var u :| LastKind(entries, g, u) == Some(Tomb) && u in host;
      var i :| 0 <= i < |w.keys| && w.keys[i] == u;
      assert Items(w)[i] == (u, Tomb);
    }
  }

  /** The hole the tracker reports: everything from the baseline up to it arrived. */
  lemma HoleIsFirstLoss(base: int, ops: seq<Op>, lost: set<int>, g: int)
    requires Increasing(base, ops) && (forall i :: 0 <= i < |ops| ==> ops[i].Saw?)
    requires After(Track(Some(base), 0, None), ops).firstMissing == Some(g)
    requires lost !! Seen(ops) && forall x :: x in lost ==> x > base
    ensures forall x :: x in lost ==> x >= g
  {
    FirstMissingExact(base, ops);
    NeverRepaired(base, ops);
  }

  lemma {:induction false} NeverRepaired(base: int, ops: seq<Op>)
    requires forall i :: 0 <= i < |ops| ==> ops[i].Saw?
    ensures Settled(base, ops) == base
  {
    if ops != [] { NeverRepaired(base, ops[..|ops| - 1]); }
  }

  /** Only some of the re-assert's entries arrive, then the resync_end does. The hole is cleared all
      the same, and the replica equals the host iff every datablock whose entry was lost had
      nothing to repair. */
  lemma LossInsideReassertIsSilent(host: Scene, rep: Scene, items: seq<(Uuid, Kind)>, some: seq<(Uuid, Kind)>,
                                   t: Track, ops: seq<Op>)
    requires OnceEach(some) && Holds(host, rep) && NoneRevived(host, some)
    requires forall x :: x in some ==> x in items
    requires forall u :: !NamedIn(items, u) ==> Agree(host, rep, u)
    ensures After(t, ops + [Repaired]).firstMissing == None
    ensures ReassertedAll(host, rep, some) == host <==>
      forall u :: NamedIn(items, u) && !NamedIn(some, u) ==> Agree(host, rep, u)
  {
    assert (ops + [Repaired])[..|ops|] == ops;
    AfterReassert(host, rep, some);
    var n := ReassertedAll(host, rep, some);
    if forall u :: NamedIn(items, u) && !NamedIn(some, u) ==> Agree(host, rep, u) {
      forall u ensures Agree(n, host, u) {
        if i :| 0 <= i < |some| && some[i].0 == u {
        } else {
          assert !NamedIn(some, u) && Agree(host, rep, u);
        }
      }
      SameScene(n, host);
    } else {
      var u :| NamedIn(items, u) && !NamedIn(some, u) && !Agree(host, rep, u);
      assert Agree(n, rep, u);
    }
  }
}
