/**
 * The flush half of the host's tick: debounce, drain, per-tick blob budget, and what a refused
 * send puts back (qcbridge/ring0/host_handlers.py: _flush_tick_inner and the send sites).
 */
module FlushTicks {
  import opened Wire
  import opened Wrappers
  import opened DirtySets

  /** `_T2_PER_TICK`. */
  const T2_PER_TICK: nat := 2

  datatype Desk = Desk(d: Dirty, touched: map<Uuid, real>)

  /** The tick's loop part-way: `left` is what was handed over for good. */
  datatype Work = Work(d: Dirty, touched: map<Uuid, real>, budget: nat, left: seq<Entry>)

  /** The tombstone loop: a refused one goes back. */
  function FlushTombs(d: Dirty, ts: seq<Uuid>, refused: set<Uuid>): Dirty {
    if ts == [] then d
    else
      var front, u := FlushTombs(d, ts[..|ts| - 1], refused), ts[|ts| - 1];
      if u in refused then RequeuedTomb(front, u) else front
  }

  function SentTombs(ts: seq<Uuid>, refused: set<Uuid>): seq<Entry> {
    if ts == [] then []
    else
      var front, u := SentTombs(ts[..|ts| - 1], refused), ts[|ts| - 1];
      if u in refused then front else front + [Entry(u, Tomb)]
  }

  /** One turn of the flush loop. A blob always leaves (its chunks wait in their own queue); a
      delta may be refused. */
  function FlushOne(w: Work, e: Entry, ready: set<Uuid>, now: real, refused: set<Uuid>): Work {
    if e.uuid !in ready then w.(d := Marked(w.d, e.uuid, e.mark))
    else if e.mark == T2 then
      if w.budget == 0
      then w.(d := Marked(w.d, e.uuid, e.mark), touched := w.touched[e.uuid := now - WINDOW])
      else w.(budget := w.budget - 1, left := w.left + [e])
    else if e.uuid in refused then w.(d := Marked(w.d, e.uuid, T1))
    else w.(left := w.left + [e])
  }

  function FlushAll(w: Work, es: seq<Entry>, ready: set<Uuid>, now: real, refused: set<Uuid>): Work {
    if es == [] then w
    else FlushOne(FlushAll(w, es[..|es| - 1], ready, now, refused), es[|es| - 1], ready, now, refused)
  }

  function Idle(k: Desk, paused: bool): bool {
    paused || |k.d.marks| == 0
  }

  function Opening(k: Desk, now: real, refused: set<Uuid>): Work {
    Work(FlushTombs(Drained(k.d), Tombs(k.d, k.d.order), refused), k.touched - Due(k.touched, now), T2_PER_TICK, [])
  }

  function Flush(k: Desk, now: real, refused: set<Uuid>): Work {
    FlushAll(Opening(k, now, refused), Dirties(k.d, k.d.order), Due(k.touched, now), now, refused)
  }

  /** A tick, with the fast messages of `refused` not accepted: the desk after it, and what left. */
  function Tick(k: Desk, now: real, paused: bool, refused: set<Uuid>): (Desk, seq<Entry>) {
    if Idle(k, paused) then (k, [])
    else
      var w := Flush(k, now, refused);
      (Desk(w.d, w.touched), SentTombs(Tombs(k.d, k.d.order), refused) + w.left)
  }

  // ---------------------------------------------- one tick, per uuid ----

  lemma {:induction false} FlushTombsAt(d: Dirty, ts: seq<Uuid>, refused: set<Uuid>, u: Uuid)
    requires u !in d.marks
    ensures var n := FlushTombs(d, ts, refused);
      && (u in n.marks <==> u in ts && u in refused)
      && (u in n.marks ==> n.marks[u] == Tomb)
      && (u in n.known <==> u in d.known || (u in ts && u in refused))
      && (Entry(u, Tomb) in SentTombs(ts, refused) <==> u in ts && u !in refused)
  {
    if ts == [] {
    } else {
      var front, last := ts[..|ts| - 1], ts[|ts| - 1];
      assert ts == front + [last];
      FlushTombsAt(d, front, refused, u);
    }
  }

  lemma {:induction false} SentTombsAreTombs(ts: seq<Uuid>, refused: set<Uuid>, e: Entry)
    requires e in SentTombs(ts, refused)
    ensures e.mark == Tomb
  {
    if e in SentTombs(ts[..|ts| - 1], refused) {
      SentTombsAreTombs(ts[..|ts| - 1], refused, e);
    }
  }

  /** The ready blobs among `es`. */
  function Spent(es: seq<Entry>, ready: set<Uuid>): nat {
    if es == [] then 0
    else
      var e := es[|es| - 1];
      Spent(es[..|es| - 1], ready) + if e.uuid in ready && e.mark == T2 then 1 else 0
  }

  lemma {:induction false} BudgetLeft(w: Work, es: seq<Entry>, ready: set<Uuid>, now: real, refused: set<Uuid>)
    ensures FlushAll(w, es, ready, now, refused).budget
         == if Spent(es, ready) <= w.budget then w.budget - Spent(es, ready) else 0
  {
    if es == [] {
    } else {
      BudgetLeft(w, es[..|es| - 1], ready, now, refused);
    }
  }

  /** Nothing about `u` differs. */
  ghost predicate SameAt(w: Work, n: Work, u: Uuid) {
    && (u in n.d.marks <==> u in w.d.marks) && (u in w.d.marks ==> n.d.marks[u] == w.d.marks[u])
    && (u in n.touched <==> u in w.touched) && (u in w.touched ==> n.touched[u] == w.touched[u])
    && (u in n.d.known <==> u in w.d.known)
    && forall e: Entry :: e.uuid == u ==> (e in n.left <==> e in w.left)
  }

  predicate Mentions(es: seq<Entry>, u: Uuid) {
    exists e :: e in es && e.uuid == u
  }

  lemma FlushOneElsewhere(w: Work, e: Entry, ready: set<Uuid>, now: real, refused: set<Uuid>, u: Uuid)
    requires e.uuid != u
    ensures SameAt(w, FlushOne(w, e, ready, now, refused), u)
  {
  }

  lemma {:induction false} FlushElsewhere(w: Work, es: seq<Entry>, ready: set<Uuid>, now: real, refused: set<Uuid>, u: Uuid)
    requires !Mentions(es, u)
    ensures SameAt(w, FlushAll(w, es, ready, now, refused), u)
  {
    hide FlushOne;
    if es == [] {
    } else {
      var front, e := es[..|es| - 1], es[|es| - 1];
      assert e in es && forall f :: f in front ==> f in es;
      FlushElsewhere(w, front, ready, now, refused, u);
      FlushOneElsewhere(FlushAll(w, front, ready, now, refused), e, ready, now, refused, u);
    }
  }

  /** What became of a drained entry. `over`: the tick's blobs were already spent. */
  ghost predicate Fate(w: Work, n: Work, e: Entry, over: bool, ready: set<Uuid>, now: real, refused: set<Uuid>) {
    var u := e.uuid;
    && (u in n.d.known <==> u in w.d.known)
    && if u !in ready then
         Has(n.d, u, e.mark) && e !in n.left
         && (u in n.touched <==> u in w.touched) && (u in w.touched ==> n.touched[u] == w.touched[u])
       else if e.mark == T2 && over then
         Has(n.d, u, T2) && e !in n.left && u in n.touched && n.touched[u] == now - WINDOW
       else if e.mark != T2 && u in refused then
         Has(n.d, u, T1) && e !in n.left && u !in n.touched
       else u !in n.d.marks && e in n.left && u !in n.touched
  }

  lemma FateOf(w: Work, e: Entry, ready: set<Uuid>, now: real, refused: set<Uuid>)
    requires e.uuid !in w.d.marks && (e.uuid in ready ==> e.uuid !in w.touched) && e !in w.left
    ensures Fate(w, FlushOne(w, e, ready, now, refused), e, w.budget == 0, ready, now, refused)
  {
  }

  lemma {:induction false} FlushFate(w: Work, es: seq<Entry>, k: nat, ready: set<Uuid>, now: real, refused: set<Uuid>)
    requires k < |es| && forall i, j :: 0 <= i < j < |es| ==> es[i].uuid != es[j].uuid
    requires es[k].uuid !in w.d.marks && (es[k].uuid in ready ==> es[k].uuid !in w.touched) && w.left == []
    ensures Fate(w, FlushAll(w, es, ready, now, refused), es[k], Spent(es[..k], ready) >= w.budget, ready, now, refused)
  {
    hide FlushOne, Fate;
    var front, e := es[..|es| - 1], es[|es| - 1];
    var f := FlushAll(w, front, ready, now, refused);
    if k < |es| - 1 {
      FlushFate(w, front, k, ready, now, refused);
      assert front[..k] == es[..k] && front[k] == es[k];
      FlushOneElsewhere(f, e, ready, now, refused, es[k].uuid);
      FateStays(w, f, FlushOne(f, e, ready, now, refused), es[k], Spent(es[..k], ready) >= w.budget, ready, now, refused);
    } else {
      NotBefore(es, k);
      FlushElsewhere(w, front, ready, now, refused, e.uuid);
      BudgetLeft(w, front, ready, now, refused);
      FateOf(f, e, ready, now, refused);
      FateFrom(w, f, FlushOne(f, e, ready, now, refused), e, f.budget == 0, ready, now, refused);
    }
  }

  lemma NotBefore(es: seq<Entry>, k: nat)
    requires k < |es| && forall i, j :: 0 <= i < j < |es| ==> es[i].uuid != es[j].uuid
    ensures !Mentions(es[..k], es[k].uuid)
  {
  }

  lemma FateStays(w: Work, f: Work, n: Work, e: Entry, over: bool, ready: set<Uuid>, now: real, refused: set<Uuid>)
    requires Fate(w, f, e, over, ready, now, refused) && SameAt(f, n, e.uuid)
    ensures Fate(w, n, e, over, ready, now, refused)
  {
  }

  lemma FateFrom(w: Work, f: Work, n: Work, e: Entry, over: bool, ready: set<Uuid>, now: real, refused: set<Uuid>)
    requires Fate(f, n, e, over, ready, now, refused) && SameAt(w, f, e.uuid)
    ensures Fate(w, n, e, over, ready, now, refused)
  {
  }

  lemma {:induction false} LeftFrom(w: Work, es: seq<Entry>, ready: set<Uuid>, now: real, refused: set<Uuid>, e: Entry)
    requires e in FlushAll(w, es, ready, now, refused).left
    ensures e in w.left || e in es
  {
    if es != [] && e !in w.left {
      var front := es[..|es| - 1];
      if e in FlushAll(w, front, ready, now, refused).left { LeftFrom(w, front, ready, now, refused, e); }
    }
  }

  /** A drained tombstone goes back iff it was refused. */
  ghost predicate TombOutcome(n: Desk, left: seq<Entry>, u: Uuid, refused: set<Uuid>) {
    if u in refused
    then Has(n.d, u, Tomb) && u in n.d.known && Entry(u, Tomb) !in left
    else u !in n.d.marks && u !in n.d.known && Entry(u, Tomb) in left
  }

  lemma TickTomb(k: Desk, now: real, refused: set<Uuid>, u: Uuid)
    requires Keyed(k.d) && Has(k.d, u, Tomb)
    ensures var (n, left) := Tick(k, now, false, refused); TombOutcome(n, left, u, refused)
  {
    hide FlushAll, FlushTombs, SentTombs, Tombs, Dirties, Due;
    var es, ts, ready := Dirties(k.d, k.d.order), Tombs(k.d, k.d.order), Due(k.touched, now);
    var o := Opening(k, now, refused);
    DrainLists(k.d, k.d.order);
    FlushTombsAt(Drained(k.d), ts, refused, u);
    FlushElsewhere(o, es, ready, now, refused, u);
  }

  /** A drained entry that is not a tombstone is handed over or kept, never both, never lowered;
      and it keeps a debounce entry unless its delta was refused. */
  ghost predicate DirtyOutcome(k: Desk, n: Desk, left: seq<Entry>, u: Uuid, m: Mark, ready: set<Uuid>, refused: set<Uuid>) {
    && u in n.d.known
    && (Has(n.d, u, m) <==> Entry(u, m) !in left) && (u in n.d.marks <==> Entry(u, m) !in left)
    && (u !in ready ==> Has(n.d, u, m))
    && (u in n.d.marks ==> (u in n.touched <==> u in k.touched && !(u in ready && m == T1 && u in refused)))
    && (m == T1 && u in ready ==> (Has(n.d, u, m) <==> u in refused))
  }

  lemma TickDirty(k: Desk, now: real, refused: set<Uuid>, u: Uuid, m: Mark)
    requires Keyed(k.d) && Has(k.d, u, m) && m != Tomb
    ensures var (n, left) := Tick(k, now, false, refused);
      DirtyOutcome(k, n, left, u, m, Due(k.touched, now), refused)
  {
    hide FlushAll, FlushTombs, SentTombs, Tombs, Dirties, Due;
    var es, ts, ready := Dirties(k.d, k.d.order), Tombs(k.d, k.d.order), Due(k.touched, now);
    var o := Opening(k, now, refused);
    DrainLists(k.d, k.d.order);
    FlushTombsAt(Drained(k.d), ts, refused, u);
    assert Entry(u, m) in es;
    var i :| 0 <= i < |es| && es[i] == Entry(u, m);
    FlushFate(o, es, i, ready, now, refused);
    if Entry(u, m) in SentTombs(ts, refused) { SentTombsAreTombs(ts, refused, Entry(u, m)); }
    assert u in ready ==> u in k.touched by { DueTouched(k.touched, now, u); }
  }

  lemma DueTouched(touched: map<Uuid, real>, now: real, u: Uuid)
    ensures u in Due(touched, now) <==> u in touched && now - touched[u] >= WINDOW
  {
  }

  lemma TickNone(k: Desk, now: real, refused: set<Uuid>, u: Uuid)
    requires Keyed(k.d) && u !in k.d.marks
    ensures var (n, left) := Tick(k, now, false, refused);
      && u !in n.d.marks && (u in n.d.known <==> u in k.d.known) && !Mentions(left, u)
  {
    hide FlushAll, FlushTombs, SentTombs, Tombs, Dirties, Due;
    var es, ts, ready := Dirties(k.d, k.d.order), Tombs(k.d, k.d.order), Due(k.touched, now);
    var o := Opening(k, now, refused);
    DrainLists(k.d, k.d.order);
    if !Idle(k, false) {
      FlushTombsAt(Drained(k.d), ts, refused, u);
      FlushElsewhere(o, es, ready, now, refused, u);
      forall e | e in Tick(k, now, false, refused).1 ensures e.uuid != u {
        if e in SentTombs(ts, refused) {
          SentTombsAreTombs(ts, refused, e);
          FlushTombsAt(Drained(k.d), ts, refused, e.uuid);
        } else {
          LeftFrom(o, es, ready, now, refused, e);
        }
      }
    }
  }

  // -------------------------------------------------------- stranding ----

  predicate Waiting(k: Desk, u: Uuid) {
    u in k.d.marks && k.d.marks[u] != Tomb
  }

  /** Still to be sent, with nothing that will ever call it ready. */
  predicate Stranded(k: Desk, u: Uuid) {
    Waiting(k, u) && u !in k.touched
  }

  /** Exactly what strands an entry: it already was stranded, or its delta was due this tick and
      the transport refused it. */
  lemma StrandedExactly(k: Desk, now: real, refused: set<Uuid>, u: Uuid)
    requires Keyed(k.d)
    ensures Stranded(Tick(k, now, false, refused).0, u) <==>
      Stranded(k, u) || (Has(k.d, u, T1) && u in Due(k.touched, now) && u in refused)
  {
    hide Tick, Due;
    DueTouched(k.touched, now, u);
    if u !in k.d.marks {
      TickNone(k, now, refused, u);
    } else if k.d.marks[u] == Tomb {
      TickTomb(k, now, refused, u);
    } else {
      TickDirty(k, now, refused, u, k.d.marks[u]);
    }
  }

  /** One tick's circumstances. */
  datatype Beat = Beat(now: real, paused: bool, refused: set<Uuid>)

  function Ticks(k: Desk, bs: seq<Beat>): (Desk, seq<Entry>) {
    if bs == [] then (k, [])
    else
      var (n, left) := Ticks(k, bs[..|bs| - 1]);
      var b := bs[|bs| - 1];
      var (m, more) := Tick(n, b.now, b.paused, b.refused);
      (m, left + more)
  }

  lemma TickKeyed(k: Desk, b: Beat)
    requires Keyed(k.d)
    ensures Keyed(Tick(k, b.now, b.paused, b.refused).0.d)
  {
    if !Idle(k, b.paused) {
      hide Due, Dirties, Tombs, Keyed, FlushTombs, FlushAll;
      KeyedKept(k.d, "", Tomb);
      TombsKeyed(Drained(k.d), Tombs(k.d, k.d.order), b.refused);
      FlushKeyed(Opening(k, b.now, b.refused), Dirties(k.d, k.d.order), Due(k.touched, b.now), b.now, b.refused);
    }
  }

  lemma {:induction false} TombsKeyed(d: Dirty, ts: seq<Uuid>, refused: set<Uuid>)
    requires Keyed(d)
    ensures Keyed(FlushTombs(d, ts, refused))
  {
    if ts == [] {
    } else {
      var front := ts[..|ts| - 1];
      TombsKeyed(d, front, refused);
      KeyedKept(FlushTombs(d, front, refused), ts[|ts| - 1], Tomb);
    }
  }

  lemma MarkedKeyed(d: Dirty, u: Uuid, m: Mark)
    requires Keyed(d)
    ensures Keyed(Marked(d, u, m))
  {
    KeyedKept(d, u, m);
    KeyedKept(d, u, if u in d.marks then Higher(d.marks[u], m) else m);
  }

  lemma {:induction false} FlushKeyed(w: Work, es: seq<Entry>, ready: set<Uuid>, now: real, refused: set<Uuid>)
    requires Keyed(w.d)
    ensures Keyed(FlushAll(w, es, ready, now, refused).d)
  {
    hide Keyed, Marked;
    if es == [] {
    } else {
      var front, e := es[..|es| - 1], es[|es| - 1];
      FlushKeyed(w, front, ready, now, refused);
      MarkedKeyed(FlushAll(w, front, ready, now, refused).d, e.uuid, e.mark);
      MarkedKeyed(FlushAll(w, front, ready, now, refused).d, e.uuid, T1);
    }
  }

  /** A stranded entry stays where it is for as long as nothing touches it: no later tick, however
      late and whatever the transport accepts, sends it. */
  lemma {:induction false} StrandedForGood(k: Desk, bs: seq<Beat>, u: Uuid)
    requires Keyed(k.d) && Stranded(k, u)
    ensures var (n, left) := Ticks(k, bs); Keyed(n.d) && Stranded(n, u) && !Mentions(left, u)
  {
    hide Keyed, Tick, Due;
    if bs == [] {
    } else {
      var b, n := bs[|bs| - 1], Ticks(k, bs[..|bs| - 1]).0;
      StrandedForGood(k, bs[..|bs| - 1], u);
      TickKeyed(n, b);
      StrandedTick(n, b, u);
    }
  }

  lemma StrandedTick(k: Desk, b: Beat, u: Uuid)
    requires Keyed(k.d) && Stranded(k, u)
    ensures var (n, left) := Tick(k, b.now, b.paused, b.refused); Stranded(n, u) && !Mentions(left, u)
  {
    hide Keyed;
    if !Idle(k, b.paused) {
      PausedOnlyIdles(k, b);
      StrandedExactly(k, b.now, b.refused, u);
      TickDirty(k, b.now, b.refused, u, k.d.marks[u]);
      OneMark(k, b.now, b.refused, u);
    }
  }

  lemma PausedOnlyIdles(k: Desk, b: Beat)
    requires !Idle(k, b.paused)
    ensures Tick(k, b.now, b.paused, b.refused) == Tick(k, b.now, false, b.refused)
  {
  }

  /** What leaves about `u` is the entry it had. */
  lemma OneMark(k: Desk, now: real, refused: set<Uuid>, u: Uuid)
    requires Keyed(k.d) && u in k.d.marks
    ensures forall e :: e in Tick(k, now, false, refused).1 && e.uuid == u ==> e.mark == k.d.marks[u]
  {
    hide FlushAll, FlushTombs, SentTombs, Tombs, Dirties, Due;
    var es, ts := Dirties(k.d, k.d.order), Tombs(k.d, k.d.order);
    DrainLists(k.d, k.d.order);
    forall e | e in Tick(k, now, false, refused).1 && e.uuid == u ensures e.mark == k.d.marks[u] {
      if e in SentTombs(ts, refused) {
        SentTombsAreTombs(ts, refused, e);
        FlushTombsAt(Drained(k.d), ts, refused, e.uuid);
      } else {
        LeftFrom(Opening(k, now, refused), es, Due(k.touched, now), now, refused, e);
      }
    }
  }
}
