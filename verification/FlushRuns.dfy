/**
 * Runs of the flush tick: how fast a backlog leaves, and that deletions are never forgotten.
 */
module FlushRuns {
  import opened Wire
  import opened Wrappers
  import opened DirtySets
  import opened FlushTicks

  // ------------------------------------------- a backlog drains on time ----

  /** No deletions, and every entry has been left alone for the window. */
  ghost predicate AllReady(k: Desk, now: real) {
    forall u :: u in k.d.marks ==> k.d.marks[u] != Tomb && u in Due(k.touched, now)
  }

  function T2s(d: Dirty): set<Uuid> {
    set u | u in d.marks && d.marks[u] == T2
  }

  function Less(n: nat, m: nat): nat {
    if n <= m then 0 else n - m
  }

  /** With everything ready and accepted, blobs beyond the budget are all that stays. */
  lemma {:induction false} FlushKeeps(w: Work, es: seq<Entry>, ready: set<Uuid>, now: real)
    requires forall i, j :: 0 <= i < j < |es| ==> es[i].uuid != es[j].uuid
    requires forall e :: e in es ==> e.uuid !in w.d.marks && e.uuid in ready
    requires w.d.marks == map[]
    ensures |T2s(FlushAll(w, es, ready, now, {}).d)| == Less(Spent(es, ready), w.budget)
  {
    if es == [] {
      assert T2s(w.d) == {};
    } else {
      var front, e := es[..|es| - 1], es[|es| - 1];
      assert forall f :: f in front ==> f in es;
      FlushKeeps(w, front, ready, now);
      BudgetLeft(w, front, ready, now, {});
      NotBefore(es, |es| - 1);
      FlushElsewhere(w, front, ready, now, {}, e.uuid);
      assert e in es;
      T2sStep(FlushAll(w, front, ready, now, {}), e, ready, now);
    }
  }

  lemma T2sStep(f: Work, e: Entry, ready: set<Uuid>, now: real)
    requires e.uuid in ready && e.uuid !in f.d.marks
    ensures |T2s(FlushOne(f, e, ready, now, {}).d)| == |T2s(f.d)| + if e.mark == T2 && f.budget == 0 then 1 else 0
  {
    var n := FlushOne(f, e, ready, now, {});
    if e.mark == T2 && f.budget == 0 {
      assert T2s(n.d) == T2s(f.d) + {e.uuid};
    } else {
      assert T2s(n.d) == T2s(f.d);
    }
  }

  function T2sAmong(d: Dirty, us: seq<Uuid>): set<Uuid> {
    set u | u in us && Has(d, u, T2)
  }

  lemma {:induction false} SpentCounts(d: Dirty, us: seq<Uuid>, ready: set<Uuid>)
    requires Distinct(us) && forall u :: u in us && Has(d, u, T2) ==> u in ready
    ensures Spent(Dirties(d, us), ready) == |T2sAmong(d, us)|
  {
    if us == [] {
    } else {
      var front, u := us[..|us| - 1], us[|us| - 1];
      assert us == front + [u];
      DistinctSnoc(front, u);
      SpentCounts(d, front, ready);
      DirtiesSnoc(d, front, u);
      SpentSnoc(Dirties(d, front), Entry(u, if u in d.marks then d.marks[u] else Tomb), ready);
      AmongSnoc(d, front, u);
    }
  }

  lemma AmongSnoc(d: Dirty, us: seq<Uuid>, u: Uuid)
    requires u !in us
    ensures |T2sAmong(d, us + [u])| == |T2sAmong(d, us)| + if Has(d, u, T2) then 1 else 0
  {
    if Has(d, u, T2) {
      assert T2sAmong(d, us + [u]) == T2sAmong(d, us) + {u};
    } else {
      assert T2sAmong(d, us + [u]) == T2sAmong(d, us);
    }
  }

  lemma SpentSnoc(es: seq<Entry>, e: Entry, ready: set<Uuid>)
    ensures Spent(es + [e], ready) == Spent(es, ready) + if e.uuid in ready && e.mark == T2 then 1 else 0
  {
    assert (es + [e])[..|es|] == es;
  }

  /** One tick on a backlog that is ready: every property delta and up to two blobs leave. */
  lemma TickDrains(k: Desk, now: real)
    requires Keyed(k.d) && AllReady(k, now)
    ensures var n := Tick(k, now, false, {}).0;
      && |T2s(n.d)| == Less(|T2s(k.d)|, T2_PER_TICK)
      && forall u :: u in n.d.marks ==> n.d.marks[u] == T2
  {
    hide FlushAll, FlushTombs, Tombs, Dirties, Spent, Due;
    var es, ts, ready := Dirties(k.d, k.d.order), Tombs(k.d, k.d.order), Due(k.touched, now);
    assert ts != [] ==> ts[0] in ts;
    DrainLists(k.d, k.d.order);
    if Idle(k, false) {
      assert T2s(k.d) == {};
    } else {
      NoTombs(Drained(k.d), {});
      FlushKeeps(Opening(k, now, {}), es, ready, now);
      SpentCounts(k.d, k.d.order, ready);
      assert T2sAmong(k.d, k.d.order) == T2s(k.d);
    }
    forall u | u in Tick(k, now, false, {}).0.d.marks ensures Tick(k, now, false, {}).0.d.marks[u] == T2 {
      StaysOnlyT2(k, now, u);
    }
  }

  lemma NoTombs(d: Dirty, refused: set<Uuid>)
    ensures FlushTombs(d, [], refused) == d
  {
  }

  /** What stays of a ready backlog was a blob, and is touched back as ready. */
  lemma StaysOnlyT2(k: Desk, now: real, u: Uuid)
    requires Keyed(k.d) && AllReady(k, now)
    ensures var (n, left) := Tick(k, now, false, {});
      u in n.d.marks ==> n.d.marks[u] == T2 && u in n.touched && n.touched[u] == now - WINDOW && Has(k.d, u, T2)
  {
    hide Tick, Due;
    if u !in k.d.marks {
      TickNone(k, now, {}, u);
    } else {
      TickDirty(k, now, {}, u, k.d.marks[u]);
      KeptIsTouchedBack(k, now, u);
    }
  }

  lemma KeptIsTouchedBack(k: Desk, now: real, u: Uuid)
    requires Keyed(k.d) && u in k.d.marks && k.d.marks[u] != Tomb && u in Due(k.touched, now)
    ensures var n := Tick(k, now, false, {}).0;
      u in n.d.marks ==> u in n.touched && n.touched[u] == now - WINDOW
  {
    hide FlushAll, FlushTombs, SentTombs, Tombs, Dirties, Due;
    var es, ts, ready := Dirties(k.d, k.d.order), Tombs(k.d, k.d.order), Due(k.touched, now);
    DrainLists(k.d, k.d.order);
    FlushTombsAt(Drained(k.d), ts, {}, u);
    assert Entry(u, k.d.marks[u]) in es;
    var i :| 0 <= i < |es| && es[i] == Entry(u, k.d.marks[u]);
    FlushFate(Opening(k, now, {}), es, i, ready, now, {});
  }

  /** Ticks that nothing refuses, in time order, none before `from`. */
  ghost predicate Smooth(bs: seq<Beat>, from: real) {
    && (forall i :: 0 <= i < |bs| ==> !bs[i].paused && bs[i].refused == {} && bs[i].now >= from)
    && forall i, j :: 0 <= i < j < |bs| ==> bs[i].now <= bs[j].now
  }

  /** The state a drain passes through: tick `i` finds everything ready, and only blobs are left
      once it has run. */
  ghost predicate Draining(k: Desk, n: Desk, ticks: nat, now: real) {
    && Keyed(n.d) && AllReady(n, now) && |T2s(n.d)| == Less(|T2s(k.d)|, T2_PER_TICK * ticks)
    && (ticks > 0 ==> forall u :: u in n.d.marks ==> n.d.marks[u] == T2)
  }

  /** A backlog that is ready, with nothing refused and no new edits: all property deltas leave on
      the first tick and two blobs on each, so `n` blobs take ceil(n/2) ticks. */
  lemma {:induction false} BacklogDrains(k: Desk, bs: seq<Beat>, from: real, until: real)
    requires Keyed(k.d) && AllReady(k, from) && Smooth(bs, from)
    requires until >= from && forall i :: 0 <= i < |bs| ==> bs[i].now <= until
    ensures Draining(k, Ticks(k, bs).0, |bs|, until)
  {
    hide Tick, Due, Keyed, T2s;
    if bs == [] {
      LaterReady(k, from, until);
    } else {
      var front, b := bs[..|bs| - 1], bs[|bs| - 1];
      assert forall i :: 0 <= i < |front| ==> front[i] == bs[i];
      BacklogDrains(k, front, from, b.now);
      var n := Ticks(k, front).0;
      TickKeyed(n, b);
      TickDrains(n, b.now);
      var m := Tick(n, b.now, false, {}).0;
      forall u | u in m.d.marks ensures m.d.marks[u] != Tomb && u in Due(m.touched, until) {
        StaysOnlyT2(n, b.now, u);
        DueTouched(m.touched, until, u);
      }
    }
  }

  lemma LaterReady(k: Desk, from: real, until: real)
    requires AllReady(k, from) && until >= from
    ensures AllReady(k, until)
  {
  }

  /** Nothing is dropped or lowered on the way: every entry is still there as it was, or has left
      as it was. */
  lemma {:induction false} NothingDropped(k: Desk, bs: seq<Beat>, u: Uuid)
    requires Keyed(k.d) && Waiting(k, u)
    ensures var (n, left) := Ticks(k, bs);
      && Keyed(n.d) && (Has(n.d, u, k.d.marks[u]) || Entry(u, k.d.marks[u]) in left)
      && (u in n.d.marks ==> Has(n.d, u, k.d.marks[u]))
  {
    hide Tick, Keyed, Due;
    if bs == [] {
    } else {
      var front, b := bs[..|bs| - 1], bs[|bs| - 1];
      NothingDropped(k, front, u);
      var n := Ticks(k, front).0;
      TickKeyed(n, b);
      TickConserves(n, b, u, k.d.marks[u]);
    }
  }

  lemma TickConserves(n: Desk, b: Beat, u: Uuid, m: Mark)
    requires Keyed(n.d) && m != Tomb && (u in n.d.marks ==> Has(n.d, u, m))
    ensures var (o, left) := Tick(n, b.now, b.paused, b.refused);
      && (Has(n.d, u, m) ==> Has(o.d, u, m) || Entry(u, m) in left)
      && (u in o.d.marks ==> Has(o.d, u, m))
  {
    hide Keyed, Due;
    if !Idle(n, b.paused) {
      PausedOnlyIdles(n, b);
      if Has(n.d, u, m) { TickDirty(n, b.now, b.refused, u, m); } else { TickNone(n, b.now, b.refused, u); }
    }
  }

  /** After ceil(n/2) ticks nothing is left to send, and every entry has left with its own tier. */
  lemma BacklogGone(k: Desk, bs: seq<Beat>, from: real, until: real)
    requires Keyed(k.d) && AllReady(k, from) && Smooth(bs, from)
    requires until >= from && forall i :: 0 <= i < |bs| ==> bs[i].now <= until
    requires bs != [] && |T2s(k.d)| <= T2_PER_TICK * |bs|
    ensures var (n, left) := Ticks(k, bs);
      n.d.marks == map[] && forall u :: u in k.d.marks ==> Entry(u, k.d.marks[u]) in left
  {
    hide Ticks;
    BacklogDrains(k, bs, from, until);
    var (n, left) := Ticks(k, bs);
    assert T2s(n.d) == {};
    assert forall u :: u in n.d.marks ==> u in T2s(n.d);
    forall u | u in k.d.marks ensures Entry(u, k.d.marks[u]) in left {
      NothingDropped(k, bs, u);
    }
  }

  // ------------------------------------------ deletions are not forgotten ----

  /** What the host does to its dirty set. */
  datatype Act =
    | Edit(uuid: Uuid, tier: Mark, at: real)
    | Gone(uuid: Uuid)
    | Known(uuid: Uuid)
    | Flushing(beat: Beat)
    | Reassert(uuid: Uuid, tomb: bool)  // an entry of a re-assert that the transport refuses

  /** The desk, the uuids the peer may still hold, those it may ever have heard of, and what left. */
  datatype World = World(k: Desk, held: set<Uuid>, heard: set<Uuid>, left: seq<Entry>)

  function Fresh(): World {
    World(Desk(Dirty(map[], [], {}), map[]), {}, {}, [])
  }

  function Uuids(es: seq<Entry>, tombs: bool): set<Uuid> {
    set e | e in es && (e.mark == Tomb) == tombs :: e.uuid
  }

  function Acted(w: World, a: Act): World {
    match a
    case Edit(u, tier, at) =>
      w.(k := Desk(Marked(w.k.d, u, if tier == Tomb then T2 else tier), w.k.touched[u := at]))
    case Gone(u) => w.(k := Desk(Deleted(w.k.d, u), w.k.touched - {u}))
    case Known(u) => w.(k := w.k.(d := Assumed(w.k.d, u)), held := w.held + {u}, heard := w.heard + {u})
    case Reassert(u, tomb) =>
      // Only what the peer was sent is ever re-asserted.
      w.(k := w.k.(d := if tomb then RequeuedTomb(w.k.d, u) else Marked(w.k.d, u, T1)), heard := w.heard + {u})
    case Flushing(b) =>
      var (n, left) := Tick(w.k, b.now, b.paused, b.refused);
      World(n, (w.held - Uuids(left, true)) + Uuids(left, false),
            if Idle(w.k, b.paused) then w.heard else w.heard + w.k.d.marks.Keys, w.left + left)
  }

  function Lived(w: World, acts: seq<Act>): World {
    if acts == [] then w else Acted(Lived(w, acts[..|acts| - 1]), acts[|acts| - 1])
  }

  /** Everything the peer may hold is known; every pending tombstone is known; everything known
      has been assumed or drained. */
  ghost predicate Honest(w: World) {
    && Keyed(w.k.d)
    && w.held <= w.k.d.known
    && (forall u :: Has(w.k.d, u, Tomb) ==> u in w.k.d.known)
    && w.k.d.known <= w.heard
  }

  lemma FlushHonest(w: World, b: Beat)
    requires Honest(w)
    ensures Honest(Acted(w, Flushing(b)))
  {
    hide Keyed;
    var n := Acted(w, Flushing(b));
    TickKeyed(w.k, b);
    if !Idle(w.k, b.paused) {
      PausedOnlyIdles(w.k, b);
      hide Tick;
      var left := Tick(w.k, b.now, b.paused, b.refused).1;
      forall u ensures u in n.held ==> u in n.k.d.known
               ensures Has(n.k.d, u, Tomb) ==> u in n.k.d.known
               ensures u in n.k.d.known ==> u in n.heard
      {
        FlushHonestAt(w, b, u);
      }
    }
  }

  lemma FlushHonestAt(w: World, b: Beat, u: Uuid)
    requires Honest(w) && !Idle(w.k, b.paused) && Tick(w.k, b.now, b.paused, b.refused) == Tick(w.k, b.now, false, b.refused)
    ensures var n := Acted(w, Flushing(b));
      && (u in n.held ==> u in n.k.d.known)
      && (Has(n.k.d, u, Tomb) ==> u in n.k.d.known)
      && (u in n.k.d.known ==> u in n.heard)
  {
    hide Tick, Keyed;
    var left := Tick(w.k, b.now, b.paused, b.refused).1;
    if u !in w.k.d.marks {
      TickNone(w.k, b.now, b.refused, u);
    } else {
      OneMark(w.k, b.now, b.refused, u);
      if w.k.d.marks[u] == Tomb {
        TickTomb(w.k, b.now, b.refused, u);
      } else {
        TickDirty(w.k, b.now, b.refused, u, w.k.d.marks[u]);
      }
    }
  }

  lemma RequeuedKeyed(d: Dirty, u: Uuid)
    requires Keyed(d)
    ensures Keyed(RequeuedTomb(d, u))
  {
    KeyedKept(d, u, Tomb);
  }

  lemma ActHonest(w: World, a: Act)
    requires Honest(w)
    ensures Honest(Acted(w, a))
  {
    match a {
      case Edit(u, tier, at) =>
        hide Keyed;
        MarkedKeyed(w.k.d, u, if tier == Tomb then T2 else tier);
      case Gone(u) =>
        hide Keyed;
        KeyedKept(w.k.d, u, Tomb);
      case Known(u) =>
      case Reassert(u, tomb) =>
        hide Keyed;
        if tomb { RequeuedKeyed(w.k.d, u); } else { MarkedKeyed(w.k.d, u, T1); }
      case Flushing(b) => FlushHonest(w, b);
    }
  }

  /** Over any run of edits, deletions, seedings and ticks with any refusals: everything the peer
      may still hold is in the peer-may-know set at every tick boundary, and a tombstone exists
      only for a uuid that was assumed known or drained. */
  lemma {:induction false} DeletionsHonest(acts: seq<Act>)
    ensures Honest(Lived(Fresh(), acts))
  {
    hide Honest, Acted;
    if acts == [] {
      FreshHonest();
    } else {
      DeletionsHonest(acts[..|acts| - 1]);
      ActHonest(Lived(Fresh(), acts[..|acts| - 1]), acts[|acts| - 1]);
    }
  }

  lemma FreshHonest()
    ensures Honest(Fresh())
  {
  }

  /** A datablock the peer may hold is never deleted silently. */
  lemma DeletionLeavesTombstone(acts: seq<Act>, u: Uuid)
    ensures var w := Lived(Fresh(), acts);
      && (u in w.held ==> Has(Acted(w, Gone(u)).k.d, u, Tomb))
      && (u !in w.heard ==> u !in Acted(w, Gone(u)).k.d.marks)
  {
    DeletionsHonest(acts);
  }

  /** A tombstone stays pending, whatever is edited, deleted or refused, until the transport
      accepts it. */
  lemma {:induction false} TombstoneKept(w: World, acts: seq<Act>, u: Uuid)
    requires Honest(w) && Has(w.k.d, u, Tomb)
    ensures var n := Lived(w, acts);
      && Honest(n) && w.left <= n.left
      && (Has(n.k.d, u, Tomb) || Entry(u, Tomb) in n.left[|w.left|..])
  {
    hide Honest, Acted;
    if acts == [] {
    } else {
      var front, a := acts[..|acts| - 1], acts[|acts| - 1];
      TombstoneKept(w, front, u);
      var m := Lived(w, front);
      ActHonest(m, a);
      TombstoneStep(m, a, u);
    }
  }

  lemma TombstoneStep(m: World, a: Act, u: Uuid)
    requires Honest(m)
    ensures var n := Acted(m, a);
      && m.left <= n.left
      && (Has(m.k.d, u, Tomb) ==> Has(n.k.d, u, Tomb) || Entry(u, Tomb) in n.left[|m.left|..])
  {
    hide Keyed;
    if a.Flushing? {
      var b := a.beat;
      if Has(m.k.d, u, Tomb) && !Idle(m.k, b.paused) {
        PausedOnlyIdles(m.k, b);
        TickTomb(m.k, b.now, b.refused, u);
        hide Tick;
        assert Acted(m, a).left[|m.left|..] == Tick(m.k, b.now, b.paused, b.refused).1;
      }
    }
  }

  // ---------------------------------------------- what strands an entry ----

  /** An edit, a deletion or a refused tombstone of `u`: what ends a stranding. */
  predicate Frees(a: Act, u: Uuid) {
    match a
    case Edit(x, _, _) => x == u
    case Gone(x) => x == u
    case Reassert(x, tomb) => x == u && tomb
    case _ => false
  }

  /** A delta that was due and is refused, or a refused re-assert of a datablock that no debounce
      entry and no tombstone stands for. */
  ghost predicate Strands(w: World, a: Act, u: Uuid) {
    match a
    case Flushing(b) => !b.paused && Has(w.k.d, u, T1) && u in Due(w.k.touched, b.now) && u in b.refused
    case Reassert(x, tomb) => x == u && !tomb && u !in w.k.touched && !Has(w.k.d, u, Tomb)
    case _ => false
  }

  /** One act, exactly. */
  lemma StrandedByAct(w: World, a: Act, u: Uuid)
    requires Keyed(w.k.d)
    ensures Stranded(Acted(w, a).k, u) <==> Strands(w, a, u) || (Stranded(w.k, u) && !Frees(a, u))
  {
    hide Keyed, Due;
    match a {
      case Flushing(b) =>
        if Idle(w.k, b.paused) {
          IdleStrands(w.k, b, u);
        } else {
          PausedOnlyIdles(w.k, b);
          StrandedExactly(w.k, b.now, b.refused, u);
          hide Tick;
        }
      case Edit(x, tier, at) =>
      case Gone(x) =>
      case Known(x) =>
      case Reassert(x, tomb) =>
    }
  }

  lemma IdleStrands(k: Desk, b: Beat, u: Uuid)
    requires Idle(k, b.paused)
    ensures b.paused || u !in k.d.marks
  {
  }

  /** Act `i` stranded `u`, and nothing has edited or deleted it since. */
  ghost predicate StrandedSince(acts: seq<Act>, u: Uuid, i: nat) {
    && i < |acts| && Strands(Lived(Fresh(), acts[..i]), acts[i], u)
    && forall j :: i < j < |acts| ==> !Frees(acts[j], u)
  }

  lemma SinceSnoc(acts: seq<Act>, u: Uuid, i: nat)
    requires acts != [] && i < |acts|
    ensures var front, a := acts[..|acts| - 1], acts[|acts| - 1];
      StrandedSince(acts, u, i) <==>
        if i == |front| then Strands(Lived(Fresh(), front), a, u) else StrandedSince(front, u, i) && !Frees(a, u)
  {
    hide Strands, Frees, Lived;
    var front := acts[..|acts| - 1];
    if i < |front| {
      assert front[..i] == acts[..i];
      assert forall j :: 0 <= j < |front| ==> front[j] == acts[j];
      if StrandedSince(front, u, i) && !Frees(acts[|acts| - 1], u) {
        forall j | i < j < |acts| ensures !Frees(acts[j], u) { assert j < |front| ==> acts[j] == front[j]; }
      }
    }
  }

  /** Over every run: an entry waits with no debounce entry, never to be sent, iff something
      stranded it and nothing has edited or deleted it since. */
  lemma {:induction false} StrandedOverRuns(acts: seq<Act>, u: Uuid)
    ensures Stranded(Lived(Fresh(), acts).k, u) <==> exists i: nat :: StrandedSince(acts, u, i)
  {
    hide Acted, Strands, Frees, Honest, Stranded, StrandedSince;
    if acts == [] {
      NothingStranded(u);
    } else {
      var front, a := acts[..|acts| - 1], acts[|acts| - 1];
      StrandedOverRuns(front, u);
      DeletionsHonest(front);
      HonestKeyed(Lived(Fresh(), front));
      StrandedByAct(Lived(Fresh(), front), a, u);
      SinceSnoc(acts, u, |front|);
      if i: nat :| StrandedSince(front, u, i) {
        SinceInside(front, u, i);
        SinceSnoc(acts, u, i);
      }
      if i: nat :| StrandedSince(acts, u, i) {
        SinceInside(acts, u, i);
        SinceSnoc(acts, u, i);
      }
    }
  }

  lemma SinceInside(acts: seq<Act>, u: Uuid, i: nat)
    requires StrandedSince(acts, u, i)
    ensures i < |acts|
  {
  }

  lemma HonestKeyed(w: World)
    requires Honest(w)
    ensures Keyed(w.k.d)
  {
  }

  lemma NothingStranded(u: Uuid)
    ensures !Stranded(Lived(Fresh(), []).k, u) && forall i: nat :: !StrandedSince([], u, i)
  {
  }
}
