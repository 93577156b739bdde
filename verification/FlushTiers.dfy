/**
 * What tier an entry waits at and leaves with, over every run of edits, deletions and ticks
 * (qcbridge/ring1/dirtyset.py: the one-way ratchet).
 */
module FlushTiers {
  import opened Wire
  import opened Wrappers
  import opened DirtySets
  import opened FlushTicks
  import opened FlushRuns

  /** The entry waits, as a blob if `blob` is asked after. */
  predicate Waits(d: Dirty, u: Uuid, blob: bool) {
    Has(d, u, T2) || (!blob && Has(d, u, T1))
  }

  /** An edit of `u`, or a refused re-assert of it, with no tombstone standing; a structural one, if
      `blob` is asked after. */
  predicate Asks(w: World, a: Act, u: Uuid, blob: bool) {
    && !Has(w.k.d, u, Tomb)
    && match a
       case Edit(x, tier, _) => x == u && (blob ==> tier != T1)
       case Reassert(x, tomb) => x == u && !tomb && !blob
       case _ => false
  }

  /** `u` is deleted, its refused tombstone comes back, or its delta or blob leaves. */
  predicate Clears(w: World, a: Act, u: Uuid) {
    match a
    case Gone(x) => x == u
    case Reassert(x, tomb) => x == u && tomb
    case Flushing(b) =>
      var left := Tick(w.k, b.now, b.paused, b.refused).1;
      Entry(u, T1) in left || Entry(u, T2) in left
    case _ => false
  }

  lemma TickWaits(k: Desk, b: Beat, u: Uuid, blob: bool)
    requires Keyed(k.d)
    ensures var (n, left) := Tick(k, b.now, b.paused, b.refused);
      && (Waits(n.d, u, blob) <==> Waits(k.d, u, blob) && Entry(u, T1) !in left && Entry(u, T2) !in left)
      && (Entry(u, T2) in left ==> Has(k.d, u, T2)) && (Entry(u, T1) in left ==> Has(k.d, u, T1))
  {
    hide Keyed, Due;
    if !Idle(k, b.paused) {
      PausedOnlyIdles(k, b);
      hide Tick;
      if u !in k.d.marks {
        TickNone(k, b.now, b.refused, u);
      } else {
        OneMark(k, b.now, b.refused, u);
        if k.d.marks[u] == Tomb {
          TickTomb(k, b.now, b.refused, u);
        } else {
          TickDirty(k, b.now, b.refused, u, k.d.marks[u]);
        }
      }
    }
  }

  /** One act, exactly. */
  lemma ActWaits(w: World, a: Act, u: Uuid, blob: bool)
    requires Keyed(w.k.d)
    ensures Waits(Acted(w, a).k.d, u, blob) <==> Asks(w, a, u, blob) || (Waits(w.k.d, u, blob) && !Clears(w, a, u))
  {
    hide Keyed;
    if a.Flushing? {
      TickWaits(w.k, a.beat, u, blob);
      hide Tick;
    }
  }

  /** Act `i` asked for it, and nothing has deleted or sent `u` since. */
  ghost predicate AskedSince(acts: seq<Act>, u: Uuid, blob: bool, i: nat) {
    && i < |acts| && Asks(Lived(Fresh(), acts[..i]), acts[i], u, blob)
    && forall j :: i < j < |acts| ==> !Clears(Lived(Fresh(), acts[..j]), acts[j], u)
  }

  lemma AskedSnoc(acts: seq<Act>, u: Uuid, blob: bool, i: nat)
    requires acts != [] && i < |acts|
    ensures var front, a := acts[..|acts| - 1], acts[|acts| - 1];
      AskedSince(acts, u, blob, i) <==>
        if i == |front| then Asks(Lived(Fresh(), front), a, u, blob)
        else AskedSince(front, u, blob, i) && !Clears(Lived(Fresh(), front), a, u)
  {
    hide Asks, Clears, Lived;
    var front := acts[..|acts| - 1];
    assert forall j :: 0 <= j < |front| ==> front[..j] == acts[..j] && front[j] == acts[j];
    assert acts[..|front|] == front;
  }

  lemma AskedInside(acts: seq<Act>, u: Uuid, blob: bool, i: nat)
    requires AskedSince(acts, u, blob, i)
    ensures i < |acts|
  {
  }

  /** Over every run: `u` waits iff some edit asked for it, with no tombstone standing, and it has neither
      left nor been deleted since; and it waits as a blob iff one of those edits was structural. */
  lemma {:induction false} TierOverRuns(acts: seq<Act>, u: Uuid, blob: bool)
    ensures Waits(Lived(Fresh(), acts).k.d, u, blob) <==> exists i: nat :: AskedSince(acts, u, blob, i)
  {
    hide Acted, Asks, Clears, Honest, Waits, AskedSince;
    if acts == [] {
      NothingAsked(u, blob);
    } else {
      var front, a, n := acts[..|acts| - 1], acts[|acts| - 1], |acts| - 1;
      TierOverRuns(front, u, blob);
      DeletionsHonest(front);
      HonestKeyed(Lived(Fresh(), front));
      ActWaits(Lived(Fresh(), front), a, u, blob);
      AskedSnoc(acts, u, blob, n);
      if i: nat :| AskedSince(front, u, blob, i) {
        AskedInside(front, u, blob, i);
        AskedSnoc(acts, u, blob, i);
      }
      if i: nat :| AskedSince(acts, u, blob, i) {
        AskedInside(acts, u, blob, i);
        AskedSnoc(acts, u, blob, i);
      }
    }
  }

  lemma NothingAsked(u: Uuid, blob: bool)
    ensures !Waits(Lived(Fresh(), []).k.d, u, blob) && forall i: nat :: !AskedSince([], u, blob, i)
  {
  }

  /** What a tick sends of `u` was asked for since it last left, and it is the blob iff a structural
      edit was among what asked: no later property edit lowers it. */
  lemma LeavesAsAsked(acts: seq<Act>, b: Beat, u: Uuid, tier: Mark)
    requires tier != Tomb && Entry(u, tier) in Tick(Lived(Fresh(), acts).k, b.now, b.paused, b.refused).1
    ensures exists i: nat :: AskedSince(acts, u, false, i)
    ensures tier == T2 <==> exists i: nat :: AskedSince(acts, u, true, i)
  {
    hide Tick, AskedSince, Honest, Keyed;
    DeletionsHonest(acts);
    HonestKeyed(Lived(Fresh(), acts));
    TickWaits(Lived(Fresh(), acts).k, b, u, false);
    TierOverRuns(acts, u, false);
    TierOverRuns(acts, u, true);
  }

  // ----------------------------------------------------------- order ----

  ghost predicate Before(us: seq<Uuid>, u: Uuid, v: Uuid) {
    exists a, b :: 0 <= a < b < |us| && us[a] == u && us[b] == v
  }

  /** The entries name members of `us`, in its order. */
  ghost predicate Lined(es: seq<Entry>, us: seq<Uuid>) {
    && (forall i :: 0 <= i < |es| ==> es[i].uuid in us)
    && forall i, j :: 0 <= i < j < |es| ==> Before(us, es[i].uuid, es[j].uuid)
  }

  lemma LinedSnoc(es: seq<Entry>, us: seq<Uuid>, u: Uuid, m: Mark)
    requires Lined(es, us)
    ensures Lined(es, us + [u]) && Lined(es + [Entry(u, m)], us + [u])
  {
    var vs := us + [u];
    assert vs[|us|] == u && forall a :: 0 <= a < |us| ==> vs[a] == us[a];
    forall i, j | 0 <= i < j < |es| ensures Before(vs, es[i].uuid, es[j].uuid) {
      assert Before(us, es[i].uuid, es[j].uuid);
    }
    forall i | 0 <= i < |es| ensures Before(vs, es[i].uuid, u) {
      var a :| 0 <= a < |us| && us[a] == es[i].uuid;
      assert vs[a] == es[i].uuid;
    }
  }

  lemma {:induction false} TombsLined(d: Dirty, us: seq<Uuid>, refused: set<Uuid>)
    ensures Lined(SentTombs(Tombs(d, us), refused), us)
    ensures forall e :: e in SentTombs(Tombs(d, us), refused) ==> e.mark == Tomb
  {
    if us != [] {
      hide Lined;
      var front, u := us[..|us| - 1], us[|us| - 1];
      TombsLined(d, front, refused);
      LinedSnoc(SentTombs(Tombs(d, front), refused), front, u, Tomb);
      assert us == front + [u];
      var ts := Tombs(d, front);
      assert (ts + [u])[..|ts|] == ts;
    }
  }

  lemma {:induction false} DirtiesLined(w: Work, d: Dirty, us: seq<Uuid>, ready: set<Uuid>, now: real, refused: set<Uuid>)
    requires w.left == []
    ensures Lined(FlushAll(w, Dirties(d, us), ready, now, refused).left, us)
    ensures forall e :: e in FlushAll(w, Dirties(d, us), ready, now, refused).left ==> e.mark != Tomb
  {
    if us != [] {
      hide Lined, Marked;
      var front, u := us[..|us| - 1], us[|us| - 1];
      var es := Dirties(d, front);
      var left := FlushAll(w, es, ready, now, refused).left;
      DirtiesLined(w, d, front, ready, now, refused);
      LinedSnoc(left, front, u, if u in d.marks then d.marks[u] else Tomb);
      assert us == front + [u];
      if u in d.marks { assert (es + [Entry(u, d.marks[u])])[..|es|] == es; }
    }
  }

  /** `e` goes first: a tombstone before what is none, and otherwise in the order the set was filled. */
  ghost predicate GoesBefore(d: Dirty, e: Entry, f: Entry) {
    if e.mark == Tomb && f.mark != Tomb then true
    else (e.mark == Tomb <==> f.mark == Tomb) && Before(d.order, e.uuid, f.uuid)
  }

  /** A tick sends every tombstone before every edit, and each of the two in the order their keys came. */
  lemma LeavesInOrder(k: Desk, now: real, paused: bool, refused: set<Uuid>)
    ensures var left := Tick(k, now, paused, refused).1;
      forall i, j :: 0 <= i < j < |left| ==> GoesBefore(k.d, left[i], left[j])
  {
    if !Idle(k, paused) {
      var o := Opening(k, now, refused);
      var ts := SentTombs(Tombs(k.d, k.d.order), refused);
      var ls := FlushAll(o, Dirties(k.d, k.d.order), Due(k.touched, now), now, refused).left;
      TombsLined(k.d, k.d.order, refused);
      DirtiesLined(o, k.d, k.d.order, Due(k.touched, now), now, refused);
      hide FlushAll, Before, Due, Dirties, Tombs, SentTombs;
      assert Tick(k, now, paused, refused).1 == ts + ls;
      forall i, j | 0 <= i < j < |ts + ls| ensures GoesBefore(k.d, (ts + ls)[i], (ts + ls)[j]) {
        if j < |ts| {
          assert ts[i] in ts && ts[j] in ts;
        } else if i < |ts| {
          assert ts[i] in ts && ls[j - |ts|] in ls;
        } else {
          assert ls[i - |ts|] in ls && ls[j - |ts|] in ls;
        }
      }
    }
  }
}
