/**
 * Which hole a replica reports on each lane, over every run: bootstraps, repair ends of both lanes,
 * batches and releases included (qcbridge/ring0/replica_apply.py: _end_resync, _apply_one;
 * qcbridge/ring1/merge.py: clear_fast_gap, clear_cold_gap, gap_lane).
 */
module LaneHoles {
  import opened Wrappers
  import opened Wire
  import opened SeqTracking
  import opened LaneMerge
  import opened ReplicaApply
  import opened TwoLanes

  function TrackOf(r: Replica, fast: bool): Track {
    if fast then r.m.fast else r.m.cold
  }

  /** The number of a message of that lane. */
  function NumberOf(e: Event, fast: bool): Option<int> {
    match e
    case Fast(m) => if fast then m.sn else None
    case Cold(sn, _) => if fast then None else Some(sn)
    case Batch(_) => None
  }

  predicate Boots(ps: seq<Pending>) {
    exists i :: 0 <= i < |ps| && ps[i].boot
  }

  predicate Ends(ms: seq<Message>) {
    exists i :: 0 <= i < |ms| && ms[i].body.ResyncEnd?
  }

  /** What ends a hole: a bootstrap is applied; or, on its own lane, a repair's end takes effect. */
  predicate Closes(r: Replica, e: Event, fast: bool)
    requires Enabled(r, e)
  {
    || (e.Batch? && Boots(r.pending[..e.k]))
    || (if fast then Ends(FastsIn(ActsOf(r, e))) else e.Cold? && e.kind.Immediate? && e.kind.resyncEnd)
  }

  /** The lane goes on with a number beyond the next one. */
  predicate Skips(r: Replica, e: Event, fast: bool) {
    && NumberOf(e, fast).Some? && TrackOf(r, fast).lastSeen.Some?
    && NumberOf(e, fast).value > TrackOf(r, fast).lastSeen.value + 1
  }

  // ------------------------------------------------------- one step ----

  lemma EndsSnoc(ms: seq<Message>, m: Message)
    ensures Ends(ms + [m]) <==> Ends(ms) || m.body.ResyncEnd?
  {
    var all := ms + [m];
    assert all[|ms|] == m;
    if Ends(ms) { var i :| 0 <= i < |ms| && ms[i].body.ResyncEnd?; assert all[i].body.ResyncEnd?; }
  }

  function After(t: Track, closed: bool): Track {
    if closed then Cleared(t) else t
  }

  lemma DispatchLanes(r: Replica, m: Message)
    ensures var n := Dispatched(r, m);
      n.m.cold == r.m.cold && n.m.fast == After(r.m.fast, m.body.ResyncEnd?)
  {
    hide FastDone, Outruns;
    FastDoneFrame(r.m, m.sn);
    FastDoneFrame(FastGapCleared(r.m), m.sn);
  }

  lemma {:induction false} ReleaseLanes(r: Replica, due: seq<Message>)
    ensures var n := ReleasedAll(r, due);
      n.m.cold == r.m.cold && n.m.fast == After(r.m.fast, Ends(due))
  {
    hide Dispatched, Ends;
    if due == [] {
      NoEnds();
    } else {
      var front, m := due[..|due| - 1], due[|due| - 1];
      ReleaseLanes(r, front);
      DispatchLanes(ReleasedAll(r, front), m);
      EndsSnoc(front, m);
      assert due == front + [m];
    }
  }

  lemma NoEnds()
    ensures !Ends([])
  {
  }

  lemma BootsSnoc(ps: seq<Pending>, k: nat)
    requires k < |ps|
    ensures Boots(ps[..k + 1]) <==> Boots(ps[..k]) || ps[k].boot
  {
    var a, b := ps[..k], ps[..k + 1];
    assert forall i :: 0 <= i < k ==> a[i] == b[i];
    if Boots(a) { var i :| 0 <= i < |a| && a[i].boot; assert b[i].boot; }
    if ps[k].boot { assert b[k].boot; }
  }

  lemma {:induction false} BatchLanes(r: Replica, k: nat)
    requires k <= |r.pending|
    ensures var n := AppliedSome(r, k).0;
      && n.m.cold == After(r.m.cold, Boots(r.pending[..k])) && n.m.fast == After(r.m.fast, Boots(r.pending[..k]))
  {
    hide Kept, Due, Boots;
    if k == 0 {
      NoBoots0(r.pending);
    } else {
      BatchLanes(r, k - 1);
      var q := AppliedSome(r, k - 1).0;
      assert q.pending[0] == r.pending[k - 1];
      BootsSnoc(r.pending, k - 1);
    }
  }

  lemma NoBoots0(ps: seq<Pending>)
    ensures !Boots(ps[..0])
  {
  }

  /** One step, exactly: a number of the lane is observed, and then what closes a hole closes it. */
  lemma StepLane(r: Replica, e: Event, fast: bool)
    requires Enabled(r, e)
    ensures var t, x := TrackOf(r, fast), NumberOf(e, fast);
      TrackOf(Step(r, e), fast) == After(if x.Some? then Observed(t, x.value) else t, Closes(r, e, fast))
  {
    hide FastDone, Outruns, ReleasedAll, Kept, Due, AppliedSome, Dispatched, Observed, Ends, Boots;
    match e {
      case Fast(m) => FastLane1(r, m, fast);
      case Cold(sn, kind) => ColdLane1(r, sn, kind, fast);
      case Batch(k) =>
        BatchLanes(r, k);
        var (q, due) := AppliedSome(r, k);
        ReleaseLanes(q, due);
        BatchActs(r, k);
    }
  }

  lemma BatchActs(r: Replica, k: nat)
    requires Enabled(r, Batch(k))
    ensures FastsIn(ActsOf(r, Batch(k))) == AppliedSome(r, k).1
  {
    hide AppliedSome, FastsIn, Fasts, Blobs;
    var due := AppliedSome(r, k).1;
    InBlobs(r.pending[..k]);
    InFasts(due);
    InAppend(Blobs(r.pending[..k]), Fasts(due));
    assert [] + due == due;
  }

  lemma FastLane1(r: Replica, m: Message, fast: bool)
    requires Enabled(r, Fast(m))
    ensures var t, x := TrackOf(r, fast), NumberOf(Fast(m), fast);
      TrackOf(FastIn(r, m), fast) == After(if x.Some? then Observed(t, x.value) else t, Closes(r, Fast(m), fast))
  {
    hide FastDone, Outruns, Dispatched, Observed;
    var o := ObservedOn(r.m, m);
    var r1 := r.(m := Parked(o, m), arrived := r.arrived + [m]);
    DispatchLanes(r1, m);
    if Admissible(o, m) {
      assert FastsIn([DidFast(m)]) == [] + [m] by { assert [DidFast(m)][..0] == []; }
      EndsSnoc([], m);
      assert [] + [m] == [m];
    } else {
      EmptyLog();
    }
  }

  lemma ColdLane1(r: Replica, sn: int, kind: ColdKind, fast: bool)
    requires Enabled(r, Cold(sn, kind))
    ensures var t, x := TrackOf(r, fast), NumberOf(Cold(sn, kind), fast);
      TrackOf(ColdIn(r, sn, kind), fast) == After(if x.Some? then Observed(t, x.value) else t, Closes(r, Cold(sn, kind), fast))
  {
    hide ReleasedAll, Kept, Due, Observed, Ends;
    ColdInSplit(r, sn, kind);
    if kind.Immediate? || kind.BlobPart? {
      var r2 := Taken(r, sn, kind.Immediate? && kind.resyncEnd);
      ReleaseLanes(DoneWith(r2, sn), Released(r2.m, Some(sn)));
      InFasts(Released(r.m, Some(sn)));
    } else {
      EmptyLog();
      NoEnds();
    }
  }

  // ------------------------------------------------------------ runs ----

  lemma {:induction false} FrontOf(r: Replica, es: seq<Event>, i: nat)
    requires Legal(r, es) && i < |es|
    ensures Legal(r, es[..i]) && Enabled(Run(r, es[..i]), es[i])
  {
    hide Enabled, Step;
    var front := es[..|es| - 1];
    if i < |front| {
      FrontOf(r, front, i);
      assert front[..i] == es[..i];
    }
  }

  ghost predicate SkipsAt(r: Replica, es: seq<Event>, fast: bool, i: nat)
    requires Legal(r, es) && i < |es|
  {
    FrontOf(r, es, i);
    Skips(Run(r, es[..i]), es[i], fast)
  }

  ghost predicate ClosesAt(r: Replica, es: seq<Event>, fast: bool, i: nat)
    requires Legal(r, es) && i < |es|
  {
    FrontOf(r, es, i);
    Closes(Run(r, es[..i]), es[i], fast)
  }

  /** The number the lane should have gone on with at step `i`. */
  ghost function NextAt(r: Replica, es: seq<Event>, fast: bool, i: nat): Option<int>
    requires Legal(r, es) && i < |es|
  {
    FrontOf(r, es, i);
    match TrackOf(Run(r, es[..i]), fast).lastSeen case Some(x) => Some(x + 1) case None => None
  }

  /** Step `i` skipped a number, and nothing has closed the hole from then on. */
  ghost predicate OpenSince(r: Replica, es: seq<Event>, fast: bool, i: nat)
    requires Legal(r, es)
  {
    i < |es| && SkipsAt(r, es, fast, i) && forall j: nat :: i <= j < |es| ==> !ClosesAt(r, es, fast, j)
  }

  ghost predicate FirstOpen(r: Replica, es: seq<Event>, fast: bool, i: nat)
    requires Legal(r, es)
  {
    OpenSince(r, es, fast, i) && forall j: nat :: j < i ==> !OpenSince(r, es, fast, j)
  }

  lemma SameAt(r: Replica, es: seq<Event>, fast: bool, i: nat)
    requires Legal(r, es) && i < |es| - 1
    ensures var front := es[..|es| - 1];
      && Legal(r, front)
      && SkipsAt(r, es, fast, i) == SkipsAt(r, front, fast, i) && ClosesAt(r, es, fast, i) == ClosesAt(r, front, fast, i)
      && NextAt(r, es, fast, i) == NextAt(r, front, fast, i)
  {
    FrontOf(r, es, |es| - 1);
    assert es[..|es| - 1][..i] == es[..i];
    hide Legal, Run, Enabled, Skips, Closes;
  }

  lemma OpenSnoc(r: Replica, es: seq<Event>, fast: bool, i: nat)
    requires Legal(r, es) && i < |es|
    ensures var front, n := es[..|es| - 1], |es| - 1;
      && Legal(r, front)
      && (OpenSince(r, es, fast, i) <==>
            !ClosesAt(r, es, fast, n) && if i == n then SkipsAt(r, es, fast, n) else OpenSince(r, front, fast, i))
  {
    hide Legal, Run, Enabled, SkipsAt, ClosesAt;
    var front, n := es[..|es| - 1], |es| - 1;
    FrontOf(r, es, n);
    if i < n {
      SameAt(r, es, fast, i);
      forall j: nat | i <= j < n ensures ClosesAt(r, es, fast, j) == ClosesAt(r, front, fast, j) { SameAt(r, es, fast, j); }
    }
  }

  lemma OpenInside(r: Replica, es: seq<Event>, fast: bool, i: nat)
    requires Legal(r, es) && OpenSince(r, es, fast, i)
    ensures i < |es|
  {
  }

  lemma LaneStep(r: Replica, es: seq<Event>, fast: bool)
    requires Legal(r, es) && es != [] && TrackOf(Run(r, es[..|es| - 1]), fast).lastSeen.Some?
    ensures var n := |es| - 1; var t, u := TrackOf(Run(r, es[..n]), fast), TrackOf(Run(r, es), fast);
      && u.lastSeen.Some?
      && u.firstMissing == (if ClosesAt(r, es, fast, n) then None
                            else if t.firstMissing.Some? then t.firstMissing
                            else if SkipsAt(r, es, fast, n) then NextAt(r, es, fast, n) else None)
      && NextAt(r, es, fast, n).Some?
  {
    hide Step, Enabled, Closes;
    FrontOf(r, es, |es| - 1);
    StepLane(Run(r, es[..|es| - 1]), es[|es| - 1], fast);
  }

  /** Over every run and on either lane: there is a hole iff some step skipped a number and neither a
      bootstrap nor, on that lane, a repair's end has closed it since; and the hole is the number the
      first such step skipped. */
  lemma {:induction false} HoleExact(coldBase: int, fastBase: int, es: seq<Event>, fast: bool)
    requires Legal(Start(coldBase, fastBase), es)
    ensures var s, t := Start(coldBase, fastBase), TrackOf(Run(Start(coldBase, fastBase), es), fast);
      && t.lastSeen.Some?
      && (t.firstMissing.None? <==> forall i: nat :: !OpenSince(s, es, fast, i))
      && (t.firstMissing.Some? ==> exists i: nat :: i < |es| && FirstOpen(s, es, fast, i) && NextAt(s, es, fast, i) == t.firstMissing)
  {
    hide Run, Legal, Enabled, SkipsAt, ClosesAt, NextAt, OpenSince, FirstOpen;
    var s := Start(coldBase, fastBase);
    if es == [] {
      NothingOpen(coldBase, fastBase, fast);
    } else {
      var front, n := es[..|es| - 1], |es| - 1;
      FrontOf(s, es, n);
      HoleExact(coldBase, fastBase, front, fast);
      LaneStep(s, es, fast);
      OpenSnoc(s, es, fast, n);
      var t := TrackOf(Run(s, front), fast);
      if ClosesAt(s, es, fast, n) {
        forall i: nat ensures !OpenSince(s, es, fast, i) { OpenLast(s, es, fast, i); }
      } else if t.firstMissing.Some? {
        var i: nat :| i < |front| && FirstOpen(s, front, fast, i) && NextAt(s, front, fast, i) == t.firstMissing;
        FirstKept(s, es, fast, i);
      } else {
        forall i: nat ensures OpenSince(s, es, fast, i) <==> i == n && SkipsAt(s, es, fast, n) { OpenLast(s, es, fast, i); }
        if SkipsAt(s, es, fast, n) { FirstNow(s, es, fast); }
      }
    }
  }

  lemma NothingOpen(coldBase: int, fastBase: int, fast: bool)
    ensures var s := Start(coldBase, fastBase);
      && Legal(s, []) && TrackOf(Run(s, []), fast).lastSeen.Some? && TrackOf(Run(s, []), fast).firstMissing.None?
      && forall i: nat :: !OpenSince(s, [], fast, i)
  {
  }

  lemma OpenLast(s: Replica, es: seq<Event>, fast: bool, i: nat)
    requires Legal(s, es) && es != []
    ensures Legal(s, es[..|es| - 1])
    ensures OpenSince(s, es, fast, i) <==>
      !ClosesAt(s, es, fast, |es| - 1)
      && ((i == |es| - 1 && SkipsAt(s, es, fast, |es| - 1)) || OpenSince(s, es[..|es| - 1], fast, i))
  {
    hide Run, Legal, Enabled, SkipsAt, ClosesAt;
    FrontOf(s, es, |es| - 1);
    if i < |es| { OpenSnoc(s, es, fast, i); }
  }

  lemma FirstKept(s: Replica, es: seq<Event>, fast: bool, i: nat)
    requires Legal(s, es) && es != [] && !ClosesAt(s, es, fast, |es| - 1)
    requires Legal(s, es[..|es| - 1]) && FirstOpen(s, es[..|es| - 1], fast, i)
    ensures i < |es| && FirstOpen(s, es, fast, i) && OpenSince(s, es, fast, i)
    ensures NextAt(s, es, fast, i) == NextAt(s, es[..|es| - 1], fast, i)
  {
    hide Run, Legal, Enabled, SkipsAt, ClosesAt, NextAt, OpenSince;
    var front := es[..|es| - 1];
    OpenInside(s, front, fast, i);
    SameAt(s, es, fast, i);
    OpenLast(s, es, fast, i);
    forall j: nat | j < i ensures !OpenSince(s, es, fast, j) { OpenLast(s, es, fast, j); }
  }

  lemma FirstNow(s: Replica, es: seq<Event>, fast: bool)
    requires Legal(s, es) && es != [] && OpenSince(s, es, fast, |es| - 1)
    requires forall j: nat :: OpenSince(s, es, fast, j) ==> j == |es| - 1
    ensures FirstOpen(s, es, fast, |es| - 1)
  {
    hide Run, Legal, Enabled, SkipsAt, ClosesAt, OpenSince;
  }

  // ------------------------------------------------- what it comes to ----

  /** The lanes a pong names are those with a hole. */
  lemma PongNamesHoles(coldBase: int, fastBase: int, es: seq<Event>)
    requires Legal(Start(coldBase, fastBase), es)
    ensures var s := Start(coldBase, fastBase); var cold, fast := exists i: nat :: OpenSince(s, es, false, i),
                                                                exists i: nat :: OpenSince(s, es, true, i);
      GapOf(Run(s, es).m) == if cold && fast then BothGap else if cold then ColdGap else if fast then FastGap else NoGap
  {
    hide Run, Legal, OpenSince, FirstOpen, NextAt;
    HoleExact(coldBase, fastBase, es, false);
    HoleExact(coldBase, fastBase, es, true);
  }

  /** From a bootstrap's application on, neither lane has a hole until it skips a number again. */
  lemma BootClosesBoth(coldBase: int, fastBase: int, es: seq<Event>, b: nat, fast: bool)
    requires Legal(Start(coldBase, fastBase), es) && b < |es| && es[b].Batch?
    requires Legal(Start(coldBase, fastBase), es[..b]) && Enabled(Run(Start(coldBase, fastBase), es[..b]), es[b])
    requires Boots(Run(Start(coldBase, fastBase), es[..b]).pending[..es[b].k])
    requires forall i: nat :: b < i < |es| ==> !SkipsAt(Start(coldBase, fastBase), es, fast, i)
    ensures TrackOf(Run(Start(coldBase, fastBase), es), fast).firstMissing == None
  {
    var s := Start(coldBase, fastBase);
    assert ClosesAt(s, es, fast, b);
    hide Run, Legal, Enabled, SkipsAt, ClosesAt, NextAt, FirstOpen;
    HoleExact(coldBase, fastBase, es, fast);
    assert !SkipsAt(s, es, fast, b) by { BatchSkipsNothing(s, es, fast, b); }
  }

  lemma BatchSkipsNothing(s: Replica, es: seq<Event>, fast: bool, b: nat)
    requires Legal(s, es) && b < |es| && es[b].Batch?
    ensures !SkipsAt(s, es, fast, b)
  {
    hide Run, Legal, Enabled;
  }

  /** The same for the cold lane and a cold repair's end. */
  lemma ColdEndShutsHole(coldBase: int, fastBase: int, es: seq<Event>, b: nat)
    requires Legal(Start(coldBase, fastBase), es) && b < |es| && es[b].Cold?
    requires es[b].kind == Immediate(true)
    requires forall i: nat :: b < i < |es| ==> !SkipsAt(Start(coldBase, fastBase), es, false, i)
    ensures Run(Start(coldBase, fastBase), es).m.cold.firstMissing == None
  {
    var s := Start(coldBase, fastBase);
    FrontOf(s, es, b);
    assert ClosesAt(s, es, false, b);
    hide Run, Legal, Enabled, SkipsAt, ClosesAt, NextAt, FirstOpen;
    HoleExact(coldBase, fastBase, es, false);
  }

  // ------------------------------------------------------- the batch ----

  /** At most a full batch waits, and a bootstrap waits alone. */
  predicate WaitsWell(ps: seq<Pending>) {
    |ps| <= BATCH_MAX && (Boots(ps) ==> |ps| == 1)
  }

  lemma StepWaits(r: Replica, e: Event)
    requires Enabled(r, e) && WaitsWell(r.pending)
    ensures WaitsWell(Step(r, e).pending)
  {
    match e
    case Fast(msg) =>
    case Cold(sn, kind) =>
      hide Released, Observed, ColdDone, CoversOf;
      forall q: Replica, due ensures ReleasedAll(q, due).pending == q.pending { ReleaseFrame(q, due); }
      hide ReleasedAll;
    case Batch(k) =>
      StepBatch(r, k);
      hide BatchApplied, Step;
  }

  lemma StepBatch(r: Replica, k: nat)
    requires Enabled(r, Batch(k))
    ensures Step(r, Batch(k)).pending == r.pending[k..]
  {
    var (r1, due) := AppliedSome(r, k);
    ReleaseFrame(r1, due);
  }

  /** Over every run at most a full batch waits and a bootstrap waits alone, so any number of the waiting
      blobs may be the next batch. */
  lemma {:induction false} AnyBatchMayApply(coldBase: int, fastBase: int, es: seq<Event>, k: nat)
    requires Legal(Start(coldBase, fastBase), es)
    ensures var r := Run(Start(coldBase, fastBase), es);
      WaitsWell(r.pending) && (1 <= k <= |r.pending| ==> Enabled(r, Batch(k)))
  {
    hide Step;
    if es != [] {
      AnyBatchMayApply(coldBase, fastBase, es[..|es| - 1], k);
      StepWaits(Run(Start(coldBase, fastBase), es[..|es| - 1]), es[|es| - 1]);
    }
  }
}
