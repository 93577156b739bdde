/**
 * A repair ends with the hole cleared (qcbridge/ring0/replica_apply.py: _end_resync;
 * qcbridge/ring1/lanemerge.py: clear_fast_gap), over whole runs of both lanes.
 */
module HoleRuns {
  import opened Wrappers
  import opened Wire
  import opened SeqTracking
  import opened LaneMerge
  import opened ReplicaApply
  import opened ReplicaGate
  import opened TwoLanes
  import opened Convergence
  import opened RepairRuns

  // ------------------------------------- once the end has been applied ----

  /** Once `end` has been applied there is no hole. */
  predicate Shut(r: Replica, end: Message) {
    end in r.dispatched ==> r.m.fast.firstMissing == None
  }

  lemma DispatchShut(r: Replica, msg: Message, end: Message)
    requires Shut(r, end) && end.body.ResyncEnd?
    ensures Shut(Dispatched(r, msg), end)
  {
    hide FastDone, Outruns;
    FastDoneFrame(r.m, msg.sn);
    FastDoneFrame(FastGapCleared(r.m), msg.sn);
  }

  lemma {:induction false} ReleaseShut(r: Replica, due: seq<Message>, end: Message)
    requires Shut(r, end) && end.body.ResyncEnd?
    ensures Shut(ReleasedAll(r, due), end)
  {
    hide Shut, Dispatched;
    if due != [] {
      ReleaseShut(r, due[..|due| - 1], end);
      DispatchShut(ReleasedAll(r, due[..|due| - 1]), due[|due| - 1], end);
    }
  }

  /** No new hole, the same messages applied. */
  lemma ShutSame(r: Replica, n: Replica, end: Message)
    requires Shut(r, end) && n.dispatched == r.dispatched
    requires n.m.fast == r.m.fast || n.m.fast.firstMissing == None
    ensures Shut(n, end)
  {
  }

  lemma AppliedShut(r: Replica, end: Message)
    requires Shut(r, end) && r.pending != []
    ensures Shut(AppliedOne(r), end)
  {
    hide Kept;
  }

  lemma {:induction false} BatchShut(r: Replica, k: nat, end: Message)
    requires Shut(r, end) && k <= |r.pending|
    ensures Shut(AppliedSome(r, k).0, end)
  {
    hide Shut, Kept, Due;
    if k > 0 {
      BatchShut(r, k - 1, end);
      AppliedShut(AppliedSome(r, k - 1).0, end);
    }
  }

  lemma FastShut(r: Replica, msg: Message, end: Message)
    requires Shut(r, end) && end.body.ResyncEnd? && msg.lane == FastLane && msg.sn.Some?
    requires end in r.dispatched ==> r.m.fast.lastSeen.Some? && msg.sn.value <= r.m.fast.lastSeen.value + 1
    ensures Shut(FastIn(r, msg), end)
  {
    hide FastDone, Dispatched;
    var m := ObservedOn(r.m, msg);
    var r1 := r.(m := Parked(m, msg), arrived := r.arrived + [msg]);
    assert Shut(r1, end);
    if Admissible(m, msg) { DispatchShut(r1, msg, end); }
  }

  lemma StepShut(r: Replica, e: Event, end: Message)
    requires Enabled(r, e) && Shut(r, end) && end.body.ResyncEnd?
    requires e.Fast? && end in r.dispatched ==>
      r.m.fast.lastSeen.Some? && e.msg.sn.value <= r.m.fast.lastSeen.value + 1
    ensures Shut(Step(r, e), end)
  {
    hide FastDone, Shut, ReleasedAll, Kept, Due, ColdIn, AppliedSome, Taken, FastIn;
    match e {
      case Fast(msg) => FastShut(r, msg, end);
      case Cold(sn, kind) =>
        ColdInSplit(r, sn, kind);
        if kind.Immediate? || kind.BlobPart? {
          var r2 := Taken(r, sn, kind.Immediate? && kind.resyncEnd);
          ShutSame(r, DoneWith(r2, sn), end);
          ReleaseShut(DoneWith(r2, sn), Released(r2.m, Some(sn)), end);
        } else {
          ShutSame(r, ColdIn(r, sn, kind), end);
        }
      case Batch(k) =>
        BatchShut(r, k, end);
        var (r1, due) := AppliedSome(r, k);
        ReleaseShut(r1, due, end);
    }
  }

  /** From `end` on, no number is skipped. */
  predicate Steady(arrived: seq<Message>, end: Message) {
    forall i :: 0 < i < |arrived| && end in arrived[..i] && arrived[i - 1].sn.Some? && arrived[i].sn.Some? ==>
      arrived[i].sn.value <= arrived[i - 1].sn.value + 1
  }

  lemma SteadyFront(front: seq<Message>, m: Message, end: Message)
    requires Steady(front + [m], end)
    ensures Steady(front, end)
    ensures end in front && front[|front| - 1].sn.Some? && m.sn.Some? ==>
      m.sn.value <= front[|front| - 1].sn.value + 1
  {
    var all := front + [m];
    assert all[..|front|] == front && all[|front|] == m;
    forall i | 0 < i < |front| && end in front[..i] && front[i - 1].sn.Some? && front[i].sn.Some?
      ensures front[i].sn.value <= front[i - 1].sn.value + 1
    {
      assert all[..i] == front[..i] && all[i] == front[i] && all[i - 1] == front[i - 1];
    }
  }

  lemma NextFits(r: Replica, base: int, msg: Message, end: Message)
    requires Topped(r, base) && Accounted(r, []) && Steady(r.arrived + [msg], end) && msg.sn.Some?
    ensures r.m.fast.lastSeen.Some? && Steady(r.arrived, end)
    ensures end in r.dispatched ==> msg.sn.value <= r.m.fast.lastSeen.value + 1
  {
    hide Steady, SeenOf;
    SteadyFront(r.arrived, msg, end);
    if end in r.dispatched {
      assert end in multiset(r.arrived);
      assert r.arrived[|r.arrived| - 1] in r.arrived;
    }
  }

  lemma {:induction false} RunShut(coldBase: int, fastBase: int, es: seq<Event>, end: Message)
    requires Legal(Start(coldBase, fastBase), es) && end.body.ResyncEnd?
    requires Steady(Run(Start(coldBase, fastBase), es).arrived, end)
    ensures Shut(Run(Start(coldBase, fastBase), es), end)
  {
    hide Step, Enabled, Shut, Steady, Topped, Accounted;
    if es == [] {
      NothingShut(coldBase, fastBase, end);
    } else {
      var front, e := es[..|es| - 1], es[|es| - 1];
      var r := Run(Start(coldBase, fastBase), front);
      RunTopped(coldBase, fastBase, front);
      StepArrived(r, e);
      if e.Fast? {
        FastHasNumber(r, e);
        NextFits(r, fastBase, e.msg, end);
      } else {
        assert r.arrived + [] == r.arrived;
      }
      RunShut(coldBase, fastBase, front, end);
      assert e == es[|es| - 1];
      StepShut(r, e, end);
    }
  }

  lemma NothingShut(coldBase: int, fastBase: int, end: Message)
    ensures Shut(Start(coldBase, fastBase), end)
  {
  }

  // -------------------------------------------- numbers without a hole ----

  predicate Consecutive(nums: seq<int>) {
    forall i :: 0 < i < |nums| ==> nums[i] == nums[i - 1] + 1
  }

  lemma ConsecutiveFront(front: seq<int>, x: int)
    requires Consecutive(front + [x])
    ensures Consecutive(front) && (front != [] ==> x == front[|front| - 1] + 1)
  {
    var all := front + [x];
    assert all[|front|] == x && forall i :: 0 <= i < |front| ==> all[i] == front[i];
  }

  lemma {:induction false} ConsecutiveClimbs(nums: seq<int>)
    requires Consecutive(nums)
    ensures Climbs(nums) && forall x :: x in nums ==> x <= nums[|nums| - 1]
  {
    hide Climbs, Consecutive;
    if nums == [] {
      NothingClimbs();
    } else {
      var front, x := nums[..|nums| - 1], nums[|nums| - 1];
      assert nums == front + [x];
      ConsecutiveFront(front, x);
      ConsecutiveClimbs(front);
      ClimbsSnoc(front, x);
    }
  }

  lemma {:induction false} ArrivedNumber(h: seq<Out>, lost: set<int>, m: Message)
    requires m in Arrivals(h, lost) && m.sn.Some?
    ensures m.sn.value in Numbers(h)
  {
    var o := h[|h| - 1];
    if !(Arrives(o, lost) && o.m == m) { ArrivedNumber(h[..|h| - 1], lost, m); }
  }

  /** With nothing lost from fast message `e` on, the last number given out is the last that arrived. */
  lemma {:induction false} LastArrived(h: seq<Out>, lost: set<int>, e: nat)
    requires e < |h| && !h[e].Shipped? && LostOnlyBefore(h, lost, e)
    requires forall i :: 0 <= i < |h| && !h[i].Shipped? ==> h[i].m.sn.Some?
    ensures var a, x := Arrivals(h, lost), Numbers(h);
      a != [] && x != [] && a[|a| - 1].sn == Some(x[|x| - 1])
  {
    hide Arrives;
    var front, o := h[..|h| - 1], h[|h| - 1];
    if o.Shipped? {
      ArrivesFast(o, lost);
      assert forall i :: 0 <= i < |front| ==> front[i] == h[i];
      LastArrived(front, lost, e);
    } else {
      assert Arrives(h[|h| - 1], lost);
    }
  }

  lemma NumberedFront(h: seq<Out>, lost: set<int>, e: nat)
    requires h != [] && LostOnlyBefore(h, lost, e)
    requires forall i :: 0 <= i < |h| && !h[i].Shipped? ==> h[i].m.sn.Some?
    requires Consecutive(Numbers(h))
    ensures var front := h[..|h| - 1];
      && (forall i :: 0 <= i < |front| && !front[i].Shipped? ==> front[i].m.sn.Some?)
      && Consecutive(Numbers(front)) && LostOnlyBefore(front, lost, e)
  {
    hide Consecutive, Arrives;
    var front, o := h[..|h| - 1], h[|h| - 1];
    assert forall i :: 0 <= i < |front| ==> front[i] == h[i];
    if !o.Shipped? { ConsecutiveFront(Numbers(front), o.m.sn.value); }
  }

  /** The end is not among the messages before it. */
  lemma EndIsNew(h: seq<Out>, lost: set<int>)
    requires h != [] && !h[|h| - 1].Shipped? && h[|h| - 1].m.sn.Some? && Consecutive(Numbers(h))
    ensures h[|h| - 1].m !in Arrivals(h[..|h| - 1], lost)
  {
    hide Consecutive, Climbs, Arrivals;
    var front, m := h[..|h| - 1], h[|h| - 1].m;
    ConsecutiveClimbs(Numbers(h));
    ClimbsFront(Numbers(front), m.sn.value);
    if m in Arrivals(front, lost) { ArrivedNumber(front, lost, m); }
  }

  lemma SteadySnoc(arrived: seq<Message>, m: Message, end: Message)
    requires Steady(arrived, end)
    requires end in arrived && arrived[|arrived| - 1].sn.Some? && m.sn.Some? ==>
      m.sn.value <= arrived[|arrived| - 1].sn.value + 1
    ensures Steady(arrived + [m], end)
  {
    var all := arrived + [m];
    forall i | 0 < i < |all| && end in all[..i] && all[i - 1].sn.Some? && all[i].sn.Some?
      ensures all[i].sn.value <= all[i - 1].sn.value + 1
    {
      assert all[..i] == arrived[..i];
      if i < |arrived| { assert all[i] == arrived[i] && all[i - 1] == arrived[i - 1]; }
      else { assert all[..i] == arrived; }
    }
  }

  /** What arrives is steady from the end on, once the end is among it. */
  lemma {:induction false} ArrivesSteady(h: seq<Out>, lost: set<int>, e: nat)
    requires e < |h| && !h[e].Shipped? && LostOnlyBefore(h, lost, e) && Consecutive(Numbers(h))
    requires forall i :: 0 <= i < |h| && !h[i].Shipped? ==> h[i].m.sn.Some?
    ensures Steady(Arrivals(h, lost), h[e].m)
  {
    hide Steady, Consecutive, Arrives, LostOnlyBefore;
    var front, o, end := h[..|h| - 1], h[|h| - 1], h[e].m;
    NumberedFront(h, lost, e);
    if e == |front| {
      EndIsNew(h, lost);
      SteadyWithout(Arrivals(front, lost), end);
      SteadySnoc(Arrivals(front, lost), o.m, end);
    } else {
      ArrivesSteady(front, lost, e);
      LastArrived(front, lost, e);
      if !o.Shipped? {
        ConsecutiveFront(Numbers(front), o.m.sn.value);
        SteadySnoc(Arrivals(front, lost), o.m, end);
      }
      ArrivesFast(o, lost);
    }
  }

  lemma SteadyWithout(arrived: seq<Message>, end: Message)
    requires end !in arrived
    ensures Steady(arrived, end)
  {
  }

  // ------------------------------------------------- the hole, at rest ----

  predicate IsEnd(o: Out) {
    !o.Shipped? && o.m.body.ResyncEnd?
  }

  lemma {:induction false} HoleStays(t: Track, a: seq<Op>, b: seq<Op>, g: int)
    requires a <= b && After(t, a).firstMissing == Some(g) && forall i :: 0 <= i < |b| ==> b[i].Saw?
    ensures After(t, b).firstMissing == Some(g)
    decreases |b|
  {
    if |a| == |b| {
      assert a == b;
    } else {
      HoleStays(t, a, b[..|b| - 1], g);
    }
  }

  lemma {:induction false} SawsSaw(ms: seq<Message>)
    ensures forall i :: 0 <= i < |Saws(ms)| ==> Saws(ms)[i].Saw?
  {
    if ms != [] { SawsSaw(ms[..|ms| - 1]); }
  }

  lemma {:induction false} NoEndArrives(h: seq<Out>, lost: set<int>)
    requires forall i :: 0 <= i < |h| ==> !IsEnd(h[i])
    ensures NoEnd(Arrivals(h, lost))
  {
    if h != [] {
      assert forall i :: 0 <= i < |h| - 1 ==> h[..|h| - 1][i] == h[i];
      NoEndArrives(h[..|h| - 1], lost);
    }
  }

  /** While no repair ends, the hole reported stays. */
  lemma HoleUntilEnd(coldBase: int, fastBase: int, es: seq<Event>, h: seq<Out>, lost: set<int>, n: nat, g: int)
    requires Brought(coldBase, fastBase, es, h, lost) && Reported(coldBase, fastBase, es, n, g)
    requires forall i :: 0 <= i < |h| ==> !IsEnd(h[i])
    ensures Legal(Start(coldBase, fastBase), es)
    ensures Run(Start(coldBase, fastBase), es).m.fast.firstMissing == Some(g)
  {
    hide Run, Arrivals, Saws, After, NoEnd, IsEnd;
    var s := Start(coldBase, fastBase);
    NoEndArrives(h, lost);
    TrackerIs(coldBase, fastBase, es);
    assert forall i :: 0 <= i < n ==> es[..n][i] == es[i];
    TrackerIs(coldBase, fastBase, es[..n]);
    ArrivedSoFar(s, es, n);
    SawsFrom(Run(s, es[..n]).arrived, Run(s, es).arrived);
    SawsSaw(Run(s, es).arrived);
    HoleStays(Track(Some(fastBase), 0, None), Saws(Run(s, es[..n]).arrived), Saws(Run(s, es).arrived), g);
  }

  lemma {:induction false} ArrivalHeard(h: seq<Out>, lost: set<int>, e: nat)
    requires e < |h| && Arrives(h[e], lost)
    ensures h[e].m in Arrivals(h, lost)
  {
    hide Arrives;
    ArrivesFast(h[e], lost);
    if e < |h| - 1 { ArrivalHeard(h[..|h| - 1], lost, e); }
  }

  /** A repair's end that arrives, with no number lost after it, leaves no hole once the run is at rest. */
  lemma EndShutsHole(coldBase: int, fastBase: int, es: seq<Event>, h: seq<Out>, lost: set<int>, e: nat)
    requires Brought(coldBase, fastBase, es, h, lost) && Numbered(fastBase, h) && Consecutive(Numbers(h))
    requires e < |h| && IsEnd(h[e]) && LostOnlyBefore(h, lost, e)
    ensures Legal(Start(coldBase, fastBase), es)
    ensures Run(Start(coldBase, fastBase), es).m.fast.firstMissing == None
  {
    hide Run, Arrivals, Steady, Numbers, Consecutive, Shut, Climbs, Arrives;
    var s, end := Start(coldBase, fastBase), h[e].m;
    ArrivesSteady(h, lost, e);
    RunShut(coldBase, fastBase, es, end);
    ArrivalHeard(h, lost, e);
    NothingLost(coldBase, fastBase, es);
    AllDispatched(Run(s, es), end);
    ShutMeans(Run(s, es), end);
  }

  lemma AllDispatched(r: Replica, m: Message)
    requires multiset(r.arrived) == multiset(r.dispatched) + multiset(r.m.parked) && r.m.parked == [] && m in r.arrived
    ensures m in r.dispatched
  {
    assert m in multiset(r.arrived);
  }

  lemma ShutMeans(r: Replica, end: Message)
    requires Shut(r, end) && end in r.dispatched
    ensures r.m.fast.firstMissing == None
  {
  }

  /** How a repair leaves the tracker: with its hole cleared iff the host sent a repair's end after
      the window was taken; otherwise with the hole it reported. */
  lemma RepairClosesHole(s: Scene, coldBase: int, fastBase: int, es: seq<Event>, h: seq<Out>, lost: set<int>,
                         n: nat, g: int, w: nat, capacity: nat)
    requires RepairRun(s, coldBase, fastBase, es, h, lost, n, g, w, capacity) && Consecutive(Numbers(h))
    requires forall i :: 0 <= i < w ==> !IsEnd(h[i])
    ensures Legal(Start(coldBase, fastBase), es)
    ensures Run(Start(coldBase, fastBase), es).m.fast.firstMissing ==
      if exists e :: w <= e < |h| && IsEnd(h[e]) then None else Some(g)
  {
    hide *;
    RunParts(s, coldBase, fastBase, es, h, lost, n, g, w, capacity);
    LostFrom(h, lost, w, g, capacity);
    if e :| w <= e < |h| && IsEnd(h[e]) {
      LostLater(h, lost, w, e);
      EndShutsHole(coldBase, fastBase, es, h, lost, e);
    } else {
      HoleUntilEnd(coldBase, fastBase, es, h, lost, n, g);
    }
  }

  lemma LostFrom(h: seq<Out>, lost: set<int>, w: nat, g: int, capacity: nat)
    requires Reasserted(h, lost, w, g, capacity)
    ensures w <= |h| && LostOnlyBefore(h, lost, w)
  {
  }
}
