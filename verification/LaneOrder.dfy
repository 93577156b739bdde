/**
 * Host to replica: when the fast lane keeps each datablock's send order, end to end.
 */
module LaneOrder {
  import opened Wire
  import opened Wrappers
  import opened LaneMerge
  import HostSend
  import HostRuns
  import opened ReplicaApply

  // --------------------------------------------- at the replica alone ----

  predicate OnFastLane(ms: seq<Message>) {
    forall m :: m in ms ==> m.lane == FastLane && m.sn.Some?
  }

  function Events(ms: seq<Message>): seq<Event> {
    if ms == [] then [] else Events(ms[..|ms| - 1]) + [Fast(ms[|ms| - 1])]
  }

  /** A run grows by one event. */
  lemma RunSnoc(r: Replica, es: seq<Event>, e: Event)
    requires Legal(r, es) && Enabled(Run(r, es), e)
    ensures Legal(r, es + [e]) && Run(r, es + [e]) == Step(Run(r, es), e)
  {
    hide Step, Enabled;
    assert (es + [e])[..|es + [e]| - 1] == es;
  }

  lemma RunNothing(r: Replica)
    ensures Legal(r, []) && Run(r, []) == r
  {
  }

  /** Fast messages only, from a cold mark that stays put: those it covers are applied, the rest park. */
  lemma {:induction false} FastOnly(cold: int, fastBase: int, ms: seq<Message>)
    requires OnFastLane(ms)
    ensures Legal(Start(cold, fastBase), Events(ms))
    ensures var r := Run(Start(cold, fastBase), Events(ms));
      r.arrived == ms && r.dispatched == Due(ms, cold) && r.m.parked == Kept(ms, cold) && r.m.coldApplied == cold
  {
    hide Due, Kept, Step, Enabled, Legal, Run;
    var s := Start(cold, fastBase);
    RunNothing(s);
    if ms == [] {
      NothingKept(cold);
    } else {
      var front, msg := ms[..|ms| - 1], ms[|ms| - 1];
      assert ms == front + [msg] && msg in ms && forall m :: m in front ==> m in ms;
      FastOnly(cold, fastBase, front);
      FilterSnoc(front, msg, cold);
      FastStep(Run(s, Events(front)), msg);
      RunSnoc(s, Events(front), Fast(msg));
    }
  }

  lemma NothingKept(c: int)
    ensures Due([], c) == [] && Kept([], c) == []
  {
  }

  lemma FastStep(r: Replica, msg: Message)
    requires msg.lane == FastLane && msg.sn.Some?
    ensures Enabled(r, Fast(msg))
    ensures var n := Step(r, Fast(msg));
      && n.arrived == r.arrived + [msg] && n.m.coldApplied == r.m.coldApplied
      && n.dispatched == (if msg.after <= r.m.coldApplied then r.dispatched + [msg] else r.dispatched)
      && n.m.parked == (if msg.after > r.m.coldApplied then r.m.parked + [msg] else r.m.parked)
  {
    hide FastDone, Outruns;
    FastDoneFrame(ObservedOn(r.m, msg), msg.sn);
    FastDoneFrame(FastGapCleared(ObservedOn(r.m, msg)), msg.sn);
  }

  lemma {:induction false} FilterOf(ms: seq<Message>, c: int, u: Uuid)
    ensures Of(Due(ms, c), u) == Due(Of(ms, u), c) && Of(Kept(ms, c), u) == Kept(Of(ms, u), c)
    decreases |ms|
  {
    hide Of, Due, Kept;
    if ms == [] {
      OfEmpty(u);
      NothingKept(c);
    } else {
      var front, last := Unsnoc(ms);
      FilterOf(front, c, u);
      OfSnoc(front, last, u);
      FilterSnoc(front, last, c);
      FilterSnoc(Of(front, u), last, c);
      OfSnoc(Due(front, c), last, u);
      OfSnoc(Kept(front, c), last, u);
      assert Of(front, u) + [] == Of(front, u);
      assert Due(Of(front, u), c) + [] == Due(Of(front, u), c) && Kept(Of(front, u), c) + [] == Kept(Of(front, u), c);
    }
  }

  /** Splitting at a stamp keeps the order only if no stamp above it stands before one below. */
  lemma SplitInOrder(ms: seq<Message>, c: int, a: nat, b: nat)
    requires Due(ms, c) + Kept(ms, c) == ms && a < b < |ms|
    ensures ms[a].after > c ==> ms[b].after > c
  {
    hide Due, Kept;
    SplitParked(ms, c);
    var d := Due(ms, c);
    if a < |d| {
      assert ms[a] == d[a] && d[a] in d;
    } else {
      assert ms[b] == Kept(ms, c)[b - |d|] && Kept(ms, c)[b - |d|] in Kept(ms, c);
    }
  }

  /** Every interleaving in which `ms` arrives applies the messages of `u` in the order they came. */
  ghost predicate AlwaysInOrder(ms: seq<Message>, u: Uuid) {
    forall coldBase, fastBase, es ::
      (Legal(Start(coldBase, fastBase), es) && Run(Start(coldBase, fastBase), es).arrived == ms) ==>
        var r := Run(Start(coldBase, fastBase), es); Of(r.dispatched, u) + Of(r.m.parked, u) == Of(ms, u)
  }

  /** The order is kept in every interleaving iff the stamps of `u` never decrease. */
  lemma OrderExactly(ms: seq<Message>, u: Uuid)
    requires OnFastLane(ms)
    ensures AlwaysInOrder(ms, u) <==> StampsRise(Of(ms, u))
  {
    hide Of, Run, Legal;
    if StampsRise(Of(ms, u)) {
      forall coldBase, fastBase, es | Legal(Start(coldBase, fastBase), es)
        && Run(Start(coldBase, fastBase), es).arrived == ms
        ensures var r := Run(Start(coldBase, fastBase), es); Of(r.dispatched, u) + Of(r.m.parked, u) == Of(ms, u)
      {
        SendOrderKept(coldBase, fastBase, es, u);
      }
    }
    if AlwaysInOrder(ms, u) {
      forall a, b | 0 <= a < b < |Of(ms, u)| ensures Of(ms, u)[a].after <= Of(ms, u)[b].after {
        var c := Of(ms, u)[b].after;
        FastOnly(c, 0, ms);
        FilterOf(ms, c, u);
        SplitInOrder(Of(ms, u), c, a, b);
      }
    }
  }

  // ------------------------------------------------- from the host on ----

  /** A fast message as the replica decodes it; one about no datablock is a repair's end. */
  function OnLane(f: HostSend.FastMsg): Message {
    Message(FastLane, Some(f.sn), f.uuid, f.after, if f.uuid == "" then ResyncEnd else Other)
  }

  /** What arrives of the host's fast lane when the messages numbered in `lost` do not. */
  function Arriving(fast: seq<HostSend.FastMsg>, lost: set<nat>): seq<Message> {
    if fast == [] then []
    else
      var rest, f := Arriving(fast[..|fast| - 1], lost), fast[|fast| - 1];
      if f.sn in lost then rest else rest + [OnLane(f)]
  }

  lemma {:induction false} ArrivingOnLane(fast: seq<HostSend.FastMsg>, lost: set<nat>)
    ensures OnFastLane(Arriving(fast, lost))
  {
    if fast != [] { ArrivingOnLane(fast[..|fast| - 1], lost); }
  }

  /** One of the messages of `u` that arrive. */
  predicate Reaches(fast: seq<HostSend.FastMsg>, lost: set<nat>, u: Uuid, i: nat) {
    i < |fast| && fast[i].uuid == u && fast[i].sn !in lost
  }

  /** No arriving message of `u` was lifted by a pointer target past where a later one stands. */
  ghost predicate NoLiftStandsOut(fast: seq<HostSend.FastMsg>, lost: set<nat>, u: Uuid) {
    forall i: nat, j: nat :: i < j && Reaches(fast, lost, u, i) && Reaches(fast, lost, u, j) ==> fast[i].lift <= fast[j].after
  }

  ghost predicate StampsOrdered(fast: seq<HostSend.FastMsg>, lost: set<nat>, u: Uuid, k: nat) {
    forall i: nat, j: nat :: i < j < k && Reaches(fast, lost, u, i) && Reaches(fast, lost, u, j) ==>
      fast[i].after <= fast[j].after
  }

  ghost predicate Sent(m: Message, fast: seq<HostSend.FastMsg>, lost: set<nat>, k: nat, u: Uuid) {
    exists i: nat :: i < k && Reaches(fast, lost, u, i) && m == OnLane(fast[i])
  }

  /** One more message of the host's. */
  lemma ArrivingSnoc(fast: seq<HostSend.FastMsg>, k: nat, lost: set<nat>, u: Uuid)
    requires 0 < k <= |fast|
    ensures var rest, f := Of(Arriving(fast[..k - 1], lost), u), fast[k - 1];
      Of(Arriving(fast[..k], lost), u) == if f.uuid == u && f.sn !in lost then rest + [OnLane(f)] else rest
  {
    hide Of;
    assert fast[..k][..k - 1] == fast[..k - 1];
    var before, f := Arriving(fast[..k - 1], lost), fast[k - 1];
    OfSnoc(before, OnLane(f), u);
    assert Of(before, u) + [] == Of(before, u);
  }

  lemma {:induction false} ArrivedWereSent(fast: seq<HostSend.FastMsg>, k: nat, lost: set<nat>, u: Uuid)
    requires k <= |fast|
    ensures forall m :: m in Of(Arriving(fast[..k], lost), u) <==> Sent(m, fast, lost, k, u)
  {
    hide Of, Arriving;
    if k == 0 {
      NothingArrives(lost, u);
      assert fast[..0] == [];
    } else {
      ArrivedWereSent(fast, k - 1, lost, u);
      ArrivingSnoc(fast, k, lost, u);
      forall m ensures m in Of(Arriving(fast[..k], lost), u) <==> Sent(m, fast, lost, k, u) {
        SentSnoc(m, fast, lost, k, u);
      }
    }
  }

  lemma NothingArrives(lost: set<nat>, u: Uuid)
    ensures Of(Arriving([], lost), u) == []
  {
  }

  lemma SentSnoc(m: Message, fast: seq<HostSend.FastMsg>, lost: set<nat>, k: nat, u: Uuid)
    requires 0 < k <= |fast|
    ensures Sent(m, fast, lost, k, u) <==>
      Sent(m, fast, lost, k - 1, u) || (Reaches(fast, lost, u, k - 1) && m == OnLane(fast[k - 1]))
  {
    hide OnLane;
  }

  lemma RiseSnoc(ms: seq<Message>, m: Message)
    requires StampsRise(ms) && forall x :: x in ms ==> x.after <= m.after
    ensures StampsRise(ms + [m])
  {
  }

  lemma NothingRises()
    ensures StampsRise([])
  {
  }

  lemma {:induction false} ArrivalsRise(fast: seq<HostSend.FastMsg>, k: nat, lost: set<nat>, u: Uuid)
    requires k <= |fast|
    ensures StampsRise(Of(Arriving(fast[..k], lost), u)) <==> StampsOrdered(fast, lost, u, k)
  {
    hide Of, StampsRise, Arriving;
    if k == 0 {
      NothingArrives(lost, u);
      assert fast[..0] == [];
      NothingRises();
    } else {
      ArrivalsRise(fast, k - 1, lost, u);
      if StampsOrdered(fast, lost, u, k) {
        OrderedRises(fast, k, lost, u);
      }
      if StampsRise(Of(Arriving(fast[..k], lost), u)) {
        RisingOrdered(fast, k, lost, u);
      }
    }
  }

  lemma OrderedRises(fast: seq<HostSend.FastMsg>, k: nat, lost: set<nat>, u: Uuid)
    requires 0 < k <= |fast| && StampsOrdered(fast, lost, u, k)
    requires StampsOrdered(fast, lost, u, k - 1) ==> StampsRise(Of(Arriving(fast[..k - 1], lost), u))
    ensures StampsRise(Of(Arriving(fast[..k], lost), u))
  {
    hide Of, StampsRise, Arriving;
    ArrivedWereSent(fast, k - 1, lost, u);
    ArrivingSnoc(fast, k, lost, u);
    var before, f := Of(Arriving(fast[..k - 1], lost), u), fast[k - 1];
    if f.uuid == u && f.sn !in lost {
      assert Reaches(fast, lost, u, k - 1);
      forall x | x in before ensures x.after <= f.after { assert Sent(x, fast, lost, k - 1, u); }
      RiseSnoc(before, OnLane(f));
    }
  }

  lemma RisingOrdered(fast: seq<HostSend.FastMsg>, k: nat, lost: set<nat>, u: Uuid)
    requires 0 < k <= |fast| && StampsRise(Of(Arriving(fast[..k], lost), u))
    requires StampsRise(Of(Arriving(fast[..k - 1], lost), u)) ==> StampsOrdered(fast, lost, u, k - 1)
    ensures StampsOrdered(fast, lost, u, k)
  {
    hide Of, StampsRise, Arriving;
    ArrivedWereSent(fast, k - 1, lost, u);
    ArrivingSnoc(fast, k, lost, u);
    var before, f := Of(Arriving(fast[..k - 1], lost), u), fast[k - 1];
    if f.uuid == u && f.sn !in lost {
      StampsRiseTail(before, [OnLane(f)]);
      LastIsHighest(before, OnLane(f));
      forall i: nat | i < k - 1 && Reaches(fast, lost, u, i) ensures fast[i].after <= f.after {
        assert Sent(OnLane(fast[i]), fast, lost, k - 1, u);
      }
    }
  }

  /** End to end: whatever the transport refused at the host, whatever was lost on the way, the
      messages of a datablock that arrive are applied in the order they were sent, those waiting for
      their cold number last, in every interleaving of the lanes; iff no pointer target lifted one
      of them past where a later one stands. */
  lemma SendOrderEndToEnd(verdicts: seq<bool>, ops: seq<HostSend.Op>, lost: set<nat>, u: Uuid)
    requires u != ""
    ensures var fast := HostSend.After(HostSend.Start(verdicts), ops).fast;
      AlwaysInOrder(Arriving(fast, lost), u) <==> NoLiftStandsOut(fast, lost, u)
  {
    hide Of, StampsRise, Arriving, AlwaysInOrder;
    var fast := HostSend.After(HostSend.Start(verdicts), ops).fast;
    ArrivingOnLane(fast, lost);
    OrderExactly(Arriving(fast, lost), u);
    assert fast[..|fast|] == fast;
    ArrivalsRise(fast, |fast|, lost, u);
    LiftsAreFalls(verdicts, ops, lost, u);
  }

  lemma LiftsAreFalls(verdicts: seq<bool>, ops: seq<HostSend.Op>, lost: set<nat>, u: Uuid)
    requires u != ""
    ensures var fast := HostSend.After(HostSend.Start(verdicts), ops).fast;
      StampsOrdered(fast, lost, u, |fast|) <==> NoLiftStandsOut(fast, lost, u)
  {
    hide HostSend.After;
    var fast := HostSend.After(HostSend.Start(verdicts), ops).fast;
    forall i: nat, j: nat | i < j && Reaches(fast, lost, u, i) && Reaches(fast, lost, u, j)
      ensures fast[j].after < fast[i].after <==> fast[j].after < fast[i].lift
    {
      HostRuns.StampFallsExactly(verdicts, ops, i, j);
    }
  }

  // ------------------------------------------------ nothing waits for ever ----

  lemma {:induction false} ArrivingStamps(fast: seq<HostSend.FastMsg>, lost: set<nat>, top: nat)
    requires forall f :: f in fast ==> f.after <= top
    ensures forall m :: m in Arriving(fast, lost) ==> m.after <= top
  {
    if fast != [] { ArrivingStamps(fast[..|fast| - 1], lost, top); }
  }

  /** End to end: once the replica has applied the whole cold lane, every fast message that arrived has
      been applied, once, and none waits for a cold number that never comes. */
  lemma NothingStaysParked(verdicts: seq<bool>, ops: seq<HostSend.Op>, lost: set<nat>, es: seq<Event>)
    requires Legal(Start(0, 0), es)
    requires var h := HostSend.After(HostSend.Start(verdicts), ops); var r := Run(Start(0, 0), es);
      r.arrived == Arriving(h.fast, lost) && r.m.coldApplied >= |h.cold|
    ensures var r := Run(Start(0, 0), es);
      r.m.parked == [] && multiset(r.dispatched) == multiset(r.arrived)
  {
    hide Run, Legal, HostSend.After;
    var h, r := HostSend.After(HostSend.Start(verdicts), ops), Run(Start(0, 0), es);
    HostRuns.NoStampAhead(verdicts, ops);
    ArrivingStamps(h.fast, lost, |h.cold|);
    NothingLost(0, 0, es);
    assert forall p :: p in r.m.parked ==> p in multiset(r.arrived);
    NoneParked(r.m.parked, r.arrived, r.m.coldApplied);
  }

  lemma NoneParked(parked: seq<Message>, arrived: seq<Message>, c: int)
    requires forall p :: p in parked ==> p.after > c && p in arrived
    requires forall m :: m in arrived ==> m.after <= c
    ensures parked == []
  {
    SomeIn(parked);
  }

  lemma SomeIn<T>(s: seq<T>)
    ensures s != [] ==> exists x :: x in s
  {
    if s != [] { assert s[0] in s; }
  }
}
