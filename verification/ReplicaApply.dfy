/**
 * The replica's message loop (qcbridge/ring0/replica_apply.py: _process_cold, _dispatch,
 * _release, _apply_pending_batch, _end_resync) as a step system over the lane merger.
 * Whether a chunk completes its blob is left to the step, so every reassembly outcome is covered.
 */
module ReplicaApply {
  import opened Wrappers
  import opened SeqTracking
  import opened Wire
  import opened LaneMerge

  const BATCH_MAX: nat := 16

  /** A completed blob waiting to apply; `covers` are the cold seqs settled when it has:
      its own and, for a bootstrap, those of the blobs it superseded. */
  datatype Pending = Pending(sn: int, covers: set<int>, boot: bool)

  /** A cold message, by what the dispatcher does with it. */
  datatype ColdKind =
    | Immediate(resyncEnd: bool)  // applied at once: link, unlink, lib_missing, a finished libfile, a repair's end
    | LibPart                     // a library chunk that completes nothing
    | BlobPart                    // a datablock or bootstrap chunk that completes nothing
    | BlobDone(boot: bool)        // the chunk that completes a blob

  /** The merger, the waiting blobs, and the history the properties speak of. */
  datatype Replica = Replica(
    m: Merger,
    pending: seq<Pending>,
    arrived: seq<Message>,     // fast messages, in arrival order
    dispatched: seq<Message>,  // fast messages, in the order they were applied
    early: seq<Message>,       // those applied before a received cold message they must follow
    received: set<int>,        // cold seqs taken from the lane
    settled: set<int>)         // cold seqs with nothing left to apply

  datatype Event = Fast(msg: Message) | Cold(sn: int, kind: ColdKind) | Batch(k: nat)

  /** A fresh session, primed with the host's lane counters. */
  function Start(coldBase: int, fastBase: int): Replica {
    Replica(Merger(Track(Some(coldBase), 0, None), Track(Some(fastBase), 0, None), coldBase, fastBase, {}, []),
            [], [], [], [], {}, {})
  }

  predicate Outruns(r: Replica, msg: Message) {
    exists s :: s in r.received && s <= msg.after && s !in r.settled
  }

  function Dispatched(r: Replica, msg: Message): Replica {
    var m := if msg.body.ResyncEnd? then FastGapCleared(r.m) else r.m;
    r.(m := FastDone(m, msg.sn),
       dispatched := r.dispatched + [msg],
       early := if Outruns(r, msg) then r.early + [msg] else r.early)
  }

  function ReleasedAll(r: Replica, due: seq<Message>): Replica {
    if due == [] then r else Dispatched(ReleasedAll(r, due[..|due| - 1]), due[|due| - 1])
  }

  function FastIn(r: Replica, msg: Message): Replica {
    var m := ObservedOn(r.m, msg);
    var r1 := r.(m := Parked(m, msg), arrived := r.arrived + [msg]);
    if Admissible(m, msg) then Dispatched(r1, msg) else r1
  }

  function ColdSettled(r: Replica, sn: int): Replica {
    ReleasedAll(r.(m := ColdDone(r.m, Some(sn)), settled := r.settled + {sn}), Released(r.m, Some(sn)))
  }

  function CoversOf(pending: seq<Pending>): set<int> {
    set i, s | 0 <= i < |pending| && s in pending[i].covers :: s
  }

  function ColdIn(r: Replica, sn: int, kind: ColdKind): Replica {
    var r1 := r.(m := r.m.(cold := Observed(r.m.cold, sn)), received := r.received + {sn});
    match kind
    case Immediate(end) => ColdSettled(if end then r1.(m := ColdGapCleared(r1.m)) else r1, sn)
    case LibPart => r1.(settled := r1.settled + {sn})
    case BlobPart => ColdSettled(r1, sn)
    case BlobDone(boot) =>
      // A bootstrap supersedes every blob still waiting.
      if boot then r1.(pending := [Pending(sn, {sn} + CoversOf(r1.pending), true)])
      else r1.(pending := r1.pending + [Pending(sn, {sn}, false)])
  }

  /** The oldest waiting blob applies. */
  function AppliedOne(r: Replica): Replica
    requires r.pending != []
  {
    var p := r.pending[0];
    var m := if p.boot then FastGapCleared(ColdGapCleared(r.m)) else r.m;
    r.(m := ColdDone(m, Some(p.sn)), pending := r.pending[1..], settled := r.settled + p.covers)
  }

  /** `k` blobs apply in one tick; their parked followers are collected, not yet released. */
  function AppliedSome(r: Replica, k: nat): (res: (Replica, seq<Message>))
    requires k <= |r.pending|
    ensures res.0.pending == r.pending[k..]
  {
    if k == 0 then (r, [])
    else
      var (r1, due) := AppliedSome(r, k - 1);
      (AppliedOne(r1), due + Released(r1.m, Some(r1.pending[0].sn)))
  }

  function BatchApplied(r: Replica, k: nat): Replica
    requires k <= |r.pending|
  {
    var (r1, due) := AppliedSome(r, k);
    ReleasedAll(r1, due)
  }

  /** Lanes deliver in order; cold pulls pause at a full batch or a waiting bootstrap; a
      bootstrap never shares a batch. */
  predicate Enabled(r: Replica, e: Event) {
    match e
    case Fast(msg) => msg.lane == FastLane && msg.sn.Some?
    case Cold(sn, _) =>
      && (r.m.cold.lastSeen.Some? ==> sn > r.m.cold.lastSeen.value)
      && |r.pending| < BATCH_MAX && forall p :: p in r.pending ==> !p.boot
    case Batch(k) =>
      1 <= k <= |r.pending| && (k > 1 ==> forall p :: p in r.pending[..k] ==> !p.boot)
  }

  function Step(r: Replica, e: Event): Replica
    requires Enabled(r, e)
  {
    match e
    case Fast(msg) => FastIn(r, msg)
    case Cold(sn, kind) => ColdIn(r, sn, kind)
    case Batch(k) => BatchApplied(r, k)
  }

  ghost predicate Legal(r: Replica, es: seq<Event>)
    decreases es, 0
  {
    es != [] ==> Legal(r, es[..|es| - 1]) && Enabled(Run(r, es[..|es| - 1]), es[|es| - 1])
  }

  ghost function Run(r: Replica, es: seq<Event>): Replica
    requires Legal(r, es)
    decreases es, 1
  {
    if es == [] then r else Step(Run(r, es[..|es| - 1]), es[|es| - 1])
  }

  // ----------------------------------------------------- nothing is lost ----

  lemma {:induction false} ReleaseFrame(r: Replica, due: seq<Message>)
    ensures var n := ReleasedAll(r, due);
      && n.m.parked == r.m.parked && n.m.coldApplied == r.m.coldApplied && n.m.cold == r.m.cold
      && n.m.fast.lastSeen == r.m.fast.lastSeen
      && n.dispatched == r.dispatched + due
      && n.arrived == r.arrived && n.pending == r.pending
      && n.received == r.received && n.settled == r.settled
      && (due == [] ==> n == r)
  {
    hide FastDone, Outruns;
    if due != [] {
      var front := due[..|due| - 1];
      ReleaseFrame(r, front);
      assert due == front + [due[|due| - 1]];
      FastDoneFrame(ReleasedAll(r, front).m, due[|due| - 1].sn);
      FastDoneFrame(FastGapCleared(ReleasedAll(r, front).m), due[|due| - 1].sn);
    }
  }

  lemma FastDoneFrame(m: Merger, sn: Option<int>)
    ensures FastDone(m, sn).(fastApplied := m.fastApplied, fastDone := m.fastDone) == m
  {
  }

  /** Every admitted fast message is dispatched or parked, once, and nothing stays parked
      whose cold seq is reached. */
  ghost predicate Accounted(r: Replica, due: seq<Message>) {
    && multiset(r.arrived) == multiset(r.dispatched) + multiset(due) + multiset(r.m.parked)
    && forall p :: p in r.m.parked ==> p.after > r.m.coldApplied
  }

  lemma ReleaseAccounted(r: Replica, due: seq<Message>)
    requires Accounted(r, due)
    ensures Accounted(ReleasedAll(r, due), [])
  {
    ReleaseFrame(r, due);
  }

  lemma ColdDoneAccounted(r: Replica, due: seq<Message>, r1: Replica, sn: int)
    requires Accounted(r, due)
    requires r1.arrived == r.arrived && r1.dispatched == r.dispatched
    requires r1.m.parked == Kept(r.m.parked, r1.m.coldApplied) && r1.m.coldApplied == Raised(r.m, Some(sn))
    ensures Accounted(r1, due + Released(r.m, Some(sn)))
  {
    SplitParked(r.m.parked, r1.m.coldApplied);
  }

  lemma {:induction false} BatchAccounted(r: Replica, k: nat)
    requires Accounted(r, []) && k <= |r.pending|
    ensures var (r1, due) := AppliedSome(r, k);
      Accounted(r1, due)
  {
    if k > 0 {
      BatchAccounted(r, k - 1);
      var (r1, due) := AppliedSome(r, k - 1);
      ColdDoneAccounted(r1, due, AppliedOne(r1), r1.pending[0].sn);
    }
  }

  /** The state once a cold message has been taken from the lane, and has nothing left to apply. */
  function Taken(r: Replica, sn: int, end: bool): Replica {
    var r1 := r.(m := r.m.(cold := Observed(r.m.cold, sn)), received := r.received + {sn});
    if end then r1.(m := ColdGapCleared(r1.m)) else r1
  }

  function DoneWith(r: Replica, sn: int): Replica {
    r.(m := ColdDone(r.m, Some(sn)), settled := r.settled + {sn})
  }

  lemma ColdInSplit(r: Replica, sn: int, kind: ColdKind)
    ensures kind.Immediate? || kind.BlobPart? ==>
      var r2 := Taken(r, sn, kind.Immediate? && kind.resyncEnd);
      ColdIn(r, sn, kind) == ReleasedAll(DoneWith(r2, sn), Released(r2.m, Some(sn)))
    ensures kind.LibPart? || kind.BlobDone? ==>
      var n := ColdIn(r, sn, kind);
      && n.arrived == r.arrived && n.dispatched == r.dispatched && n.early == r.early
      && n.m == Taken(r, sn, false).m
    ensures forall end :: var r2 := Taken(r, sn, end);
      && r2.arrived == r.arrived && r2.dispatched == r.dispatched && r2.early == r.early
      && r2.m.parked == r.m.parked && r2.m.coldApplied == r.m.coldApplied
      && r2.pending == r.pending && r2.settled == r.settled && r2.received == r.received + {sn}
      && r2.m.fast == r.m.fast && r2.m.fastApplied == r.m.fastApplied && r2.m.fastDone == r.m.fastDone
  {
    hide ReleasedAll, Released, ColdDone;
  }

  lemma ColdInAccounted(r: Replica, sn: int, kind: ColdKind)
    requires Accounted(r, [])
    ensures Accounted(ColdIn(r, sn, kind), [])
  {
    hide ReleasedAll, Kept, Due, ColdIn, Taken;
    ColdInSplit(r, sn, kind);
    if kind.Immediate? || kind.BlobPart? {
      var r2 := Taken(r, sn, kind.Immediate? && kind.resyncEnd);
      var due := Released(r2.m, Some(sn));
      ColdDoneAccounted(r2, [], DoneWith(r2, sn), sn);
      assert [] + due == due;
      ReleaseAccounted(DoneWith(r2, sn), due);
    }
  }

  lemma FastInAccounted(r: Replica, msg: Message)
    requires Accounted(r, []) && msg.lane == FastLane
    ensures Accounted(FastIn(r, msg), [])
  {
    hide FastDone, Outruns;
    FastDoneFrame(ObservedOn(r.m, msg), msg.sn);
    FastDoneFrame(FastGapCleared(ObservedOn(r.m, msg)), msg.sn);
  }

  lemma StepAccounted(r: Replica, e: Event)
    requires Enabled(r, e) && Accounted(r, [])
    ensures Accounted(Step(r, e), [])
  {
    hide Accounted, FastIn, ColdIn, ReleasedAll, AppliedSome;
    match e {
      case Fast(msg) => FastInAccounted(r, msg);
      case Cold(sn, kind) => ColdInAccounted(r, sn, kind);
      case Batch(k) =>
        BatchAccounted(r, k);
        var (r1, due) := AppliedSome(r, k);
        ReleaseAccounted(r1, due);
    }
  }

  /** Over every run each fast message is dispatched exactly once or still parked, and a parked
      one waits for a cold seq not yet applied. */
  lemma {:induction false} NothingLost(coldBase: int, fastBase: int, es: seq<Event>)
    requires Legal(Start(coldBase, fastBase), es)
    ensures var r := Run(Start(coldBase, fastBase), es);
      && multiset(r.arrived) == multiset(r.dispatched) + multiset(r.m.parked)
      && forall p :: p in r.m.parked ==> p.after > r.m.coldApplied
  {
    RunAccounted(Start(coldBase, fastBase), es);
  }

  lemma {:induction false} RunAccounted(r: Replica, es: seq<Event>)
    requires Legal(r, es) && Accounted(r, [])
    ensures Accounted(Run(r, es), [])
  {
    hide Step, Enabled, Accounted;
    if es != [] {
      RunAccounted(r, es[..|es| - 1]);
      StepAccounted(Run(r, es[..|es| - 1]), es[|es| - 1]);
    }
  }

  // ---------------------------------------------- order per datablock ----

  /** The messages of one datablock. */
  function Of(ms: seq<Message>, u: Uuid): seq<Message> {
    if ms == [] then []
    else Of(ms[..|ms| - 1], u) + if ms[|ms| - 1].uuid == u then [ms[|ms| - 1]] else []
  }

  predicate StampsRise(ms: seq<Message>) {
    forall i, j :: 0 <= i < j < |ms| ==> ms[i].after <= ms[j].after
  }

  lemma {:induction false} OfAppend(a: seq<Message>, b: seq<Message>, u: Uuid)
    ensures Of(a + b, u) == Of(a, u) + Of(b, u)
  {
    if b == [] {
      assert a + b == a;
    } else {
      var front := b[..|b| - 1];
      OfAppend(a, front, u);
      assert (a + b)[..|a + b| - 1] == a + front;
    }
  }

  lemma OfSnoc(front: seq<Message>, last: Message, u: Uuid)
    ensures Of(front + [last], u) == Of(front, u) + if last.uuid == u then [last] else []
  {
    assert (front + [last])[..|front|] == front;
  }

  lemma FilterSnoc(front: seq<Message>, last: Message, c: int)
    ensures Due(front + [last], c) == if last.after <= c then Due(front, c) + [last] else Due(front, c)
    ensures Kept(front + [last], c) == if last.after > c then Kept(front, c) + [last] else Kept(front, c)
  {
    assert (front + [last])[..|front|] == front;
  }

  lemma Unsnoc(ms: seq<Message>) returns (front: seq<Message>, last: Message)
    requires ms != []
    ensures ms == front + [last] && |front| < |ms|
  {
    front, last := ms[..|ms| - 1], ms[|ms| - 1];
  }

  lemma {:induction false} AllDue(parked: seq<Message>, u: Uuid, c: int)
    requires forall m :: m in Of(parked, u) ==> m.after <= c
    ensures Of(Kept(parked, c), u) == [] && Of(Due(parked, c), u) == Of(parked, u)
    decreases |parked|
  {
    if parked != [] {
      hide Of, Due, Kept;
      var front, last := Unsnoc(parked);
      OfSnoc(front, last, u);
      FilterSnoc(front, last, c);
      OfSnoc(Due(front, c), last, u);
      OfSnoc(Kept(front, c), last, u);
      AllDue(front, u, c);
    }
  }

  /** With rising stamps, what becomes due of one datablock is the front of what is parked of it. */
  lemma {:induction false} DueIsPrefix(parked: seq<Message>, u: Uuid, c: int)
    requires StampsRise(Of(parked, u))
    ensures Of(Due(parked, c), u) + Of(Kept(parked, c), u) == Of(parked, u)
    decreases |parked|
  {
    if parked != [] {
      hide Of, Due, Kept, StampsRise;
      var front, last := Unsnoc(parked);
      OfSnoc(front, last, u);
      if last.uuid == u && last.after <= c {
        LastIsHighest(Of(front, u), last);
        AllDue(parked, u, c);
      } else {
        StampsRiseTail(Of(front, u), if last.uuid == u then [last] else []);
        DueIsPrefix(front, u, c);
        PrefixStep(front, last, u, c);
      }
    }
  }

  lemma PrefixStep(front: seq<Message>, last: Message, u: Uuid, c: int)
    requires Of(Due(front, c), u) + Of(Kept(front, c), u) == Of(front, u)
    requires !(last.uuid == u && last.after <= c)
    ensures Of(Due(front + [last], c), u) + Of(Kept(front + [last], c), u) == Of(front + [last], u)
  {
    hide Of, Due, Kept;
    OfSnoc(front, last, u);
    FilterSnoc(front, last, c);
    OfSnoc(Due(front, c), last, u);
    OfSnoc(Kept(front, c), last, u);
    assert Of(Due(front, c), u) + (Of(Kept(front, c), u) + [last]) == Of(front, u) + [last];
  }

  lemma LastIsHighest(front: seq<Message>, last: Message)
    requires StampsRise(front + [last])
    ensures forall m :: m in front ==> m.after <= last.after
  {
    forall m | m in front ensures m.after <= last.after {
      var i :| 0 <= i < |front| && front[i] == m;
      assert (front + [last])[i] == m && (front + [last])[|front|] == last;
    }
  }

  /** Dispatched, then due, then parked: together the arrivals of `u`, in order. */
  ghost predicate InOrder(r: Replica, due: seq<Message>, u: Uuid) {
    Of(r.dispatched, u) + (Of(due, u) + Of(r.m.parked, u)) == Of(r.arrived, u)
  }

  lemma StampsRiseTail(a: seq<Message>, b: seq<Message>)
    requires StampsRise(a + b)
    ensures StampsRise(a) && StampsRise(b)
  {
    assert forall i :: 0 <= i < |a| ==> (a + b)[i] == a[i];
    assert forall i :: 0 <= i < |b| ==> (a + b)[|a| + i] == b[i];
  }

  lemma ReleaseInOrder(r: Replica, due: seq<Message>, u: Uuid)
    requires InOrder(r, due, u)
    ensures InOrder(ReleasedAll(r, due), [], u)
  {
    hide ReleasedAll, Of;
    ReleaseFrame(r, due);
    OfAppend(r.dispatched, due, u);
    OfEmpty(u);
    assert (Of(r.dispatched, u) + Of(due, u)) + Of(r.m.parked, u) == Of(r.arrived, u);
  }

  lemma OfEmpty(u: Uuid)
    ensures Of([], u) == []
  {
  }

  lemma ColdDoneInOrder(r: Replica, due: seq<Message>, r1: Replica, sn: int, u: Uuid)
    requires InOrder(r, due, u) && StampsRise(Of(r.arrived, u))
    requires r1.arrived == r.arrived && r1.dispatched == r.dispatched
    requires r1.m.parked == Kept(r.m.parked, Raised(r.m, Some(sn)))
    ensures InOrder(r1, due + Released(r.m, Some(sn)), u)
  {
    hide Of, Kept, Due;
    StampsRiseTail(Of(r.dispatched, u), Of(due, u) + Of(r.m.parked, u));
    StampsRiseTail(Of(due, u), Of(r.m.parked, u));
    DueIsPrefix(r.m.parked, u, Raised(r.m, Some(sn)));
    OfAppend(due, Released(r.m, Some(sn)), u);
    assert (Of(due, u) + Of(Released(r.m, Some(sn)), u)) + Of(r1.m.parked, u) == Of(due, u) + Of(r.m.parked, u);
  }

  lemma {:induction false} BatchInOrder(r: Replica, k: nat, u: Uuid)
    requires InOrder(r, [], u) && StampsRise(Of(r.arrived, u)) && k <= |r.pending|
    ensures var (r1, due) := AppliedSome(r, k);
      InOrder(r1, due, u) && r1.arrived == r.arrived
  {
    hide Of, Kept, Due, InOrder;
    if k > 0 {
      BatchInOrder(r, k - 1, u);
      var (r1, due) := AppliedSome(r, k - 1);
      ColdDoneInOrder(r1, due, AppliedOne(r1), r1.pending[0].sn, u);
    }
  }

  /** Dispatching at once keeps the order: with rising stamps nothing of `u` can still be parked. */
  lemma FastInOrder(r: Replica, msg: Message, u: Uuid)
    requires msg.lane == FastLane && Accounted(r, []) && InOrder(r, [], u)
    requires StampsRise(Of(r.arrived + [msg], u))
    ensures InOrder(FastIn(r, msg), [], u)
  {
    hide FastDone, Outruns, Of, StampsRise;
    FastDoneFrame(ObservedOn(r.m, msg), msg.sn);
    FastDoneFrame(FastGapCleared(ObservedOn(r.m, msg)), msg.sn);
    OfEmpty(u);
    OfSnoc(r.arrived, msg, u);
    if Admissible(r.m, msg) {
      OfSnoc(r.dispatched, msg, u);
      if msg.uuid == u { NoneParked(r, msg, u); }
    } else {
      OfSnoc(r.m.parked, msg, u);
    }
  }

  lemma HasElement(ms: seq<Message>)
    ensures ms == [] || ms[0] in ms
  {
  }

  lemma NoneParked(r: Replica, msg: Message, u: Uuid)
    requires Accounted(r, []) && InOrder(r, [], u)
    requires msg.uuid == u && msg.after <= r.m.coldApplied && StampsRise(Of(r.arrived, u) + [msg])
    ensures Of(r.m.parked, u) == []
  {
    hide Of;
    OfEmpty(u);
    OfIn(r.m.parked, u);
    LastIsHighest(Of(r.arrived, u), msg);
    HasElement(Of(r.m.parked, u));
  }

  lemma {:induction false} OfIn(ms: seq<Message>, u: Uuid)
    ensures forall m :: m in Of(ms, u) ==> m in ms && m.uuid == u
  {
    if ms != [] { OfIn(ms[..|ms| - 1], u); }
  }

  lemma ColdInOrder(r: Replica, sn: int, kind: ColdKind, u: Uuid)
    requires InOrder(r, [], u) && StampsRise(Of(r.arrived, u))
    ensures InOrder(ColdIn(r, sn, kind), [], u)
  {
    hide ReleasedAll, Kept, Due, ColdIn, Taken, Of, InOrder, StampsRise;
    ColdInSplit(r, sn, kind);
    var r2 := Taken(r, sn, kind.Immediate? && kind.resyncEnd);
    InOrderSame(r, r2, [], u);
    if kind.Immediate? || kind.BlobPart? {
      var due := Released(r2.m, Some(sn));
      ColdDoneInOrder(r2, [], DoneWith(r2, sn), sn, u);
      assert [] + due == due;
      ReleaseInOrder(DoneWith(r2, sn), due, u);
    } else {
      InOrderSame(r, ColdIn(r, sn, kind), [], u);
    }
  }

  lemma StepInOrder(r: Replica, e: Event, u: Uuid)
    requires Enabled(r, e) && Accounted(r, []) && InOrder(r, [], u)
    requires StampsRise(Of(Step(r, e).arrived, u))
    ensures InOrder(Step(r, e), [], u)
  {
    hide FastIn, ColdIn, ReleasedAll, AppliedSome, Of, InOrder, StampsRise, Accounted;
    StepArrived(r, e);
    match e {
      case Fast(msg) => FastInOrder(r, msg, u);
      case Cold(sn, kind) =>
        assert r.arrived + [] == r.arrived;
        ColdInOrder(r, sn, kind, u);
      case Batch(k) =>
        assert r.arrived + [] == r.arrived;
        BatchInOrder(r, k, u);
        var (r1, due) := AppliedSome(r, k);
        ReleaseInOrder(r1, due, u);
    }
  }

  lemma FastArrived(r: Replica, msg: Message)
    ensures FastIn(r, msg).arrived == r.arrived + [msg]
  {
  }

  lemma {:induction false} BatchArrived(r: Replica, k: nat)
    requires k <= |r.pending|
    ensures AppliedSome(r, k).0.arrived == r.arrived
  {
    if k > 0 { BatchArrived(r, k - 1); }
  }

  lemma InOrderSame(r: Replica, n: Replica, due: seq<Message>, u: Uuid)
    requires InOrder(r, due, u)
    requires n.arrived == r.arrived && n.dispatched == r.dispatched && n.m.parked == r.m.parked
    ensures InOrder(n, due, u)
  {
  }

  lemma StepArrived(r: Replica, e: Event)
    requires Enabled(r, e)
    ensures Step(r, e).arrived == r.arrived + match e case Fast(msg) => [msg] case _ => []
  {
    hide ReleasedAll, ColdIn, AppliedSome, Taken, FastIn;
    match e {
      case Fast(msg) => FastArrived(r, msg);
      case Cold(sn, kind) =>
        ColdInSplit(r, sn, kind);
        var r2 := Taken(r, sn, kind.Immediate? && kind.resyncEnd);
        ReleaseFrame(DoneWith(r2, sn), Released(r2.m, Some(sn)));
      case Batch(k) =>
        BatchArrived(r, k);
        var (r1, due) := AppliedSome(r, k);
        ReleaseFrame(r1, due);
    }
  }

  /** If the stamps of a datablock never decrease along the fast lane, then for every
      interleaving of the lanes its messages are dispatched in send order: what is applied,
      then what is parked, is exactly what arrived. */
  lemma {:induction false} SendOrderKept(coldBase: int, fastBase: int, es: seq<Event>, u: Uuid)
    requires Legal(Start(coldBase, fastBase), es)
    requires StampsRise(Of(Run(Start(coldBase, fastBase), es).arrived, u))
    ensures var r := Run(Start(coldBase, fastBase), es);
      Of(r.dispatched, u) + Of(r.m.parked, u) == Of(r.arrived, u)
  {
    RunInOrder(Start(coldBase, fastBase), es, u);
    var r := Run(Start(coldBase, fastBase), es);
    assert Of([], u) + Of(r.m.parked, u) == Of(r.m.parked, u);
  }

  lemma {:induction false} RunInOrder(r: Replica, es: seq<Event>, u: Uuid)
    requires Legal(r, es) && Accounted(r, []) && InOrder(r, [], u)
    requires StampsRise(Of(Run(r, es).arrived, u))
    ensures InOrder(Run(r, es), [], u)
  {
    hide Step, Enabled, Accounted, InOrder, Of;
    if es != [] {
      var front, e := es[..|es| - 1], es[|es| - 1];
      var q := Run(r, front);
      StepArrived(q, e);
      var tail := match e case Fast(msg) => [msg] case _ => [];
      OfAppend(q.arrived, tail, u);
      StampsRiseTail(Of(q.arrived, u), Of(tail, u));
      RunInOrder(r, front, u);
      RunAccounted(r, front);
      StepInOrder(q, e, u);
    }
  }

  /** Rising stamps are needed: when the later of two messages of one datablock may go first,
      some interleaving applies it first. */
  lemma FallingStampsReorder(a: Message, b: Message, fastBase: int)
    requires a.lane == FastLane && b.lane == FastLane && a.sn.Some? && b.sn.Some?
    requires a.uuid == b.uuid && a.after > b.after
    ensures Legal(Start(b.after, fastBase), [Fast(a), Fast(b)])
    ensures var r := Run(Start(b.after, fastBase), [Fast(a), Fast(b)]);
      r.arrived == [a, b] && r.dispatched == [b] && r.m.parked == [a]
  {
    hide FastDone, Outruns;
    var s := Start(b.after, fastBase);
    assert [Fast(a), Fast(b)][..1] == [Fast(a)] && [Fast(a)][..0] == [];
    assert Legal(s, []) && Run(s, []) == s;
    assert Legal(s, [Fast(a)]) && Run(s, [Fast(a)]) == FastIn(s, a);
    var r1 := FastIn(s, a);
    assert r1.m.parked == [a] && r1.m.coldApplied == b.after;
    FastDoneFrame(ObservedOn(r1.m, b), b.sn);
    FastDoneFrame(FastGapCleared(ObservedOn(r1.m, b)), b.sn);
    assert Run(s, [Fast(a), Fast(b)]) == FastIn(r1, b);
  }
}
