/**
 * In what order a replica applies what the two lanes bring (qcbridge/ring0/replica_apply.py):
 * the log of a run of `ReplicaApply`, fast messages and completed blobs together.
 */
module TwoLanes {
  import opened Wrappers
  import opened Wire
  import opened LaneMerge
  import opened ReplicaApply
  import opened ReplicaGate

  datatype Act = DidFast(msg: Message) | DidBlob(sn: int)

  function Fasts(ms: seq<Message>): seq<Act> {
    seq(|ms|, i requires 0 <= i < |ms| => DidFast(ms[i]))
  }

  function Blobs(ps: seq<Pending>): seq<Act> {
    seq(|ps|, i requires 0 <= i < |ps| => DidBlob(ps[i].sn))
  }

  /** What one step applies, in order. */
  function ActsOf(r: Replica, e: Event): seq<Act>
    requires Enabled(r, e)
  {
    match e
    case Fast(msg) => if Admissible(ObservedOn(r.m, msg), msg) then [DidFast(msg)] else []
    case Cold(sn, kind) => if kind.Immediate? || kind.BlobPart? then Fasts(Released(r.m, Some(sn))) else []
    case Batch(k) => Blobs(r.pending[..k]) + Fasts(AppliedSome(r, k).1)
  }

  ghost function LogOf(r: Replica, es: seq<Event>): seq<Act>
    requires Legal(r, es)
  {
    if es == [] then []
    else LogOf(r, es[..|es| - 1]) + ActsOf(Run(r, es[..|es| - 1]), es[|es| - 1])
  }

  function FastsIn(log: seq<Act>): seq<Message> {
    if log == [] then []
    else
      var rest, a := FastsIn(log[..|log| - 1]), log[|log| - 1];
      if a.DidFast? then rest + [a.msg] else rest
  }

  function BlobsIn(log: seq<Act>): seq<int> {
    if log == [] then []
    else
      var rest, a := BlobsIn(log[..|log| - 1]), log[|log| - 1];
      if a.DidBlob? then rest + [a.sn] else rest
  }

  lemma EmptyLog()
    ensures FastsIn([]) == [] && BlobsIn([]) == []
  {
  }

  lemma {:induction false} InAppend(a: seq<Act>, b: seq<Act>)
    ensures FastsIn(a + b) == FastsIn(a) + FastsIn(b)
    ensures BlobsIn(a + b) == BlobsIn(a) + BlobsIn(b)
  {
    if b == [] {
      assert a + b == a;
    } else {
      var front, x := b[..|b| - 1], b[|b| - 1];
      assert a + b == (a + front) + [x] && (a + b)[..|a + b| - 1] == a + front;
      InAppend(a, front);
    }
  }

  lemma {:induction false} InFasts(ms: seq<Message>)
    ensures FastsIn(Fasts(ms)) == ms && BlobsIn(Fasts(ms)) == []
  {
    if ms != [] {
      var front := ms[..|ms| - 1];
      assert Fasts(ms)[..|ms| - 1] == Fasts(front) && ms == front + [ms[|ms| - 1]];
      InFasts(front);
    }
  }

  function Sns(ps: seq<Pending>): seq<int> {
    seq(|ps|, i requires 0 <= i < |ps| => ps[i].sn)
  }

  lemma {:induction false} InBlobs(ps: seq<Pending>)
    ensures FastsIn(Blobs(ps)) == [] && BlobsIn(Blobs(ps)) == Sns(ps)
  {
    if ps != [] {
      var front := ps[..|ps| - 1];
      assert Blobs(ps)[..|ps| - 1] == Blobs(front) && Sns(ps) == Sns(front) + [ps[|ps| - 1].sn];
      InBlobs(front);
    }
  }

  // ------------------------------------------- the log and the state ----

  lemma BatchPieces(r: Replica, k: nat)
    requires k <= |r.pending|
    ensures var (r1, due) := AppliedSome(r, k);
      && r1.dispatched == r.dispatched && r1.arrived == r.arrived && r1.pending == r.pending[k..]
  {
    BatchArrived(r, k);
    BatchFrame(r, k);
  }

  lemma {:induction false} BatchFrame(r: Replica, k: nat)
    requires k <= |r.pending|
    ensures AppliedSome(r, k).0.dispatched == r.dispatched
  {
    if k > 0 { BatchFrame(r, k - 1); }
  }

  /** The fast messages of a step's acts are what it dispatched. */
  lemma StepFasts(r: Replica, e: Event)
    requires Enabled(r, e)
    ensures Step(r, e).dispatched == r.dispatched + FastsIn(ActsOf(r, e))
  {
    hide FastDone, Outruns, ReleasedAll, Kept, Due, AppliedSome;
    match e {
      case Fast(msg) =>
        FastDoneFrame(ObservedOn(r.m, msg), msg.sn);
        FastDoneFrame(FastGapCleared(ObservedOn(r.m, msg)), msg.sn);
        assert FastsIn([DidFast(msg)]) == FastsIn([]) + [msg];
      case Cold(sn, kind) =>
        ColdInSplit(r, sn, kind);
        if kind.Immediate? || kind.BlobPart? {
          var r2 := Taken(r, sn, kind.Immediate? && kind.resyncEnd);
          ReleaseFrame(DoneWith(r2, sn), Released(r2.m, Some(sn)));
          InFasts(Released(r.m, Some(sn)));
        }
      case Batch(k) =>
        BatchPieces(r, k);
        var (r1, due) := AppliedSome(r, k);
        ReleaseFrame(r1, due);
        InBlobs(r.pending[..k]);
        InFasts(due);
        InAppend(Blobs(r.pending[..k]), Fasts(due));
        assert [] + due == due;
    }
  }

  /** The cold numbers of the blobs a run completed, in order. */
  function Completed(es: seq<Event>): seq<int> {
    if es == [] then []
    else
      Completed(es[..|es| - 1]) + Finished(es[|es| - 1])
  }

  predicate NoBoots(es: seq<Event>) {
    forall i :: 0 <= i < |es| && es[i].Cold? && es[i].kind.BlobDone? ==> !es[i].kind.boot
  }

  /** What a step adds to the completed blobs. */
  function Finished(e: Event): seq<int> {
    if e.Cold? && e.kind.BlobDone? then [e.sn] else []
  }

  /** Blobs leave the queue for the log in the order they completed. */
  lemma StepBlobs(r: Replica, e: Event)
    requires Enabled(r, e) && (e.Cold? && e.kind.BlobDone? ==> !e.kind.boot)
    ensures BlobsIn(ActsOf(r, e)) + Sns(Step(r, e).pending) == Sns(r.pending) + Finished(e)
  {
    hide ReleasedAll, Kept, Due, AppliedSome, FastIn, ColdIn, BatchApplied;
    match e {
      case Fast(msg) => FastBlobs(r, msg);
      case Cold(sn, kind) => ColdBlobs(r, sn, kind);
      case Batch(k) => BatchBlobs(r, k);
    }
  }

  lemma FastBlobs(r: Replica, msg: Message)
    requires Enabled(r, Fast(msg))
    ensures BlobsIn(ActsOf(r, Fast(msg))) == [] && FastIn(r, msg).pending == r.pending
  {
    hide FastDone, Outruns, FastGapCleared, ObservedOn;
    assert BlobsIn([DidFast(msg)]) == BlobsIn([]);
  }

  lemma ColdBlobs(r: Replica, sn: int, kind: ColdKind)
    requires Enabled(r, Cold(sn, kind)) && (kind.BlobDone? ==> !kind.boot)
    ensures BlobsIn(ActsOf(r, Cold(sn, kind))) == []
    ensures Sns(ColdIn(r, sn, kind).pending) == Sns(r.pending) + Finished(Cold(sn, kind))
  {
    hide ReleasedAll, Kept, Due, FastsIn, BlobsIn;
    ColdInSplit(r, sn, kind);
    if kind.Immediate? || kind.BlobPart? {
      var r2 := Taken(r, sn, kind.Immediate? && kind.resyncEnd);
      ReleaseFrame(DoneWith(r2, sn), Released(r2.m, Some(sn)));
      InFasts(Released(r.m, Some(sn)));
    } else {
      EmptyLog();
    }
  }

  lemma BatchBlobs(r: Replica, k: nat)
    requires Enabled(r, Batch(k))
    ensures BlobsIn(ActsOf(r, Batch(k))) + Sns(BatchApplied(r, k).pending) == Sns(r.pending)
  {
    hide ReleasedAll, Kept, Due, AppliedSome, FastsIn, BlobsIn;
    BatchPieces(r, k);
    var (r1, due) := AppliedSome(r, k);
    ReleaseFrame(r1, due);
    InBlobs(r.pending[..k]);
    InFasts(due);
    InAppend(Blobs(r.pending[..k]), Fasts(due));
    assert r.pending == r.pending[..k] + r.pending[k..];
  }

  /** A run's log holds exactly what was dispatched, in that order, and the completed blobs in
      theirs, but for those still waiting. */
  lemma {:induction false} LogIsRun(r: Replica, es: seq<Event>)
    requires Legal(r, es) && NoBoots(es)
    ensures Run(r, es).dispatched == r.dispatched + FastsIn(LogOf(r, es))
    ensures BlobsIn(LogOf(r, es)) + Sns(Run(r, es).pending) == Sns(r.pending) + Completed(es)
  {
    hide Step, Enabled, ActsOf, FastsIn, BlobsIn, Sns, Finished;
    if es == [] {
      EmptyLog();
    } else {
      var front, e := es[..|es| - 1], es[|es| - 1];
      LogIsRun(r, front);
      var q := Run(r, front);
      StepFasts(q, e);
      assert e == es[|es| - 1];
      StepBlobs(q, e);
      InAppend(LogOf(r, front), ActsOf(q, e));
      Regroup(r.dispatched, FastsIn(LogOf(r, front)), FastsIn(ActsOf(q, e)));
      Regroup(BlobsIn(LogOf(r, front)), BlobsIn(ActsOf(q, e)), Sns(Step(q, e).pending));
      Regroup(BlobsIn(LogOf(r, front)), Sns(q.pending), Finished(e));
      Regroup(Sns(r.pending), Completed(front), Finished(e));
    }
  }

  lemma Regroup<T>(a: seq<T>, b: seq<T>, c: seq<T>)
    ensures (a + b) + c == a + (b + c)
  {
  }

  // -------------------------------------------------- the gate, logged ----

  /** No fast message is applied before a blob it must follow. */
  ghost predicate Gated(log: seq<Act>) {
    forall i, j :: 0 <= i < j < |log| && log[i].DidFast? && log[j].DidBlob? ==> log[i].msg.after < log[j].sn
  }

  /** Everything dispatched has its stamp reached. */
  predicate StampsReached(r: Replica) {
    forall m :: m in r.dispatched ==> m.after <= r.m.coldApplied
  }

  lemma GatedAppend(log: seq<Act>, acts: seq<Act>, mark: int)
    requires Gated(log) && forall m :: m in FastsIn(log) ==> m.after <= mark
    requires Gated(acts) && forall j :: 0 <= j < |acts| && acts[j].DidBlob? ==> acts[j].sn > mark
    ensures Gated(log + acts)
  {
    var all := log + acts;
    forall i, j | 0 <= i < j < |all| && all[i].DidFast? && all[j].DidBlob? ensures all[i].msg.after < all[j].sn {
      if i < |log| && j >= |log| {
        FastIsIn(log, i);
        assert acts[j - |log|] == all[j];
      } else if i >= |log| {
        assert acts[i - |log|] == all[i] && acts[j - |log|] == all[j];
      }
    }
  }

  lemma {:induction false} FastIsIn(log: seq<Act>, i: nat)
    requires i < |log| && log[i].DidFast?
    ensures log[i].msg in FastsIn(log)
  {
    if i < |log| - 1 { FastIsIn(log[..|log| - 1], i); }
  }

  /** Batches apply their blobs before what they release. */
  lemma ActsGated(r: Replica, e: Event)
    requires Enabled(r, e) && Honest(r)
    ensures Gated(ActsOf(r, e))
    ensures forall j :: 0 <= j < |ActsOf(r, e)| && ActsOf(r, e)[j].DidBlob? ==> ActsOf(r, e)[j].sn > r.m.coldApplied
  {
    hide Due, Kept, AppliedSome, Truthful;
    if e.Batch? {
      forall i: nat | i < |r.pending| ensures r.pending[i].sn > r.m.coldApplied {
        assert PendingSound(r, i);
      }
    }
  }

  lemma StepStamps(r: Replica, e: Event)
    requires Enabled(r, e) && Honest(r) && StampsReached(r)
    ensures StampsReached(Step(r, e)) && r.m.coldApplied <= Step(r, e).m.coldApplied
  {
    hide FastDone, Outruns, ReleasedAll, Kept, Due, AppliedSome, Honest;
    match e {
      case Fast(msg) =>
        FastDoneFrame(ObservedOn(r.m, msg), msg.sn);
        FastDoneFrame(FastGapCleared(ObservedOn(r.m, msg)), msg.sn);
      case Cold(sn, kind) =>
        ColdInSplit(r, sn, kind);
        if kind.Immediate? || kind.BlobPart? {
          var r2 := Taken(r, sn, kind.Immediate? && kind.resyncEnd);
          ReleaseFrame(DoneWith(r2, sn), Released(r2.m, Some(sn)));
          DueReached(r2.m.parked, Raised(r2.m, Some(sn)));
        }
      case Batch(k) =>
        BatchPieces(r, k);
        BatchHonest(r, k);
        BatchRises(r, k);
        var (r1, due) := AppliedSome(r, k);
        ReleaseFrame(r1, due);
    }
  }

  lemma {:induction false} BatchRises(r: Replica, k: nat)
    requires k <= |r.pending|
    ensures r.m.coldApplied <= AppliedSome(r, k).0.m.coldApplied
  {
    if k > 0 { BatchRises(r, k - 1); }
  }

  /** Over a quiet run the log is gated. */
  lemma {:induction false} LogGated(r: Replica, es: seq<Event>)
    requires Legal(r, es) && QuietRun(r, es) && NoBoots(es) && Honest(r) && r.dispatched == []
    ensures Gated(LogOf(r, es)) && StampsReached(Run(r, es))
  {
    hide Step, Enabled, ActsOf, Honest, Quiet, Gated;
    if es == [] {
      EmptyGated();
    } else {
      var front, e := es[..|es| - 1], es[|es| - 1];
      LogGated(r, front);
      RunHonest(r, front);
      LogIsRun(r, front);
      StepStamps(Run(r, front), e);
      ActsGated(Run(r, front), e);
      GatedAppend(LogOf(r, front), ActsOf(Run(r, front), e), Run(r, front).m.coldApplied);
    }
  }

  lemma EmptyGated()
    ensures Gated([])
  {
  }

  /** A run grows by one event. */
  ghost predicate Grown(r: Replica, es: seq<Event>, log: seq<Act>) {
    Legal(r, es) && QuietRun(r, es) && LogOf(r, es) == log
  }

  lemma Grows(r: Replica, es: seq<Event>, log: seq<Act>, e: Event)
    requires Grown(r, es, log) && Enabled(Run(r, es), e) && Quiet(Run(r, es), e)
    ensures Grown(r, es + [e], log + ActsOf(Run(r, es), e))
    ensures Run(r, es + [e]) == Step(Run(r, es), e)
  {
    hide Step, Enabled, Quiet, ActsOf;
    assert (es + [e])[..|es + [e]| - 1] == es;
  }
}
