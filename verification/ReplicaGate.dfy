/**
 * When the replica's gate holds: no fast message is applied before a received cold message it
 * must follow. It holds over a whole run exactly when no message is marked done at once while
 * a completed blob still waits (qcbridge/ring0/replica_apply.py:944-991).
 */
module ReplicaGate {
  import opened Wrappers
  import opened SeqTracking
  import opened Wire
  import opened LaneMerge
  import opened ReplicaApply

  /** `cold_applied` tells the truth: every received cold seq up to it has nothing left to apply. */
  predicate Truthful(r: Replica) {
    forall s :: s in r.received && s <= r.m.coldApplied ==> s in r.settled
  }

  predicate PendingSound(r: Replica, i: nat)
    requires i < |r.pending|
  {
    var p := r.pending[i];
    && p.sn in p.covers
    && (if p.boot then |r.pending| == 1 else p.covers == {p.sn})
    && forall s :: s in p.covers ==> s in r.received && r.m.coldApplied < s <= p.sn && s !in r.settled
  }

  predicate Covered(r: Replica, s: int) {
    exists i :: 0 <= i < |r.pending| && s in r.pending[i].covers
  }

  ghost predicate Honest(r: Replica) {
    && Truthful(r)
    && (forall i: nat :: i < |r.pending| ==> PendingSound(r, i))
    && (forall i, j :: 0 <= i < j < |r.pending| ==> r.pending[i].sn < r.pending[j].sn)
    && (forall s :: s in r.received ==> s in r.settled || Covered(r, s))
    && r.settled <= r.received
    && r.m.cold.lastSeen.Some? && r.m.coldApplied <= r.m.cold.lastSeen.value
    && (forall s :: s in r.received ==> s <= r.m.cold.lastSeen.value)
  }

  /** Everything `Honest` looks at is unchanged. */
  ghost predicate SameCold(r: Replica, n: Replica) {
    && n.pending == r.pending && n.received == r.received && n.settled == r.settled
    && n.m.coldApplied == r.m.coldApplied && n.m.cold.lastSeen == r.m.cold.lastSeen
  }

  lemma HonestSame(r: Replica, n: Replica)
    requires Honest(r) && SameCold(r, n)
    ensures Honest(n)
  {
    hide Truthful;
    assert Truthful(n) by { TruthfulSame(r, n); }
    forall i: nat | i < |n.pending| ensures PendingSound(n, i) { assert PendingSound(r, i); }
    forall s | s in n.received ensures s in n.settled || Covered(n, s) {
      assert s in r.settled || Covered(r, s);
    }
  }

  lemma TruthfulSame(r: Replica, n: Replica)
    requires Truthful(r) && SameCold(r, n)
    ensures Truthful(n)
  {
  }

  /** A released message whose stamp is reached outruns nothing while the mark tells the truth. */
  lemma {:induction false} ReleaseOnTime(r: Replica, due: seq<Message>)
    requires Truthful(r) && forall d :: d in due ==> d.after <= r.m.coldApplied
    ensures var n := ReleasedAll(r, due);
      n.early == r.early && SameCold(r, n)
  {
    hide FastDone;
    ReleaseFrame(r, due);
    if due != [] {
      var front := due[..|due| - 1];
      assert forall d :: d in front ==> d in due;
      ReleaseOnTime(r, front);
      ReleaseFrame(r, front);
      assert due[|due| - 1] in due;
    }
  }

  lemma FastHonest(r: Replica, msg: Message)
    requires Honest(r) && msg.lane == FastLane
    ensures Honest(FastIn(r, msg)) && FastIn(r, msg).early == r.early
  {
    hide FastDone, Honest;
    FastDoneFrame(ObservedOn(r.m, msg), msg.sn);
    FastDoneFrame(FastGapCleared(ObservedOn(r.m, msg)), msg.sn);
    HonestTruthful(r);
    HonestSame(r, FastIn(r, msg));
  }

  lemma HonestTruthful(r: Replica)
    requires Honest(r)
    ensures Truthful(r)
  {
  }

  lemma DueReached(parked: seq<Message>, c: int)
    ensures forall d :: d in Due(parked, c) ==> d.after <= c
  {
    SplitParked(parked, c);
  }

  /** With nothing waiting, marking `sn` done keeps the mark truthful. */
  lemma DoneHonest(r: Replica, sn: int, end: bool)
    requires Honest(r) && r.pending == [] && sn > r.m.cold.lastSeen.value
    ensures Honest(DoneWith(Taken(r, sn, end), sn))
  {
    hide Kept;
    var n := DoneWith(Taken(r, sn, end), sn);
    assert n.m.coldApplied == sn;
    forall s | s in n.received ensures s in n.settled {
      if s != sn { assert s in r.settled || Covered(r, s); }
    }
  }

  lemma ColdDoneHonest(r: Replica, sn: int, kind: ColdKind)
    requires Honest(r) && Enabled(r, Cold(sn, kind)) && (kind.Immediate? || kind.BlobPart?) && r.pending == []
    ensures Honest(ColdIn(r, sn, kind)) && ColdIn(r, sn, kind).early == r.early
  {
    hide Honest, ReleasedAll, Kept, Due, ColdIn, Taken;
    HonestSeen(r);
    ColdInSplit(r, sn, kind);
    var end := kind.Immediate? && kind.resyncEnd;
    var r2 := Taken(r, sn, end);
    DoneHonest(r, sn, end);
    HonestTruthful(DoneWith(r2, sn));
    DueReached(r2.m.parked, Raised(r2.m, Some(sn)));
    ReleaseOnTime(DoneWith(r2, sn), Released(r2.m, Some(sn)));
    HonestSame(DoneWith(r2, sn), ReleasedAll(DoneWith(r2, sn), Released(r2.m, Some(sn))));
  }

  lemma HonestSeen(r: Replica)
    requires Honest(r)
    ensures r.m.cold.lastSeen.Some? && r.m.coldApplied <= r.m.cold.lastSeen.value
  {
  }

  lemma BlobHonest(r: Replica, sn: int, kind: ColdKind)
    requires Honest(r) && Enabled(r, Cold(sn, kind)) && (kind.LibPart? || kind.BlobDone?)
    ensures Honest(ColdIn(r, sn, kind)) && ColdIn(r, sn, kind).early == r.early
  {
    var n := ColdIn(r, sn, kind);
    assert n.m.cold.lastSeen == Some(sn);
    assert sn !in r.received && sn !in r.settled;
    forall i: nat | i < |n.pending| ensures PendingSound(n, i) {
      if kind.BlobDone? && kind.boot {
        forall s | s in n.pending[i].covers
          ensures s in n.received && n.m.coldApplied < s <= n.pending[i].sn && s !in n.settled
        {
          if s != sn {
            var j, t :| 0 <= j < |r.pending| && t in r.pending[j].covers && t == s;
            assert PendingSound(r, j);
            assert s in r.received && s <= r.m.cold.lastSeen.value < sn;
          }
          assert n.pending[i].sn == sn;
        }
      } else if i < |r.pending| {
        assert PendingSound(r, i);
        assert !r.pending[i].boot;
      }
    }
    forall s | s in n.received ensures s in n.settled || Covered(n, s) {
      if s == sn {
        if kind.BlobDone? { assert s in n.pending[|n.pending| - 1].covers; }
      } else if s !in r.settled {
        assert Covered(r, s);
        var j :| 0 <= j < |r.pending| && s in r.pending[j].covers;
        if kind.BlobDone? && kind.boot { assert s in n.pending[0].covers; }
        else { assert s in n.pending[j].covers; }
      }
    }
    forall i, j | 0 <= i < j < |n.pending| ensures n.pending[i].sn < n.pending[j].sn {
      if j == |r.pending| { assert PendingSound(r, i); }
    }
  }

  lemma AppliedHonest(r: Replica)
    requires Honest(r) && r.pending != []
    ensures Honest(AppliedOne(r)) && AppliedOne(r).early == r.early
    ensures AppliedOne(r).m.coldApplied == r.pending[0].sn > r.m.coldApplied
  {
    hide Kept;
    var p, n := r.pending[0], AppliedOne(r);
    assert PendingSound(r, 0);
    assert p.covers <= r.received by {
      assert forall s :: s in p.covers ==> s in r.received;
    }
    forall i: nat | i < |n.pending| ensures PendingSound(n, i) {
      assert PendingSound(r, i + 1) && n.pending[i] == r.pending[i + 1];
    }
    forall s | s in n.received ensures s in n.settled || (Covered(n, s) && s > p.sn) {
      assert s in r.settled || Covered(r, s);
      if s !in n.settled {
        var j :| 0 <= j < |r.pending| && s in r.pending[j].covers;
        assert PendingSound(r, j);
        assert s in n.pending[j - 1].covers;
      }
    }
  }

  lemma {:induction false} BatchHonest(r: Replica, k: nat)
    requires Honest(r) && k <= |r.pending|
    ensures var (r1, due) := AppliedSome(r, k);
      Honest(r1) && r1.early == r.early && (forall d :: d in due ==> d.after <= r1.m.coldApplied)
  {
    hide Honest, Kept, Due;
    if k > 0 {
      BatchHonest(r, k - 1);
      var (r1, due) := AppliedSome(r, k - 1);
      AppliedHonest(r1);
      DueReached(r1.m.parked, Raised(r1.m, Some(r1.pending[0].sn)));
    }
  }

  /** Nothing is marked done at once while a completed blob waits. */
  predicate Quiet(r: Replica, e: Event) {
    e.Cold? && (e.kind.Immediate? || e.kind.BlobPart?) ==> r.pending == []
  }

  lemma StepHonest(r: Replica, e: Event)
    requires Honest(r) && Enabled(r, e) && Quiet(r, e)
    ensures Honest(Step(r, e)) && Step(r, e).early == r.early
  {
    hide Honest, FastIn, ColdIn, ReleasedAll, AppliedSome;
    match e {
      case Fast(msg) => FastHonest(r, msg);
      case Cold(sn, kind) =>
        if kind.Immediate? || kind.BlobPart? { ColdDoneHonest(r, sn, kind); } else { BlobHonest(r, sn, kind); }
      case Batch(k) =>
        BatchHonest(r, k);
        var (r1, due) := AppliedSome(r, k);
        HonestTruthful(r1);
        ReleaseOnTime(r1, due);
        HonestSame(r1, ReleasedAll(r1, due));
    }
  }

  ghost predicate QuietRun(r: Replica, es: seq<Event>)
    requires Legal(r, es)
  {
    es != [] ==> QuietRun(r, es[..|es| - 1]) && Quiet(Run(r, es[..|es| - 1]), es[|es| - 1])
  }

  lemma {:induction false} RunHonest(r: Replica, es: seq<Event>)
    requires Legal(r, es) && QuietRun(r, es) && Honest(r)
    ensures Honest(Run(r, es)) && Run(r, es).early == r.early
  {
    hide Step, Enabled, Honest, Quiet;
    if es != [] {
      RunHonest(r, es[..|es| - 1]);
      StepHonest(Run(r, es[..|es| - 1]), es[|es| - 1]);
    }
  }

  /** Over every quiet run no fast message is applied before a received cold message it must follow. */
  lemma GateHolds(coldBase: int, fastBase: int, es: seq<Event>)
    requires Legal(Start(coldBase, fastBase), es) && QuietRun(Start(coldBase, fastBase), es)
    ensures var r := Run(Start(coldBase, fastBase), es); r.early == [] && Truthful(r)
  {
    hide Step;
    RunHonest(Start(coldBase, fastBase), es);
  }

  /** And any cold message still to come is later than every stamp let through: `RunHonest` says
      every quiet run leads to such a replica. */
  lemma NothingComesLate(r: Replica, sn: int, kind: ColdKind)
    requires Honest(r) && Enabled(r, Cold(sn, kind))
    ensures sn > r.m.coldApplied
  {
  }

  /** The condition is exact: on a truthful replica, a message marked done at once keeps the
      mark truthful iff no completed blob is waiting. */
  lemma GateExact(r: Replica, sn: int, kind: ColdKind)
    requires Honest(r) && Enabled(r, Cold(sn, kind)) && (kind.Immediate? || kind.BlobPart?)
    ensures Truthful(ColdIn(r, sn, kind)) <==> r.pending == []
  {
    hide ReleasedAll, Kept, Due, ColdIn;
    if r.pending == [] {
      ColdDoneHonest(r, sn, kind);
    } else {
      ColdInSplit(r, sn, kind);
      var r2 := Taken(r, sn, kind.Immediate? && kind.resyncEnd);
      ReleaseFrame(DoneWith(r2, sn), Released(r2.m, Some(sn)));
      assert PendingSound(r, 0);
      assert r.pending[0].sn in ColdIn(r, sn, kind).received;
    }
  }

  /** And the harm is real: a fast message naming the waiting blob, which would have been
      parked, is then applied at once, ahead of that blob. */
  lemma EarlyRelease(r: Replica, sn: int, kind: ColdKind, msg: Message)
    requires Honest(r) && Enabled(r, Cold(sn, kind)) && (kind.Immediate? || kind.BlobPart?) && r.pending != []
    requires msg.lane == FastLane && msg.sn.Some? && msg.after == r.pending[0].sn
    ensures !Admissible(r.m, msg)
    ensures var n := FastIn(ColdIn(r, sn, kind), msg);
      && n.dispatched == ColdIn(r, sn, kind).dispatched + [msg]
      && n.early == ColdIn(r, sn, kind).early + [msg]
  {
    hide ReleasedAll, Kept, Due, ColdIn, FastDone;
    ColdInSplit(r, sn, kind);
    var r2 := Taken(r, sn, kind.Immediate? && kind.resyncEnd);
    ReleaseFrame(DoneWith(r2, sn), Released(r2.m, Some(sn)));
    assert PendingSound(r, 0);
    var c := ColdIn(r, sn, kind);
    assert msg.after in c.received && msg.after !in c.settled;
    assert Outruns(c.(m := Parked(ObservedOn(c.m, msg), msg), arrived := c.arrived + [msg]), msg);
  }

  // ------------------------------------------- what the pong may claim ----

  function Sns(ms: seq<Message>): set<int> {
    set m | m in ms && m.sn.Some? :: m.sn.value
  }

  /** No event that jumps the applied mark: no repair's end on the fast lane, no bootstrap. */
  predicate Plain(e: Event) {
    match e
    case Fast(msg) => !msg.body.ResyncEnd?
    case Cold(_, kind) => kind.BlobDone? ==> !kind.boot
    case Batch(_) => true
  }

  ghost predicate Marked(r: Replica, base: int) {
    && ExactMark(r.m.fastApplied, r.m.fastDone, base, Sns(r.dispatched))
    && (forall m :: m in r.arrived ==> m.sn.Some? && m.sn.value > base && !m.body.ResyncEnd?)
    && (forall m :: m in r.dispatched ==> m in r.arrived)
    && (forall p :: p in r.pending ==> !p.boot)
  }

  lemma SnsAppend(ms: seq<Message>, msg: Message)
    requires msg.sn.Some?
    ensures Sns(ms + [msg]) == Sns(ms) + {msg.sn.value}
  {
    assert msg in ms + [msg];
    assert forall m :: m in ms ==> m in ms + [msg];
  }

  lemma DispatchMarked(r: Replica, msg: Message, base: int)
    requires Marked(r, base) && msg in r.arrived
    ensures Marked(Dispatched(r, msg), base)
  {
    hide FastDone, ExactMark;
    SnsAppend(r.dispatched, msg);
    FastDoneExact(r.m, msg.sn.value, base, Sns(r.dispatched));
  }

  lemma {:induction false} ReleaseMarked(r: Replica, due: seq<Message>, base: int)
    requires Marked(r, base) && forall d :: d in due ==> d in r.arrived
    ensures Marked(ReleasedAll(r, due), base)
  {
    hide FastDone, Marked, Dispatched;
    if due != [] {
      var front := due[..|due| - 1];
      assert forall d :: d in front ==> d in due;
      ReleaseMarked(r, front, base);
      ReleaseFrame(r, front);
      assert due[|due| - 1] in due;
      DispatchMarked(ReleasedAll(r, front), due[|due| - 1], base);
    }
  }

  /** Everything `Marked` looks at is unchanged, but blobs may have left or joined the queue. */
  lemma MarkedSame(r: Replica, n: Replica, base: int)
    requires Marked(r, base)
    requires n.m.fastApplied == r.m.fastApplied && n.m.fastDone == r.m.fastDone
    requires n.dispatched == r.dispatched && n.arrived == r.arrived
    requires forall p :: p in n.pending ==> !p.boot
    ensures Marked(n, base)
  {
  }

  lemma {:induction false} BatchMarked(r: Replica, k: nat, base: int)
    requires Marked(r, base) && k <= |r.pending|
    ensures var (r1, due) := AppliedSome(r, k);
      && Marked(r1, base) && r1.arrived == r.arrived
      && (forall m :: m in due || m in r1.m.parked ==> m in r.m.parked)
  {
    hide Marked, Kept, Due;
    if k > 0 {
      BatchMarked(r, k - 1, base);
      var (r1, due) := AppliedSome(r, k - 1);
      NoBoot(r1, base);
      SplitParked(r1.m.parked, Raised(r1.m, Some(r1.pending[0].sn)));
      MarkedSame(r1, AppliedOne(r1), base);
    }
  }

  lemma NoBoot(r: Replica, base: int)
    requires Marked(r, base)
    ensures forall p :: p in r.pending ==> !p.boot
  {
  }

  lemma StepMarked(r: Replica, e: Event, base: int)
    requires Enabled(r, e) && Plain(e) && Marked(r, base) && Accounted(r, [])
    requires e.Fast? ==> e.msg.sn.value > base
    ensures Marked(Step(r, e), base)
  {
    hide FastDone, Marked, ReleasedAll, Kept, Due, ColdIn, AppliedSome, Taken;
    NoBoot(r, base);
    AccountedIn(r);
    match e {
      case Fast(msg) =>
        var m := ObservedOn(r.m, msg);
        var r1 := r.(m := Parked(m, msg), arrived := r.arrived + [msg]);
        MarkedArrival(r, r1, msg, base);
        if Admissible(m, msg) { DispatchMarked(r1, msg, base); }
      case Cold(sn, kind) =>
        ColdInSplit(r, sn, kind);
        if kind.Immediate? || kind.BlobPart? {
          var r2 := Taken(r, sn, kind.Immediate? && kind.resyncEnd);
          var due := Released(r2.m, Some(sn));
          SplitParked(r2.m.parked, Raised(r2.m, Some(sn)));
          MarkedSame(r, DoneWith(r2, sn), base);
          ReleaseMarked(DoneWith(r2, sn), due, base);
        } else {
          NoBootIn(r, sn, kind);
          MarkedSame(r, ColdIn(r, sn, kind), base);
        }
      case Batch(k) =>
        BatchMarked(r, k, base);
        var (r1, due) := AppliedSome(r, k);
        ReleaseMarked(r1, due, base);
    }
  }

  lemma AccountedIn(r: Replica)
    requires Accounted(r, [])
    ensures forall m :: m in r.m.parked ==> m in r.arrived
  {
    assert forall m :: m in r.m.parked ==> m in multiset(r.arrived);
  }

  lemma MarkedArrival(r: Replica, n: Replica, msg: Message, base: int)
    requires Marked(r, base) && msg.sn.Some? && msg.sn.value > base && !msg.body.ResyncEnd?
    requires n.m.fastApplied == r.m.fastApplied && n.m.fastDone == r.m.fastDone
    requires n.dispatched == r.dispatched && n.arrived == r.arrived + [msg] && n.pending == r.pending
    ensures Marked(n, base) && msg in n.arrived
  {
    hide ExactMark;
  }

  lemma NoBootIn(r: Replica, sn: int, kind: ColdKind)
    requires (forall p :: p in r.pending ==> !p.boot) && !(kind.BlobDone? && kind.boot)
    requires kind.LibPart? || kind.BlobDone?
    ensures forall p :: p in ColdIn(r, sn, kind).pending ==> !p.boot
    ensures ColdIn(r, sn, kind).m.fastApplied == r.m.fastApplied && ColdIn(r, sn, kind).m.fastDone == r.m.fastDone
  {
  }

  ghost predicate PlainRun(es: seq<Event>, base: int) {
    forall i :: 0 <= i < |es| ==> Plain(es[i]) && (es[i].Fast? && es[i].msg.sn.Some? ==> es[i].msg.sn.value > base)
  }

  /** `fast_applied`, as the pong reports it, is exact: the largest k such that every fast seq
      from the session's baseline to k has been applied, parked releases included. */
  lemma {:induction false} PongIsExact(coldBase: int, fastBase: int, es: seq<Event>)
    requires Legal(Start(coldBase, fastBase), es) && PlainRun(es, fastBase)
    ensures Marked(Run(Start(coldBase, fastBase), es), fastBase)
  {
    hide Step, Marked;
    if es == [] {
      StartMarked(coldBase, fastBase);
    } else {
      var front := es[..|es| - 1];
      assert forall i :: 0 <= i < |front| ==> front[i] == es[i];
      PongIsExact(coldBase, fastBase, front);
      RunAccounted(Start(coldBase, fastBase), front);
      assert Plain(es[|es| - 1]);
      StepMarked(Run(Start(coldBase, fastBase), front), es[|es| - 1], fastBase);
    }
  }

  lemma StartMarked(coldBase: int, fastBase: int)
    ensures Marked(Start(coldBase, fastBase), fastBase)
  {
  }

  /** Nothing seen lies above the last seq, and no seq came twice. */
  ghost predicate Tallied(r: Replica) {
    && r.m.fast.lastSeen.Some? && r.m.fastApplied <= r.m.fast.lastSeen.value
    && (forall s :: s in r.m.fastDone ==> s <= r.m.fast.lastSeen.value)
    && (forall m :: m in r.arrived ==> m.sn.Some? && m.sn.value <= r.m.fast.lastSeen.value)
    && (forall m :: m in r.m.parked || m in r.dispatched ==> m in r.arrived)
    && (forall p, d :: p in r.m.parked && d in r.dispatched ==> p.sn != d.sn)
  }

  /** The pong claims only what has been applied: nothing that arrived, at or below the mark, is
      still to come. */
  ghost predicate ClaimSound(r: Replica) {
    forall m :: m in r.arrived && m.sn.Some? && m.sn.value <= r.m.fastApplied ==> m.sn.value in Sns(r.dispatched)
  }

  lemma EndStep(r: Replica, msg: Message, x: int)
    requires Tallied(r) && Admissible(r.m, msg) && msg.lane == FastLane && msg.body.ResyncEnd?
    requires msg.sn == Some(x) && x > r.m.fast.lastSeen.value
    ensures var n := FastIn(r, msg);
      && n.m.fastApplied == x && n.m.fastDone == {} && n.m.parked == r.m.parked
      && n.dispatched == r.dispatched + [msg] && n.arrived == r.arrived + [msg]
  {
    hide Outruns;
  }

  /** A repair's end on the fast lane moves the mark up to itself, over what is still parked: the pong
      stays truthful exactly if nothing is. Its stamp is 0, so nothing parks it behind the others. */
  lemma EndJumpsExactly(r: Replica, msg: Message, x: int)
    requires Accounted(r, []) && Tallied(r) && Admissible(r.m, msg) && msg.lane == FastLane && msg.body.ResyncEnd?
    requires msg.sn == Some(x) && x > r.m.fast.lastSeen.value
    ensures FastIn(r, msg).m.fastApplied == x && FastIn(r, msg).m.fastDone == {}
    ensures ClaimSound(FastIn(r, msg)) <==> r.m.parked == []
  {
    hide FastIn;
    EndStep(r, msg, x);
    var n := FastIn(r, msg);
    SnsAppend(r.dispatched, msg);
    if r.m.parked == [] {
      forall m | m in n.arrived ensures m.sn.Some? && m.sn.value in Sns(n.dispatched) {
        if m != msg { assert m in multiset(r.arrived); }
      }
    } else {
      var p := r.m.parked[0];
      assert p in r.m.parked && p in n.arrived;
    }
  }

  // ------------------------------------- what every run keeps of the tally ----

  /** The last seq seen is the baseline or one that arrived. */
  ghost predicate SeenOf(arrived: seq<Message>, base: int, last: int) {
    last == base || exists m :: m in arrived && m.sn == Some(last)
  }

  /** The applied mark, what is applied above it, the last seq: in that order, for all that arrived. */
  ghost predicate Topped(r: Replica, base: int) {
    && r.m.fast.lastSeen.Some? && r.m.fastApplied <= r.m.fast.lastSeen.value
    && (forall s :: s in r.m.fastDone ==> r.m.fastApplied < s <= r.m.fast.lastSeen.value)
    && (forall m :: m in r.arrived ==> m.sn.Some? && m.sn.value <= r.m.fast.lastSeen.value)
    && SeenOf(r.arrived, base, r.m.fast.lastSeen.value)
  }

  lemma {:induction false} AdvanceBelow(k: int, done: set<int>, top: int)
    requires k <= top && forall s :: s in done ==> k < s <= top
    ensures var (n, rest) := Advance(k, done); n <= top && forall s :: s in rest ==> n < s <= top
    decreases |done|
  {
    if k + 1 in done { AdvanceBelow(k + 1, done - {k + 1}, top); }
  }

  lemma ClearedTopped(r: Replica, base: int)
    requires Topped(r, base)
    ensures Topped(r.(m := FastGapCleared(r.m)), base)
  {
  }

  lemma DoneTopped(r: Replica, sn: int, base: int)
    requires Topped(r, base) && sn <= r.m.fast.lastSeen.value
    ensures Topped(r.(m := FastDone(r.m, Some(sn))), base)
  {
    hide Advance;
    if sn > r.m.fastApplied { AdvanceBelow(r.m.fastApplied, r.m.fastDone + {sn}, r.m.fast.lastSeen.value); }
  }

  lemma DispatchTopped(r: Replica, msg: Message, base: int)
    requires Topped(r, base) && msg in r.arrived
    ensures Topped(Dispatched(r, msg), base)
  {
    hide FastDone, Outruns;
    var r1 := if msg.body.ResyncEnd? then r.(m := FastGapCleared(r.m)) else r;
    if msg.body.ResyncEnd? { ClearedTopped(r, base); }
    DoneTopped(r1, msg.sn.value, base);
  }

  lemma {:induction false} ReleaseTopped(r: Replica, due: seq<Message>, base: int)
    requires Topped(r, base) && forall d :: d in due ==> d in r.arrived
    ensures Topped(ReleasedAll(r, due), base)
  {
    hide Topped, Dispatched;
    if due != [] {
      var front := due[..|due| - 1];
      assert forall d :: d in front ==> d in due;
      ReleaseTopped(r, front, base);
      ReleaseFrame(r, front);
      assert due[|due| - 1] in due;
      DispatchTopped(ReleasedAll(r, front), due[|due| - 1], base);
    }
  }

  /** Everything `Topped` looks at is unchanged. */
  lemma ToppedSame(r: Replica, n: Replica, base: int)
    requires Topped(r, base) && n.m.fast == r.m.fast && n.arrived == r.arrived
    requires n.m.fastApplied == r.m.fastApplied && n.m.fastDone == r.m.fastDone
    ensures Topped(n, base)
  {
  }

  lemma AppliedTopped(r: Replica, base: int)
    requires Topped(r, base) && r.pending != []
    ensures Topped(AppliedOne(r), base)
  {
    hide Kept;
    if r.pending[0].boot { ClearedTopped(r, base); }
  }

  lemma {:induction false} BatchTopped(r: Replica, k: nat, base: int)
    requires Topped(r, base) && k <= |r.pending|
    ensures var (r1, due) := AppliedSome(r, k);
      && Topped(r1, base) && r1.arrived == r.arrived
      && (forall m :: m in due || m in r1.m.parked ==> m in r.m.parked)
  {
    hide Topped, Kept, Due;
    if k > 0 {
      BatchTopped(r, k - 1, base);
      var (r1, due) := AppliedSome(r, k - 1);
      SplitParked(r1.m.parked, Raised(r1.m, Some(r1.pending[0].sn)));
      AppliedTopped(r1, base);
    }
  }

  lemma FastTopped(r: Replica, msg: Message, base: int)
    requires Topped(r, base) && msg.lane == FastLane && msg.sn.Some?
    ensures Topped(FastIn(r, msg), base)
  {
    hide FastDone, Dispatched;
    var m := ObservedOn(r.m, msg);
    var r1 := r.(m := Parked(m, msg), arrived := r.arrived + [msg]);
    assert Topped(r1, base);
    if Admissible(m, msg) { DispatchTopped(r1, msg, base); }
  }

  lemma StepTopped(r: Replica, e: Event, base: int)
    requires Enabled(r, e) && Topped(r, base) && Accounted(r, [])
    ensures Topped(Step(r, e), base)
  {
    hide FastDone, Topped, ReleasedAll, Kept, Due, ColdIn, AppliedSome, Taken, FastIn;
    AccountedIn(r);
    match e {
      case Fast(msg) => FastTopped(r, msg, base);
      case Cold(sn, kind) =>
        ColdInSplit(r, sn, kind);
        if kind.Immediate? || kind.BlobPart? {
          var r2 := Taken(r, sn, kind.Immediate? && kind.resyncEnd);
          var due := Released(r2.m, Some(sn));
          SplitParked(r2.m.parked, Raised(r2.m, Some(sn)));
          ToppedSame(r, DoneWith(r2, sn), base);
          ReleaseTopped(DoneWith(r2, sn), due, base);
        } else {
          ToppedSame(r, ColdIn(r, sn, kind), base);
        }
      case Batch(k) =>
        BatchTopped(r, k, base);
        var (r1, due) := AppliedSome(r, k);
        ReleaseTopped(r1, due, base);
    }
  }

  lemma {:induction false} RunTopped(coldBase: int, fastBase: int, es: seq<Event>)
    requires Legal(Start(coldBase, fastBase), es)
    ensures Topped(Run(Start(coldBase, fastBase), es), fastBase) && Accounted(Run(Start(coldBase, fastBase), es), [])
  {
    hide Step, Enabled, Topped, Accounted;
    if es == [] {
      StartTopped(coldBase, fastBase);
    } else {
      var front := es[..|es| - 1];
      RunTopped(coldBase, fastBase, front);
      StepTopped(Run(Start(coldBase, fastBase), front), es[|es| - 1], fastBase);
      StepAccounted(Run(Start(coldBase, fastBase), front), es[|es| - 1]);
    }
  }

  lemma StartTopped(coldBase: int, fastBase: int)
    ensures Topped(Start(coldBase, fastBase), fastBase) && Accounted(Start(coldBase, fastBase), [])
  {
  }

  /** The host numbers its fast lane upwards, and a lane keeps its order. */
  predicate FastClimbs(ms: seq<Message>) {
    && (forall m :: m in ms ==> m.sn.Some?)
    && forall i, j :: 0 <= i < j < |ms| ==> ms[i].sn.value < ms[j].sn.value
  }

  lemma {:induction false} ClimbsOnce(ms: seq<Message>, m: Message)
    requires FastClimbs(ms)
    ensures multiset(ms)[m] <= 1
  {
    if ms != [] {
      var front, last := ms[..|ms| - 1], ms[|ms| - 1];
      assert ms == front + [last];
      assert forall x :: x in front ==> x in ms;
      ClimbsOnce(front, m);
      assert last !in front by {
        forall i | 0 <= i < |front| ensures front[i] != last { assert front[i] == ms[i]; }
      }
    }
  }

  lemma ParkedApart(r: Replica, p: Message, d: Message)
    requires Accounted(r, []) && FastClimbs(r.arrived) && p in r.m.parked && d in r.dispatched
    ensures p.sn != d.sn
  {
    ClimbsOnce(r.arrived, p);
    assert p in multiset(r.arrived) && d in multiset(r.arrived) && p in multiset(r.m.parked);
    assert p != d;
    SameNumber(r.arrived, p, d);
  }

  lemma SameNumber(ms: seq<Message>, p: Message, d: Message)
    requires FastClimbs(ms) && p in ms && d in ms && p != d
    ensures p.sn != d.sn
  {
    var i :| 0 <= i < |ms| && ms[i] == p;
    var j :| 0 <= j < |ms| && ms[j] == d;
  }

  lemma RunTallied(coldBase: int, fastBase: int, es: seq<Event>)
    requires Legal(Start(coldBase, fastBase), es) && FastClimbs(Run(Start(coldBase, fastBase), es).arrived)
    ensures Tallied(Run(Start(coldBase, fastBase), es)) && Accounted(Run(Start(coldBase, fastBase), es), [])
  {
    hide Run, Legal;
    RunTopped(coldBase, fastBase, es);
    var r := Run(Start(coldBase, fastBase), es);
    forall p, d | p in r.m.parked && d in r.dispatched ensures p.sn != d.sn { ParkedApart(r, p, d); }
    assert forall m :: m in r.m.parked || m in r.dispatched ==> m in multiset(r.arrived);
  }

  lemma BeyondAll(arrived: seq<Message>, msg: Message, base: int, last: int)
    requires FastClimbs(arrived + [msg]) && msg.sn.value > base && SeenOf(arrived, base, last)
    ensures FastClimbs(arrived) && msg.sn.value > last
  {
    var all := arrived + [msg];
    assert forall i :: 0 <= i < |arrived| ==> all[i] == arrived[i];
    assert msg in all && all[|arrived|] == msg;
    assert forall m :: m in arrived ==> m in all;
  }

  /** Over every run of a fast lane numbered upwards: the pong sent right after a repair's end
      is truthful iff nothing was parked when the end arrived. */
  lemma EndJumpsOverRuns(coldBase: int, fastBase: int, es: seq<Event>, msg: Message)
    requires Legal(Start(coldBase, fastBase), es) && msg.lane == FastLane && msg.body.ResyncEnd?
    requires FastClimbs(Run(Start(coldBase, fastBase), es).arrived + [msg])
    requires msg.sn.Some? && msg.sn.value > fastBase && Admissible(Run(Start(coldBase, fastBase), es).m, msg)
    ensures Legal(Start(coldBase, fastBase), es + [Fast(msg)])
    ensures var r, n := Run(Start(coldBase, fastBase), es), Run(Start(coldBase, fastBase), es + [Fast(msg)]);
      && Some(n.m.fastApplied) == msg.sn && (ClaimSound(n) <==> r.m.parked == [])
  {
    var r := Run(Start(coldBase, fastBase), es);
    assert (es + [Fast(msg)])[..|es|] == es;
    hide FastIn, ClaimSound, Tallied, Topped, SeenOf, FastClimbs, Accounted;
    RunTopped(coldBase, fastBase, es);
    SeenBefore(r, fastBase);
    BeyondAll(r.arrived, msg, fastBase, r.m.fast.lastSeen.value);
    RunTallied(coldBase, fastBase, es);
    EndJumpsExactly(r, msg, msg.sn.value);
  }

  lemma SeenBefore(r: Replica, base: int)
    requires Topped(r, base)
    ensures r.m.fast.lastSeen.Some? && SeenOf(r.arrived, base, r.m.fast.lastSeen.value)
  {
  }

  /** It happens: a delta that waits for cold message 5, then a repair's end. */
  lemma PongRunsAhead(waits: Message, end: Message)
    requires waits.lane == FastLane && waits.sn == Some(1) && waits.after == 5 && !waits.body.ResyncEnd?
    requires end.lane == FastLane && end.sn == Some(2) && end.after == 0 && end.body.ResyncEnd?
    ensures Legal(Start(0, 0), [Fast(waits), Fast(end)])
    ensures var r := Run(Start(0, 0), [Fast(waits), Fast(end)]);
      r.m.fastApplied == 2 && r.m.parked == [waits] && r.dispatched == [end]
  {
    hide Outruns;
    var s := Start(0, 0);
    assert [Fast(waits), Fast(end)][..1] == [Fast(waits)] && [Fast(waits)][..0] == [];
    assert Legal(s, []) && Run(s, []) == s;
    var r := FastIn(s, waits);
    assert Legal(s, [Fast(waits)]) && Run(s, [Fast(waits)]) == r;
    assert r.m.parked == [waits] && r.m.fast == Track(Some(1), 0, None) && r.arrived == [waits];
    EndStep(r, end, 2);
    assert Run(s, [Fast(waits), Fast(end)]) == FastIn(r, end);
  }
}
