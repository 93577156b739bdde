/**
 * Fast-lane repair over whole runs of both lanes (qcbridge/ring0/host_handlers.py:
 * resend_fast_window, _drain_fast_resend, _send_t1_full): messages are lost, a hole is
 * reported, every datablock logged from the hole on is re-asserted while edits go on.
 */
module RepairRuns {
  import opened Wrappers
  import opened Wire
  import opened AtStates
  import opened SeqTracking
  import opened FastLogs
  import opened LaneMerge
  import opened ReplicaApply
  import opened ReplicaGate
  import opened TwoLanes
  import opened Convergence
  import FastRepair

  function At(s: Scene, u: Uuid): Option<Registers> {
    if u in s then Some(s[u]) else None
  }

  /** A message that says something of its datablock. */
  predicate Tells(m: Message) {
    m.body.Delta? || m.body.Tombstone?
  }

  /** A re-assert's entry carries every register the host has at that moment, or is a tombstone. */
  ghost predicate Sound(s: Scene, h: seq<Out>) {
    forall i :: 0 <= i < |h| && h[i].Again? ==>
      var m := h[i].m;
      Tells(m) && (m.body.Delta? ==> HostReg(At(s, m.uuid), h[..i], m.uuid) == Some(m.body.changes))
  }

  /** The last word on `u` since its last blob includes a re-assert's tombstone. */
  predicate Revived(h: seq<Out>, lost: set<int>, u: Uuid) {
    if h == [] then false
    else
      var o, was := h[|h| - 1], Revived(h[..|h| - 1], lost, u);
      match o
      case Shipped(x, _, _) => x != u && was
      case Again(m) => was || (m.uuid == u && m.body.Tombstone? && Arrives(o, lost))
      case Said(_) => was
  }

  /** Since the last loss on `u` the replica was sent all of it. */
  predicate Clean(h: seq<Out>, lost: set<int>, u: Uuid) {
    if h == [] then true
    else
      var o, was := h[|h| - 1], Clean(h[..|h| - 1], lost, u);
      match o
      case Shipped(x, _, _) => x == u || was
      case Again(m) => was || (m.uuid == u && Arrives(o, lost))
      case Said(m) => was && (m.uuid == u && Tells(m) ==> Arrives(o, lost))
  }

  // ------------------------------------------------- in send order ----

  /** What the replica may lack of `u`, applying in send order. */
  ghost predicate Tracks(host: Option<Registers>, rep: Option<Registers>, revived: bool, clean: bool) {
    && (revived ==> rep.None?)
    && (!revived && host.Some? ==> rep.Some? && rep.value.Keys <= host.value.Keys)
    && (clean && !revived ==> rep == host)
  }

  lemma StepTracks(host: Option<Registers>, rep: Option<Registers>, revived: bool, clean: bool, m: Message)
    requires Tracks(host, rep, revived, clean)
    ensures Tracks(Wrote(host, m), Wrote(rep, m), revived, clean)
    ensures Tracks(Wrote(host, m), rep, revived, clean && !Tells(m))
    ensures m.body.Delta? && host == Some(m.body.changes) ==> Tracks(host, Wrote(rep, m), revived, true)
    ensures m.body.Tombstone? ==> Tracks(host, Wrote(rep, m), true, true)
  {
    if m.body.Delta? && host == Some(m.body.changes) && !revived {
      assert rep.value + m.body.changes == m.body.changes;
    }
  }

  lemma SoundFront(s: Scene, h: seq<Out>)
    requires Sound(s, h) && h != []
    ensures Sound(s, h[..|h| - 1])
  {
    var front := h[..|h| - 1];
    forall i | 0 <= i < |front| && front[i].Again?
      ensures var m := front[i].m;
        Tells(m) && (m.body.Delta? ==> HostReg(At(s, m.uuid), front[..i], m.uuid) == Some(m.body.changes))
    {
      assert front[i] == h[i] && front[..i] == h[..i];
    }
  }

  /** By the yardstick of `SentOrder`, a replica never lacks a datablock the host has nor holds a path
      it has not and, once clean, equals it, but for a datablock that a re-assert's tombstone took. */
  lemma {:induction false} OrderedTracks(s: Scene, h: seq<Out>, lost: set<int>, u: Uuid)
    requires Sound(s, h)
    ensures Tracks(HostReg(At(s, u), h, u), SentOrder(At(s, u), h, lost, u), Revived(h, lost, u), Clean(h, lost, u))
  {
    hide Tracks, Wrote, Sound, Arrives;
    if h == [] {
      StartTracks(s, u);
    } else {
      var front, o := h[..|h| - 1], h[|h| - 1];
      SoundFront(s, h);
      OrderedTracks(s, front, lost, u);
      ShipTracks(o);
      if o.Again? { LastSound(s, h); }
      ArrivesFast(o, lost);
      if !o.Shipped? && o.m.uuid == u {
        StepTracks(HostReg(At(s, u), front, u), SentOrder(At(s, u), front, lost, u),
                   Revived(front, lost, u), Clean(front, lost, u), o.m);
      }
    }
  }

  lemma StartTracks(s: Scene, u: Uuid)
    ensures Tracks(At(s, u), At(s, u), false, true)
  {
  }

  lemma ShipTracks(o: Out)
    ensures o.Shipped? ==> Tracks(Some(o.cargo.regs), Some(o.cargo.regs), false, true)
  {
  }

  lemma LastSound(s: Scene, h: seq<Out>)
    requires Sound(s, h) && h != [] && h[|h| - 1].Again?
    ensures Tells(h[|h| - 1].m)
    ensures var m := h[|h| - 1].m;
      m.body.Delta? ==> HostReg(At(s, m.uuid), h[..|h| - 1], m.uuid) == Some(m.body.changes)
  {
  }

  lemma ArrivesFast(o: Out, lost: set<int>)
    ensures Arrives(o, lost) ==> !o.Shipped?
  {
  }

  // ---------------------------------------------- the hole and the log ----

  /** The numbers the fast lane hands out, in order. */
  function Numbers(h: seq<Out>): seq<int> {
    if h == [] then []
    else
      var rest, o := Numbers(h[..|h| - 1]), h[|h| - 1];
      if !o.Shipped? && o.m.sn.Some? then rest + [o.m.sn.value] else rest
  }

  /** Every fast message has a number, and they climb from the session's baseline. */
  ghost predicate Numbered(base: int, h: seq<Out>) {
    && (forall i :: 0 <= i < |h| && !h[i].Shipped? ==> h[i].m.sn.Some?)
    && Climbs([base] + Numbers(h))
  }

  /** What the host's log records: each delta and tombstone that left, re-asserts included. */
  function Logged(h: seq<Out>): seq<Entry> {
    if h == [] then []
    else
      var rest, o := Logged(h[..|h| - 1]), h[|h| - 1];
      if !o.Shipped? && Tells(o.m) && o.m.sn.Some?
      then rest + [Entry(o.m.sn.value, o.m.uuid, if o.m.body.Tombstone? then Tomb else T1)] else rest
  }

  lemma {:induction false} LoggedRises(h: seq<Out>)
    requires Climbs(Numbers(h))
    ensures Rising(Logged(h)) && forall e :: e in Logged(h) ==> e.sn in Numbers(h)
  {
    hide Climbs;
    if h != [] {
      var front, o := h[..|h| - 1], h[|h| - 1];
      if !o.Shipped? && o.m.sn.Some? { ClimbsFront(Numbers(front), o.m.sn.value); }
      LoggedRises(front);
    }
  }

  lemma {:induction false} LoggedNames(h: seq<Out>, i: nat, g: int)
    requires i < |h| && !h[i].Shipped? && Tells(h[i].m) && h[i].m.sn.Some? && h[i].m.sn.value >= g
    ensures LastKind(Logged(h), g, h[i].m.uuid).Some?
  {
    var front, o := h[..|h| - 1], h[|h| - 1];
    if !o.Shipped? && Tells(o.m) && o.m.sn.Some? {
      assert Logged(h)[..|Logged(h)| - 1] == Logged(front);
    }
    if i < |front| { LoggedNames(front, i, g); }
  }

  function Saws(ms: seq<Message>): seq<Op> {
    if ms == [] then []
    else
      var rest, m := Saws(ms[..|ms| - 1]), ms[|ms| - 1];
      if m.sn.Some? then rest + [Saw(m.sn.value)] else rest
  }

  // ------------------------------------------- the replica's tracker ----

  predicate NoEnd(ms: seq<Message>) {
    forall m :: m in ms ==> !m.body.ResyncEnd?
  }

  predicate NoBootWaits(r: Replica) {
    forall p :: p in r.pending ==> !p.boot
  }

  lemma {:induction false} ReleaseTrack(r: Replica, due: seq<Message>)
    requires NoEnd(due)
    ensures ReleasedAll(r, due).m.fast == r.m.fast
  {
    hide FastDone, Outruns;
    if due != [] {
      var front := due[..|due| - 1];
      assert forall d :: d in front ==> d in due;
      ReleaseTrack(r, front);
      assert due[|due| - 1] in due;
      FastDoneFrame(ReleasedAll(r, front).m, due[|due| - 1].sn);
    }
  }

  lemma {:induction false} BatchTrack(r: Replica, k: nat)
    requires k <= |r.pending| && NoBootWaits(r)
    ensures var (r1, due) := AppliedSome(r, k);
      && r1.m.fast == r.m.fast && NoBootWaits(r1)
      && (forall m :: m in due || m in r1.m.parked ==> m in r.m.parked)
  {
    hide Kept, Due;
    if k > 0 {
      BatchTrack(r, k - 1);
      var (r1, due) := AppliedSome(r, k - 1);
      SplitParked(r1.m.parked, Raised(r1.m, Some(r1.pending[0].sn)));
      assert r1.pending[0] in r1.pending;
    }
  }

  lemma StepTrack(r: Replica, e: Event)
    requires Enabled(r, e) && Accounted(r, []) && NoBootWaits(r) && NoEnd(Step(r, e).arrived)
    requires e.Cold? && e.kind.BlobDone? ==> !e.kind.boot
    ensures NoBootWaits(Step(r, e))
    ensures Step(r, e).m.fast == if e.Fast? then Observed(r.m.fast, e.msg.sn.value) else r.m.fast
  {
    hide FastDone, Outruns, ReleasedAll, Kept, Due, AppliedSome, Accounted;
    StepArrived(r, e);
    AccountedIn(r);
    match e {
      case Fast(msg) =>
        FastDoneFrame(ObservedOn(r.m, msg), msg.sn);
        assert msg in r.arrived + [msg];
      case Cold(sn, kind) =>
        ColdInSplit(r, sn, kind);
        var r2 := Taken(r, sn, kind.Immediate? && kind.resyncEnd);
        if kind.Immediate? || kind.BlobPart? {
          SplitParked(r2.m.parked, Raised(r2.m, Some(sn)));
          ReleaseFrame(DoneWith(r2, sn), Released(r2.m, Some(sn)));
          ReleaseTrack(DoneWith(r2, sn), Released(r2.m, Some(sn)));
        }
      case Batch(k) =>
        BatchTrack(r, k);
        var (r1, due) := AppliedSome(r, k);
        ReleaseFrame(r1, due);
        ReleaseTrack(r1, due);
    }
  }

  /** Until a repair ends, the fast tracker has seen just what arrived. */
  lemma {:induction false} TrackerIs(coldBase: int, fastBase: int, es: seq<Event>)
    requires Legal(Start(coldBase, fastBase), es) && NoBoots(es)
    requires NoEnd(Run(Start(coldBase, fastBase), es).arrived)
    ensures var r := Run(Start(coldBase, fastBase), es);
      NoBootWaits(r) && r.m.fast == After(Track(Some(fastBase), 0, None), Saws(r.arrived))
  {
    hide Step, Enabled, Accounted, NoEnd, NoBootWaits, Observed;
    var s := Start(coldBase, fastBase);
    if es == [] {
      NobodyWaits(s);
    } else {
      var front, e := es[..|es| - 1], es[|es| - 1];
      var q := Run(s, front);
      StepArrived(q, e);
      NoEndFront(q.arrived, if e.Fast? then [e.msg] else []);
      TrackerIs(coldBase, fastBase, front);
      StartAccounted(coldBase, fastBase);
      RunAccounted(s, front);
      if e.Fast? { FastHasNumber(q, e); }
      assert e == es[|es| - 1];
      StepTrack(q, e);
      if e.Fast? { SawsSnoc(q.arrived, e.msg, Track(Some(fastBase), 0, None)); }
      else { assert q.arrived + [] == q.arrived; }
    }
  }

  lemma StartAccounted(coldBase: int, fastBase: int)
    ensures Accounted(Start(coldBase, fastBase), [])
  {
  }

  lemma FastHasNumber(r: Replica, e: Event)
    requires Enabled(r, e) && e.Fast?
    ensures e.msg.sn.Some?
  {
  }

  lemma NobodyWaits(r: Replica)
    requires r.pending == []
    ensures NoBootWaits(r)
  {
  }

  lemma NoEndFront(a: seq<Message>, b: seq<Message>)
    requires NoEnd(a + b)
    ensures NoEnd(a)
  {
    assert forall m :: m in a ==> m in a + b;
  }

  lemma SawsSnoc(ms: seq<Message>, m: Message, t: Track)
    ensures Saws(ms + [m]) == if m.sn.Some? then Saws(ms) + [Saw(m.sn.value)] else Saws(ms)
    ensures m.sn.Some? ==> After(t, Saws(ms + [m])) == Observed(After(t, Saws(ms)), m.sn.value)
  {
    assert (ms + [m])[..|ms|] == ms;
    if m.sn.Some? {
      assert (Saws(ms) + [Saw(m.sn.value)])[..|Saws(ms)|] == Saws(ms);
    }
  }

  /** What has arrived so far is the front of all that ever does. */
  lemma {:induction false} ArrivedSoFar(r: Replica, es: seq<Event>, n: nat)
    requires Legal(r, es) && n <= |es|
    ensures Legal(r, es[..n]) && Run(r, es[..n]).arrived <= Run(r, es).arrived
  {
    hide Step, Enabled;
    if n == |es| {
      assert es[..n] == es;
    } else {
      var front := es[..|es| - 1];
      ArrivedSoFar(r, front, n);
      assert front[..n] == es[..n];
      StepArrived(Run(r, front), es[|es| - 1]);
    }
  }

  // --------------------------------------------- every loss is at the hole ----

  lemma SawsFrom(a: seq<Message>, b: seq<Message>)
    requires a <= b
    ensures Saws(a) <= Saws(b)
    decreases |b|
  {
    if |a| < |b| {
      SawsFrom(a, b[..|b| - 1]);
    }
  }

  lemma {:induction false} FrontIncreases(base: int, a: seq<Op>, b: seq<Op>)
    requires a <= b && Increasing(base, b)
    ensures Increasing(base, a)
    decreases |b|
  {
    if |a| < |b| {
      FrontIncreases(base, a, b[..|b| - 1]);
    } else {
      assert a == b;
    }
  }

  /** Ops so far, all seen, climbing from the baseline, none of them lost. */
  ghost predicate Climbing(base: int, ops: seq<Op>, nums: seq<int>, lost: set<int>) {
    && Increasing(base, ops) && (Newest(base, ops) == base || Newest(base, ops) in nums)
    && lost !! Seen(ops) && (forall i :: 0 <= i < |ops| ==> ops[i].Saw?)
  }

  lemma SawNext(base: int, ops: seq<Op>, nums: seq<int>, lost: set<int>, x: int)
    requires Climbing(base, ops, nums, lost) && Climbs([base] + (nums + [x]))
    ensures Climbing(base, ops, nums + [x], lost)
    ensures x !in lost ==> Climbing(base, ops + [Saw(x)], nums + [x], lost)
  {
    hide Climbs;
    assert [base] + (nums + [x]) == ([base] + nums) + [x];
    ClimbsFront([base] + nums, x);
    assert base in [base] + nums && Newest(base, ops) in [base] + nums;
    assert (ops + [Saw(x)])[..|ops|] == ops;
  }

  lemma ClimbsLess(base: int, nums: seq<int>, x: int)
    requires Climbs([base] + (nums + [x]))
    ensures Climbs([base] + nums)
  {
    hide Climbs;
    assert [base] + (nums + [x]) == ([base] + nums) + [x];
    ClimbsFront([base] + nums, x);
  }

  /** What arrives climbs, and leaves out the lost. */
  lemma {:induction false} ArrivalsClimb(base: int, h: seq<Out>, lost: set<int>)
    requires Climbs([base] + Numbers(h))
    ensures Climbing(base, Saws(Arrivals(h, lost)), Numbers(h), lost)
  {
    hide Climbs, Climbing, Saws;
    if h == [] {
      NothingClimbing(base, lost);
    } else {
      var front, o := h[..|h| - 1], h[|h| - 1];
      if !o.Shipped? {
        SawsSnoc(Arrivals(front, lost), o.m, Track(None, 0, None));
        if o.m.sn.Some? { ClimbsLess(base, Numbers(front), o.m.sn.value); }
      }
      ArrivalsClimb(base, front, lost);
      if !o.Shipped? && o.m.sn.Some? {
        SawNext(base, Saws(Arrivals(front, lost)), Numbers(front), lost, o.m.sn.value);
      }
    }
  }

  lemma NothingClimbing(base: int, lost: set<int>)
    ensures Climbing(base, Saws([]), [], lost)
  {
  }

  lemma {:induction false} SeenFront(a: seq<Op>, b: seq<Op>)
    requires a <= b
    ensures Seen(a) <= Seen(b)
    decreases |b|
  {
    if |a| < |b| {
      SeenFront(a, b[..|b| - 1]);
    } else {
      assert a == b;
    }
  }

  /** At some moment, no repair having ended yet, the replica reports a hole at `g`. */
  ghost predicate Reported(coldBase: int, fastBase: int, es: seq<Event>, n: nat, g: int) {
    && n <= |es| && Legal(Start(coldBase, fastBase), es[..n])
    && var r := Run(Start(coldBase, fastBase), es[..n]);
       NoEnd(r.arrived) && r.m.fast.firstMissing == Some(g)
  }

  /** The hole the replica reports, at any moment before a repair ends, is at or before every loss. */
  lemma HoleBeforeLosses(coldBase: int, fastBase: int, es: seq<Event>, h: seq<Out>, lost: set<int>, n: nat, g: int)
    requires Brought(coldBase, fastBase, es, h, lost) && Numbered(fastBase, h)
    requires Reported(coldBase, fastBase, es, n, g)
    ensures forall x :: x in lost && x in Numbers(h) ==> x >= g
  {
    hide Run, Arrivals, Numbers, Saws, Increasing, Seen, After, NoEnd, Climbs;
    var s := Start(coldBase, fastBase);
    ArrivedSoFar(s, es, n);
    assert forall i :: 0 <= i < n ==> es[..n][i] == es[i];
    TrackerIs(coldBase, fastBase, es[..n]);
    var all, some := Saws(Arrivals(h, lost)), Saws(Run(s, es[..n]).arrived);
    ArrivalsClimb(fastBase, h, lost);
    SawsFrom(Run(s, es[..n]).arrived, Arrivals(h, lost));
    FrontIncreases(fastBase, some, all);
    SeenFront(some, all);
    NumbersAbove(fastBase, h);
    var gone := set x | x in lost && x in Numbers(h);
    assert forall i :: 0 <= i < |some| ==> some[i] == all[i];
    FastRepair.HoleIsFirstLoss(fastBase, some, gone, g);
    forall x | x in lost && x in Numbers(h) ensures x >= g { assert x in gone; }
  }

  lemma NumbersAbove(base: int, h: seq<Out>)
    requires Climbs([base] + Numbers(h))
    ensures Climbs(Numbers(h)) && forall x :: x in Numbers(h) ==> x > base
  {
    var all := [base] + Numbers(h);
    forall i | 0 <= i < |Numbers(h)| ensures Numbers(h)[i] > base { assert all[0] == base && all[i + 1] == Numbers(h)[i]; }
    forall i, j | 0 <= i < j < |Numbers(h)| ensures Numbers(h)[i] < Numbers(h)[j] {
      assert all[i + 1] < all[j + 1];
    }
  }

  // ------------------------------------------------- clean in the end ----

  /** Nothing after the window was taken is lost. */
  predicate LostOnlyBefore(h: seq<Out>, lost: set<int>, w: nat) {
    forall i :: w <= i < |h| && !h[i].Shipped? ==> Arrives(h[i], lost)
  }

  /** Each datablock the window names is re-asserted after it was taken. */
  predicate Answered(h: seq<Out>, w: nat, window: Window) {
    forall u :: u in window.kinds ==> exists f :: w <= f < |h| && h[f].Again? && h[f].m.uuid == u
  }

  lemma {:induction false} CleanIfHeard(h: seq<Out>, lost: set<int>, u: Uuid)
    requires forall i :: 0 <= i < |h| && h[i].Said? && h[i].m.uuid == u && Tells(h[i].m) ==> Arrives(h[i], lost)
    ensures Clean(h, lost, u)
  {
    hide Arrives, Tells;
    if h != [] {
      var front := h[..|h| - 1];
      assert forall i :: 0 <= i < |front| ==> front[i] == h[i];
      CleanIfHeard(front, lost, u);
      assert h[|h| - 1].Said? ==> h[|h| - 1] == h[|h| - 1];
    }
  }

  lemma {:induction false} CleanOnceAnswered(h: seq<Out>, lost: set<int>, u: Uuid, f: nat)
    requires f < |h| && h[f].Again? && h[f].m.uuid == u && LostOnlyBefore(h, lost, f)
    ensures Clean(h, lost, u)
  {
    hide Arrives, Tells;
    var front := h[..|h| - 1];
    assert Arrives(h[f], lost);
    if f < |front| {
      assert forall i :: 0 <= i < |front| ==> front[i] == h[i];
      CleanOnceAnswered(front, lost, u, f);
      assert !h[|h| - 1].Shipped? ==> Arrives(h[|h| - 1], lost);
    }
  }

  lemma {:induction false} NumberIn(h: seq<Out>, i: nat)
    requires i < |h| && !h[i].Shipped? && h[i].m.sn.Some?
    ensures h[i].m.sn.value in Numbers(h)
  {
    if i < |h| - 1 { NumberIn(h[..|h| - 1], i); }
  }

  /** A datablock the window does not name has lost nothing. */
  lemma UnnamedClean(h: seq<Out>, lost: set<int>, w: nat, g: int, u: Uuid)
    requires w <= |h| && LostOnlyBefore(h, lost, w)
    requires forall x :: x in lost && x in Numbers(h) ==> x >= g
    requires LastKind(Logged(h[..w]), g, u) == None
    ensures Clean(h, lost, u)
  {
    hide Clean, Logged, LastKind, Numbers;
    forall i | 0 <= i < |h| && h[i].Said? && h[i].m.uuid == u && Tells(h[i].m) ensures Arrives(h[i], lost) {
      if !Arrives(h[i], lost) {
        NumberIn(h, i);
        assert h[..w][i] == h[i];
        LoggedNames(h[..w], i, g);
        assert false;
      }
    }
    CleanIfHeard(h, lost, u);
  }

  /** The window of the bounded log from a hole it covers was re-asserted, and nothing was lost
      once it had been taken, when `w` messages had left. */
  ghost predicate Reasserted(h: seq<Out>, lost: set<int>, w: nat, g: int, capacity: nat) {
    && w <= |h| && LostOnlyBefore(h, lost, w)
    && var kept := Remembered(Logged(h[..w]), capacity);
       FastLogs.Covered(kept, g) && Answered(h, w, WindowOf(kept, g))
  }

  /** The repair, in send order: each datablock is clean once the window has been re-asserted. */
  lemma RepairCleans(fastBase: int, h: seq<Out>, lost: set<int>, w: nat, g: int, capacity: nat, u: Uuid)
    requires Numbered(fastBase, h) && Reasserted(h, lost, w, g, capacity)
    requires forall x :: x in lost && x in Numbers(h) ==> x >= g
    ensures Clean(h, lost, u)
  {
    hide Clean, Logged, LastKind, Numbers, WindowOf, Remembered, FastLogs.Covered, LostOnlyBefore, Climbs;
    NumbersAbove(fastBase, h);
    NumbersFront(h, w);
    LoggedRises(h[..w]);
    CoveredWindowComplete(Logged(h[..w]), capacity, g);
    WindowMeans(Logged(h[..w]), g);
    var window := WindowOf(Logged(h[..w]), g);
    if u in window.kinds {
      var f :| w <= f < |h| && h[f].Again? && h[f].m.uuid == u;
      LostLater(h, lost, w, f);
      CleanOnceAnswered(h, lost, u, f);
    } else {
      UnnamedClean(h, lost, w, g, u);
    }
  }

  lemma LostLater(h: seq<Out>, lost: set<int>, w: nat, f: nat)
    requires LostOnlyBefore(h, lost, w) && w <= f
    ensures LostOnlyBefore(h, lost, f)
  {
  }

  lemma {:induction false} NumbersFront(h: seq<Out>, w: nat)
    requires w <= |h| && Climbs(Numbers(h))
    ensures Climbs(Numbers(h[..w]))
    decreases |h|
  {
    hide Climbs;
    if w == |h| {
      assert h[..w] == h;
    } else {
      var front, o := h[..|h| - 1], h[|h| - 1];
      if !o.Shipped? && o.m.sn.Some? { ClimbsFront(Numbers(front), o.m.sn.value); }
      assert front[..w] == h[..w];
      NumbersFront(front, w);
    }
  }

  // ------------------------------------------------------ convergence ----

  /** The whole setting: a run of both lanes that ends at rest, and a repair in it. */
  ghost predicate RepairRun(s: Scene, coldBase: int, fastBase: int, es: seq<Event>, h: seq<Out>, lost: set<int>,
                            n: nat, g: int, w: nat, capacity: nat) {
    && Brought(coldBase, fastBase, es, h, lost) && Numbered(fastBase, h) && Sound(s, h)
    && Reported(coldBase, fastBase, es, n, g) && Reasserted(h, lost, w, g, capacity)
  }

  /** A session starts with no "@" value received. */
  function Fresh(s: Scene, u: Uuid): Held {
    Held(At(s, u), map[])
  }

  /** What the run leaves on the replica of `u`. */
  ghost function EndsWith(s: Scene, coldBase: int, fastBase: int, es: seq<Event>, h: seq<Out>, u: Uuid): Option<Registers>
    requires Legal(Start(coldBase, fastBase), es)
  {
    Reg(Fresh(s, u), Applied(coldBase, fastBase, es), h, u).regs
  }

  /** Fast-lane repair converges, whatever fast messages were lost, however the lanes interleave
      and whatever is edited meanwhile: the replica ends with what the host has of `u` iff no
      message of `u` that changed sides of its last blob leaves a mark and the "@" registers of
      that blob are current; this for every datablock that no re-assert's tombstone took from
      under the host. */
  lemma RepairConverges(s: Scene, coldBase: int, fastBase: int, es: seq<Event>, h: seq<Out>, lost: set<int>,
                        n: nat, g: int, w: nat, capacity: nat, u: Uuid)
    requires RepairRun(s, coldBase, fastBase, es, h, lost, n, g, w, capacity)
    requires StampsRise(Of(Arrivals(h, lost), u))
    ensures var host := HostReg(At(s, u), h, u);
      !(host.Some? && Revived(h, lost, u)) ==>
        (EndsWith(s, coldBase, fastBase, es, h, u) == host
         <==> Undisturbed(Fresh(s, u), Applied(coldBase, fastBase, es), h, lost, u))
    ensures SentOrder(At(s, u), h, lost, u) == HostReg(At(s, u), h, u)
       <==> !(HostReg(At(s, u), h, u).Some? && Revived(h, lost, u))
    ensures Revived(h, lost, u) ==> SentOrder(At(s, u), h, lost, u).None?
  {
    hide *;
    RunParts(s, coldBase, fastBase, es, h, lost, n, g, w, capacity);
    HoleBeforeLosses(coldBase, fastBase, es, h, lost, n, g);
    RepairCleans(fastBase, h, lost, w, g, capacity, u);
    OrderedTracks(s, h, lost, u);
    CleanEnds(HostReg(At(s, u), h, u), SentOrder(At(s, u), h, lost, u), Revived(h, lost, u));
    ReplicaExact(coldBase, fastBase, es, Fresh(s, u), h, lost, u);
    EndsWithReg(s, coldBase, fastBase, es, h, u);
  }

  lemma RunParts(s: Scene, coldBase: int, fastBase: int, es: seq<Event>, h: seq<Out>, lost: set<int>,
                 n: nat, g: int, w: nat, capacity: nat)
    requires RepairRun(s, coldBase, fastBase, es, h, lost, n, g, w, capacity)
    ensures Brought(coldBase, fastBase, es, h, lost) && Numbered(fastBase, h) && Sound(s, h)
    ensures Reported(coldBase, fastBase, es, n, g) && Reasserted(h, lost, w, g, capacity)
    ensures Legal(Start(coldBase, fastBase), es)
  {
  }

  lemma EndsWithReg(s: Scene, coldBase: int, fastBase: int, es: seq<Event>, h: seq<Out>, u: Uuid)
    requires Legal(Start(coldBase, fastBase), es)
    ensures EndsWith(s, coldBase, fastBase, es, h, u) == Reg(Fresh(s, u), Applied(coldBase, fastBase, es), h, u).regs
    ensures Fresh(s, u).regs == At(s, u)
  {
  }

  lemma CleanEnds(host: Option<Registers>, rep: Option<Registers>, revived: bool)
    requires Tracks(host, rep, revived, true)
    ensures rep == host <==> !(host.Some? && revived)
    ensures revived ==> rep.None?
  {
  }

  // ---------------------------------------------------- quiet runs ----

  /** A fast message names the last blob of its datablock that left before it. */
  predicate Followed(h: seq<Out>, u: Uuid) {
    forall i, j :: 0 <= i < j < |h| && h[i].Shipped? && h[i].uuid == u && !h[j].Shipped? && h[j].m.uuid == u ==>
      h[j].m.after >= h[i].sn
  }

  lemma {:induction false} FastAt(log: seq<Act>, m: Message) returns (i: nat)
    requires m in FastsIn(log)
    ensures i < |log| && log[i] == DidFast(m)
  {
    if log[|log| - 1] == DidFast(m) { i := |log| - 1; } else { i := FastAt(log[..|log| - 1], m); }
  }

  lemma {:induction false} OutAt(h: seq<Out>, lost: set<int>, m: Message) returns (i: nat)
    requires m in Arrivals(h, lost)
    ensures i < |h| && !h[i].Shipped? && h[i].m == m
  {
    if Arrives(h[|h| - 1], lost) && h[|h| - 1].m == m { i := |h| - 1; } else { i := OutAt(h[..|h| - 1], lost, m); }
  }

  lemma EarlierStamps(log: seq<Act>, h: seq<Out>, u: Uuid)
    requires Gated(log) && LastBlob(log, h, u) >= 0
    ensures forall m :: m in Earlier(log, h, u) ==> m.after < log[LastBlob(log, h, u)].sn
  {
    hide LastBlob, FastsIn, Of;
    var q := LastBlob(log, h, u);
    forall m | m in Earlier(log, h, u) ensures m.after < log[q].sn {
      OfIn(FastsIn(log[..q + 1]), u);
      var i := FastAt(log[..q + 1], m);
      assert log[..q + 1][i] == log[i] && i != q;
    }
  }

  lemma AfterStamps(h: seq<Out>, lost: set<int>, u: Uuid)
    requires Followed(h, u) && LastShip(h, u) >= 0
    ensures forall m :: m in SentAfter(h, lost, u) ==> m.after >= h[LastShip(h, u)].sn
  {
    hide LastShip, Arrivals, Of;
    var k := LastShip(h, u);
    forall m | m in SentAfter(h, lost, u) ensures m.after >= h[k].sn {
      OfIn(Arrivals(h[k + 1..], lost), u);
      var i := OutAt(h[k + 1..], lost, m);
      assert h[k + 1..][i] == h[k + 1 + i];
    }
  }

  lemma FirstOfRest<T>(p: seq<T>, d: seq<T>, b: seq<T>, a: seq<T>)
    requires p + d == b + a && |p| > |b|
    ensures |a| > 0 && a[0] in p
  {
    assert (p + d)[|b|] == p[|b|] && (b + a)[|b|] == a[0];
  }

  /** In a quiet run a blob may overtake older messages; no message gets ahead of a blob it follows. */
  lemma OnlyOldStrays(coldBase: int, fastBase: int, es: seq<Event>, h: seq<Out>, lost: set<int>, u: Uuid)
    requires Brought(coldBase, fastBase, es, h, lost) && QuietRun(Start(coldBase, fastBase), es)
    requires StampsRise(Of(Arrivals(h, lost), u)) && Followed(h, u)
    ensures var log := Applied(coldBase, fastBase, es);
      && |Earlier(log, h, u)| <= |SentBefore(h, lost, u)|
      && Strays(log, h, lost, u) == SentBefore(h, lost, u)[|Earlier(log, h, u)|..]
      && Later(log, h, lost, u) == SentAfter(h, lost, u)
  {
    hide *;
    LogMatches(coldBase, fastBase, es, h, lost, u);
    var log := Applied(coldBase, fastBase, es);
    BothSplits(log, h, lost, u);
    LastBlobIsLastShip(log, h, u);
    QuietGated(coldBase, fastBase, es);
    var k, q := LastShip(h, u), LastBlob(log, h, u);
    var p, b, a := Earlier(log, h, u), SentBefore(h, lost, u), SentAfter(h, lost, u);
    if |p| > |b| {
      if k < 0 {
        NothingBefore(log, h, lost, u);
        assert false;
      } else {
        EarlierStamps(log, h, u);
        AfterStamps(h, lost, u);
        FirstOfRest(p, Of(FastsIn(log[q + 1..]), u), b, a);
        assert false;
      }
    }
    StraysAre(log, h, lost, u);
  }

  lemma StraysAre(log: seq<Act>, h: seq<Out>, lost: set<int>, u: Uuid)
    requires |Earlier(log, h, u)| <= |SentBefore(h, lost, u)|
    ensures Strays(log, h, lost, u) == SentBefore(h, lost, u)[|Earlier(log, h, u)|..]
    ensures Later(log, h, lost, u) == SentAfter(h, lost, u)
  {
    hide Earlier, SentBefore, SentAfter;
  }

  lemma QuietGated(coldBase: int, fastBase: int, es: seq<Event>)
    requires Legal(Start(coldBase, fastBase), es) && QuietRun(Start(coldBase, fastBase), es) && NoBoots(es)
    ensures Gated(Applied(coldBase, fastBase, es))
  {
    hide Run, Gated, LogOf, QuietRun, Legal;
    LogGated(Start(coldBase, fastBase), es);
  }

  /** In a quiet run the condition is the whole story: the replica ends with what the host has of
      `u` iff no older message that the last blob overtook leaves a mark, the "@" registers of that
      blob are current, and no re-assert's tombstone took `u` from under the host. */
  lemma QuietRepairConverges(s: Scene, coldBase: int, fastBase: int, es: seq<Event>, h: seq<Out>, lost: set<int>,
                             n: nat, g: int, w: nat, capacity: nat, u: Uuid)
    requires RepairRun(s, coldBase, fastBase, es, h, lost, n, g, w, capacity)
    requires StampsRise(Of(Arrivals(h, lost), u)) && Followed(h, u) && QuietRun(Start(coldBase, fastBase), es)
    ensures EndsWith(s, coldBase, fastBase, es, h, u) == HostReg(At(s, u), h, u)
       <==> Undisturbed(Fresh(s, u), Applied(coldBase, fastBase, es), h, lost, u)
            && !(HostReg(At(s, u), h, u).Some? && Revived(h, lost, u))
  {
    hide *;
    RunParts(s, coldBase, fastBase, es, h, lost, n, g, w, capacity);
    RepairConverges(s, coldBase, fastBase, es, h, lost, n, g, w, capacity, u);
    var host := HostReg(At(s, u), h, u);
    if host.Some? && Revived(h, lost, u) {
      OnlyOldStrays(coldBase, fastBase, es, h, lost, u);
      EndsWithReg(s, coldBase, fastBase, es, h, u);
      KilledIsUndisturbed(Fresh(s, u), Applied(coldBase, fastBase, es), h, lost, u);
      ReplicaExact(coldBase, fastBase, es, Fresh(s, u), h, lost, u);
    }
  }

  lemma KilledIsUndisturbed(v: Held, log: seq<Act>, h: seq<Out>, lost: set<int>, u: Uuid)
    requires SentOrder(v.regs, h, lost, u).None? && Later(log, h, lost, u) == SentAfter(h, lost, u)
    ensures Undisturbed(v, log, h, lost, u)
  {
    hide SentOrder, Kills, Writes, LastShip, Arrivals, Of, Later, Strays, Reg;
    var k := LastShip(h, u);
    SentOrderSplit(v.regs, h, lost, u);
    if k >= 0 { WroteAllClosed(h[k].cargo.regs, SentAfter(h, lost, u)); }
  }

  // ------------------------------------ when a datablock comes back ----

  predicate BackAfterTomb(h: seq<Out>, u: Uuid) {
    exists i, j :: 0 <= i < j < |h| && h[i].Said? && h[i].m.uuid == u && h[i].m.body.Tombstone?
                   && h[j].Shipped? && h[j].uuid == u
  }

  /** A re-assert's tombstone of `u` repeats one sent before, or finds no such datablock. */
  ghost predicate TombsRepeat(s: Scene, h: seq<Out>, u: Uuid) {
    forall i :: 0 <= i < |h| && h[i].Again? && h[i].m.uuid == u && h[i].m.body.Tombstone? ==>
      HostReg(At(s, u), h[..i], u).None?
      || exists j :: 0 <= j < i && h[j].Said? && h[j].m.uuid == u && h[j].m.body.Tombstone?
  }

  lemma {:induction false} GoneAfterTomb(s: Scene, h: seq<Out>, u: Uuid, j: nat)
    requires j < |h| && h[j].Said? && h[j].m.uuid == u && h[j].m.body.Tombstone?
    requires forall i :: j < i < |h| && h[i].Shipped? ==> h[i].uuid != u
    ensures HostReg(At(s, u), h, u).None?
  {
    var front := h[..|h| - 1];
    if j < |front| {
      assert forall i :: 0 <= i < |front| ==> front[i] == h[i];
      GoneAfterTomb(s, front, u, j);
    }
  }

  /** While no datablock is shipped again after its tombstone, no re-assert takes one from under the host. */
  lemma {:induction false} WithoutRevivals(s: Scene, h: seq<Out>, lost: set<int>, u: Uuid)
    requires TombsRepeat(s, h, u) && !BackAfterTomb(h, u)
    ensures Revived(h, lost, u) ==> HostReg(At(s, u), h, u).None?
  {
    hide Arrives, Tells;
    if h != [] && Revived(h, lost, u) {
      var front, o := h[..|h| - 1], h[|h| - 1];
      TombsFront(s, h, u);
      WithoutRevivals(s, front, lost, u);
      if !Revived(front, lost, u) {
        if HostReg(At(s, u), front, u).Some? {
          var j :| 0 <= j < |front| && h[j].Said? && h[j].m.uuid == u && h[j].m.body.Tombstone?;
          GoneAfterTomb(s, h, u, j);
        }
      }
    }
  }

  lemma TombsFront(s: Scene, h: seq<Out>, u: Uuid)
    requires TombsRepeat(s, h, u) && !BackAfterTomb(h, u) && h != []
    ensures TombsRepeat(s, h[..|h| - 1], u) && !BackAfterTomb(h[..|h| - 1], u)
  {
    var front := h[..|h| - 1];
    forall i | 0 <= i < |front| && front[i].Again? && front[i].m.uuid == u && front[i].m.body.Tombstone?
      ensures HostReg(At(s, u), front[..i], u).None?
        || exists j :: 0 <= j < i && front[j].Said? && front[j].m.uuid == u && front[j].m.body.Tombstone?
    {
      assert front[i] == h[i] && front[..i] == h[..i];
      if HostReg(At(s, u), h[..i], u).Some? {
        var j :| 0 <= j < i && h[j].Said? && h[j].m.uuid == u && h[j].m.body.Tombstone?;
        assert front[j] == h[j];
      }
    }
  }

  // ------------------------------------------------ the plain case ----

  /** The "@" registers of the last blob of `u` are current. */
  predicate EyesRight(v: Held, log: seq<Act>, h: seq<Out>, lost: set<int>, u: Uuid) {
    var k := LastShip(h, u);
    k >= 0 ==> Current(h[k].cargo, Reg(v, log, h, u).kept, SentAfter(h, lost, u), Later(log, h, lost, u))
  }

  /** A datablock none of whose messages changed sides of its last blob. */
  lemma NoStrays(v: Held, log: seq<Act>, h: seq<Out>, lost: set<int>, u: Uuid)
    requires Strays(log, h, lost, u) == []
    ensures Undisturbed(v, log, h, lost, u) <==> EyesRight(v, log, h, lost, u)
  {
    hide Strays, Later, LastShip, Reg, Current;
  }

  /** While no blob overtakes an older message of its datablock and no deleted datablock is made
      again, a repair leaves the replica with all the host has, iff the "@" registers of every
      datablock's last blob are current. */
  lemma EverythingConverges(s: Scene, coldBase: int, fastBase: int, es: seq<Event>, h: seq<Out>, lost: set<int>,
                            n: nat, g: int, w: nat, capacity: nat)
    requires RepairRun(s, coldBase, fastBase, es, h, lost, n, g, w, capacity)
    requires forall u :: StampsRise(Of(Arrivals(h, lost), u))
    requires forall u :: TombsRepeat(s, h, u) && !BackAfterTomb(h, u)
    requires Legal(Start(coldBase, fastBase), es)
    requires forall u :: Strays(Applied(coldBase, fastBase, es), h, lost, u) == []
    ensures (forall u :: EndsWith(s, coldBase, fastBase, es, h, u) == HostReg(At(s, u), h, u))
       <==> (forall u :: EyesRight(Fresh(s, u), Applied(coldBase, fastBase, es), h, lost, u))
  {
    hide *;
    forall u ensures EndsWith(s, coldBase, fastBase, es, h, u) == HostReg(At(s, u), h, u)
                <==> EyesRight(Fresh(s, u), Applied(coldBase, fastBase, es), h, lost, u)
    {
      WithoutRevivals(s, h, lost, u);
      NoStrays(Fresh(s, u), Applied(coldBase, fastBase, es), h, lost, u);
      RepairConverges(s, coldBase, fastBase, es, h, lost, n, g, w, capacity, u);
    }
  }
}
