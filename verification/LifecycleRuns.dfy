/**
 * The Blender lifecycle over whole runs (agent/src/blender.rs): what each variable of the loop means,
 * as what has happened since, and what follows.
 */
module LifecycleRuns {
  import opened Lifecycles

  /** The child, the loop's variables, and the history kept beside them. */
  datatype Flag = Present | Wanted | Armed | Stopped | Failed | Asked | ByHand | Late | Down

  function FlagOf(l: Loop, f: Flag): bool {
    match f
    case Present => l.child
    case Wanted => l.wanted
    case Armed => l.deadline
    case Stopped => l.stopped
    case Failed => l.failed
    case Asked => l.asked
    case ByHand => l.manual
    case Late => l.stale
    case Down => l.phase == Over
  }

  predicate Handles(s: State, st: Step, e: Event)
    requires Enabled(s, st)
  {
    st.Take? && s.queue[0] == e
  }

  /** A launch is tried: a session starts, someone starts Blender by hand, or an exit was noticed in a
      session, and no child is there. */
  predicate Tries(s: State, st: Step)
    requires Enabled(s, st)
  {
    (Handles(s, st, SessionOn) || Handles(s, st, ManualStart) || st.Relaunch?) && !s.loop.child
  }

  predicate Launches(s: State, st: Step)
    requires Enabled(s, st)
  {
    Tries(s, st) && st.ok
  }

  /** An exit is handled with nothing to relaunch for. */
  predicate Forgets(s: State, st: Step)
    requires Enabled(s, st)
  {
    || (Handles(s, st, ChildExited) && !s.loop.wanted)
    || (st.LoadSession? && !s.link.sessionOn)
    || (st.LoadPeer? && !s.link.peerUp)
  }

  predicate SessionEnds(s: State, st: Step)
    requires Enabled(s, st)
  {
    st.Take? && Ending(s.queue[0])
  }

  predicate Raises(s: State, st: Step, f: Flag)
    requires Enabled(s, st)
  {
    match f
    case Present => Launches(s, st)
    case Wanted => Handles(s, st, SessionOn) || Handles(s, st, ManualStart)
    case Armed => SessionEnds(s, st) && s.loop.child
    case Stopped => Handles(s, st, ManualStop)
    case Failed => Tries(s, st) && !st.ok
    case Asked => (Handles(s, st, ManualStop) || Handles(s, st, Shutdown) || st.TimerActs?) && s.loop.child
    case ByHand => Launches(s, st) && Handles(s, st, ManualStart)
    case Late => Forgets(s, st) && s.loop.child
    case Down => Handles(s, st, Shutdown)
  }

  predicate Lowers(s: State, st: Step, f: Flag)
    requires Enabled(s, st)
  {
    match f
    case Present => st.Clear?
    case Wanted => Handles(s, st, ManualStop) || st.TimerActs?
    case Armed => Handles(s, st, SessionOn) || Handles(s, st, ManualStop) || Forgets(s, st) || st.Fire?
    case Stopped => Handles(s, st, SessionOn) || Handles(s, st, ManualStart)
    case Failed | Asked => Launches(s, st)
    case ByHand => Handles(s, st, SessionOn) || (Launches(s, st) && !Handles(s, st, ManualStart))
    case Late => Handles(s, st, SessionOn) || (SessionEnds(s, st) && s.loop.child) || Launches(s, st)
    case Down => false
  }

  // ------------------------------------------------------- one step ----

  lemma FlagStart(s: State, st: Step, f: Flag)
    requires Enabled(s, st) && st.Take? && (s.queue[0].SessionOn? || s.queue[0].ManualStart?)
    ensures FlagOf(Handled(s.loop, s.queue[0], st.ok), f) <==> Raises(s, st, f) || (FlagOf(s.loop, f) && !Lowers(s, st, f))
  {
    if s.queue[0].SessionOn? {
    } else {
    }
  }

  lemma FlagEnding(s: State, st: Step, f: Flag)
    requires Enabled(s, st) && st.Take? && (Ending(s.queue[0]) || s.queue[0].ChildExited?)
    ensures FlagOf(Handled(s.loop, s.queue[0], st.ok), f) <==> Raises(s, st, f) || (FlagOf(s.loop, f) && !Lowers(s, st, f))
  {
    hide Spawned, Closed;
    if s.queue[0].ChildExited? {
    } else {
    }
  }

  lemma FlagOther(s: State, st: Step, f: Flag)
    requires Enabled(s, st) && st.Take? && !Ending(s.queue[0]) && !s.queue[0].ChildExited?
    requires !s.queue[0].SessionOn? && !s.queue[0].ManualStart?
    ensures FlagOf(Handled(s.loop, s.queue[0], st.ok), f) <==> Raises(s, st, f) || (FlagOf(s.loop, f) && !Lowers(s, st, f))
  {
    hide Spawned, Ended, Forgotten;
    match s.queue[0] {
      case ManualStop | Shutdown =>
      case _ =>
    }
  }

  lemma FlagTaken(s: State, st: Step, f: Flag)
    requires Enabled(s, st) && st.Take?
    ensures FlagOf(Handled(s.loop, s.queue[0], st.ok), f) <==> Raises(s, st, f) || (FlagOf(s.loop, f) && !Lowers(s, st, f))
  {
    hide Handled, Raises, Lowers, FlagOf;
    if s.queue[0].SessionOn? || s.queue[0].ManualStart? { FlagStart(s, st, f); }
    else if Ending(s.queue[0]) || s.queue[0].ChildExited? { FlagEnding(s, st, f); }
    else { FlagOther(s, st, f); }
  }

  lemma FlagRelaunch(s: State, st: Step, f: Flag)
    requires Enabled(s, st) && st.Relaunch?
    ensures FlagOf(LoopNext(s.loop, s.link, st), f) <==> Raises(s, st, f) || (FlagOf(s.loop, f) && !Lowers(s, st, f))
  {
  }

  lemma FlagExit(s: State, st: Step, f: Flag)
    requires Enabled(s, st) && (st.LoadSession? || st.LoadPeer?)
    ensures FlagOf(LoopNext(s.loop, s.link, st), f) <==> Raises(s, st, f) || (FlagOf(s.loop, f) && !Lowers(s, st, f))
  {
    hide Spawned, Handled;
  }

  lemma FlagTimer(s: State, st: Step, f: Flag)
    requires Enabled(s, st) && (st.Fire? || st.TimerActs? || st.Clear?)
    ensures FlagOf(LoopNext(s.loop, s.link, st), f) <==> Raises(s, st, f) || (FlagOf(s.loop, f) && !Lowers(s, st, f))
  {
    hide Spawned, Handled, Forgotten;
  }

  /** The steps that are not the loop's. */
  predicate Outside(st: Step) {
    st.BeginUp? || st.BeginDown? || st.DropSession? || st.BeginSession? || st.Post? || st.SayGoodbye? || st.Press? || st.Report?
  }

  lemma FlagOutside(s: State, st: Step, f: Flag)
    requires Enabled(s, st) && Outside(st)
    ensures LoopNext(s.loop, s.link, st) == s.loop && !Raises(s, st, f) && !Lowers(s, st, f)
  {
    hide Spawned, Handled, Forgotten;
  }

  lemma FlagElse(s: State, st: Step, f: Flag)
    requires Enabled(s, st) && !st.Take?
    ensures FlagOf(LoopNext(s.loop, s.link, st), f) <==> Raises(s, st, f) || (FlagOf(s.loop, f) && !Lowers(s, st, f))
  {
    hide LoopNext, Raises, Lowers, FlagOf;
    if st.Relaunch? { FlagRelaunch(s, st, f); }
    else if st.LoadSession? || st.LoadPeer? { FlagExit(s, st, f); }
    else if st.Fire? || st.TimerActs? || st.Clear? { FlagTimer(s, st, f); }
    else { FlagOutside(s, st, f); }
  }

  /** One step, exactly. */
  lemma FlagStep(s: State, st: Step, f: Flag)
    requires Enabled(s, st)
    ensures FlagOf(Next(s, st).loop, f) <==> Raises(s, st, f) || (FlagOf(s.loop, f) && !Lowers(s, st, f))
  {
    hide Handled, LoopNext, LinkNext, Raises, Lowers, FlagOf;
    if st.Take? { FlagTaken(s, st, f); } else { FlagElse(s, st, f); SameLoop(s, st); }
  }

  lemma SameLoop(s: State, st: Step)
    requires Enabled(s, st) && !st.Take?
    ensures Next(s, st).loop == LoopNext(s.loop, s.link, st)
  {
  }

  // ------------------------------------------------------------ runs ----

  lemma {:induction false} FrontLegal(sts: seq<Step>, i: nat)
    requires Legal(Start(), sts) && i < |sts|
    ensures Legal(Start(), sts[..i]) && Enabled(Run(Start(), sts[..i]), sts[i])
  {
    hide Enabled, Start, Next;
    var front := sts[..|sts| - 1];
    if i < |front| {
      FrontLegal(front, i);
      assert front[..i] == sts[..i];
    }
  }

  ghost predicate RaisesAt(sts: seq<Step>, f: Flag, i: nat)
    requires Legal(Start(), sts) && i < |sts|
  {
    FrontLegal(sts, i);
    Raises(Run(Start(), sts[..i]), sts[i], f)
  }

  ghost predicate LowersAt(sts: seq<Step>, f: Flag, i: nat)
    requires Legal(Start(), sts) && i < |sts|
  {
    FrontLegal(sts, i);
    Lowers(Run(Start(), sts[..i]), sts[i], f)
  }

  /** Step `i` raised it, and no step since has lowered it. */
  ghost predicate RaisedSince(sts: seq<Step>, f: Flag, i: nat)
    requires Legal(Start(), sts)
  {
    i < |sts| && RaisesAt(sts, f, i) && forall j: nat :: i < j < |sts| ==> !LowersAt(sts, f, j)
  }

  lemma AtFront(sts: seq<Step>, f: Flag, i: nat)
    requires Legal(Start(), sts) && i < |sts| - 1
    ensures var front := sts[..|sts| - 1];
      Legal(Start(), front) && RaisesAt(sts, f, i) == RaisesAt(front, f, i) && LowersAt(sts, f, i) == LowersAt(front, f, i)
  {
    assert sts[..|sts| - 1][..i] == sts[..i];
    FrontLegal(sts, |sts| - 1);
    hide Legal, Run, Enabled, Raises, Lowers, Start;
  }

  lemma RaisedSnoc(sts: seq<Step>, f: Flag, i: nat)
    requires Legal(Start(), sts) && sts != []
    ensures Legal(Start(), sts[..|sts| - 1])
    ensures var n := |sts| - 1;
      RaisedSince(sts, f, i) <==>
        (i == n && RaisesAt(sts, f, n)) || (RaisedSince(sts[..n], f, i) && !LowersAt(sts, f, n))
  {
    hide Legal, Run, Enabled, RaisesAt, LowersAt, Start;
    var front, n := sts[..|sts| - 1], |sts| - 1;
    FrontLegal(sts, n);
    forall j: nat | j < n
      ensures RaisesAt(sts, f, j) == RaisesAt(front, f, j) && LowersAt(sts, f, j) == LowersAt(front, f, j)
    {
      AtFront(sts, f, j);
    }
  }

  lemma LastStep(sts: seq<Step>, f: Flag)
    requires Legal(Start(), sts) && sts != []
    ensures Legal(Start(), sts[..|sts| - 1])
    ensures var n := |sts| - 1; FlagOf(Run(Start(), sts).loop, f) <==>
      RaisesAt(sts, f, n) || (FlagOf(Run(Start(), sts[..n]).loop, f) && !LowersAt(sts, f, n))
  {
    hide Enabled, Raises, Lowers, Next, FlagOf, Start;
    FrontLegal(sts, |sts| - 1);
    FlagStep(Run(Start(), sts[..|sts| - 1]), sts[|sts| - 1], f);
  }

  /** Over every run each variable of the loop says what has happened, and nothing else: some step raised
      it and no step since has lowered it. */
  lemma {:induction false} FlagOverRuns(sts: seq<Step>, f: Flag)
    requires Legal(Start(), sts)
    ensures FlagOf(Run(Start(), sts).loop, f) <==> exists i: nat :: RaisedSince(sts, f, i)
  {
    hide *;
    if sts == [] {
      NoneRaised(f);
    } else {
      var n := |sts| - 1;
      RaisedSnoc(sts, f, n);
      FlagOverRuns(sts[..n], f);
      LastStep(sts, f);
      if i: nat :| RaisedSince(sts[..n], f, i) { RaisedSnoc(sts, f, i); }
      if i: nat :| RaisedSince(sts, f, i) { RaisedSnoc(sts, f, i); }
    }
  }

  lemma NoneRaised(f: Flag)
    ensures Legal(Start(), []) && !FlagOf(Run(Start(), []).loop, f) && forall i: nat :: !RaisedSince([], f, i)
  {
  }

  // ------------------------------------------------- what it comes to ----

  /** At rest, a Blender with no session, neither started by hand nor asked to quit, stays up for good
      iff some step handled an exit while it was up, with nothing to relaunch for, and since then no
      session has started, no session's end has found it, and no other child was launched; otherwise
      its grace is running. */
  lemma LingersOverRuns(sts: seq<Step>)
    requires Legal(Start(), sts)
    ensures var s := Run(Start(), sts);
      Settled(s) && s.loop.child && !s.link.sessionOn && !s.loop.asked && !s.loop.manual ==>
        (Lingering(s) <==> exists i: nat :: RaisedSince(sts, Late, i))
        && (s.loop.deadline <==> forall i: nat :: !RaisedSince(sts, Late, i))
  {
    hide Run, Legal, RaisedSince, Settled, Lingering;
    LingersExactly(sts);
    FlagOverRuns(sts, Late);
  }

  /** After a stop Blender is not wanted and, if still up, was asked to quit; no exit is being handled. */
  predicate StopSound(l: Loop) {
    l.stopped ==> !l.wanted && (l.child ==> l.asked) && !Exiting(l.phase)
  }

  lemma HandledStops(l: Loop, e: Event, ok: bool)
    requires StopSound(l) && l.phase == Idle
    ensures StopSound(Handled(l, e, ok))
  {
    match e {
      case SessionOn | ManualStart =>
      case SessionOff | PeerDown | Goodbye =>
      case ChildExited =>
      case ManualStop | Shutdown =>
      case PeerUp | AddonDetached =>
    }
  }

  lemma NextStops(s: State, st: Step)
    requires StopSound(s.loop) && Enabled(s, st)
    ensures StopSound(Next(s, st).loop)
  {
    hide Handled, LinkNext;
    if st.Take? { HandledStops(s.loop, s.queue[0], st.ok); } else { SameLoop(s, st); hide Next; }
  }

  lemma {:induction false} AlwaysStops(sts: seq<Step>)
    requires Legal(Start(), sts)
    ensures StopSound(Run(Start(), sts).loop)
  {
    hide StopSound, Next, Enabled;
    if sts == [] {
      StartStops();
    } else {
      AlwaysStops(sts[..|sts| - 1]);
      NextStops(Run(Start(), sts[..|sts| - 1]), sts[|sts| - 1]);
    }
  }

  lemma StartStops()
    ensures StopSound(Start().loop)
  {
  }

  /** Once a manual stop has been handled, and until a session starts or someone starts Blender by hand,
      it is not wanted and, while still up, has been asked to quit. */
  lemma StopHolds(sts: seq<Step>, i: nat)
    requires Legal(Start(), sts) && RaisedSince(sts, Stopped, i)
    ensures var l := Run(Start(), sts).loop; !l.wanted && (l.child ==> l.asked)
  {
    hide Run, Legal, RaisedSince;
    AlwaysStops(sts);
    FlagOverRuns(sts, Stopped);
  }
}
