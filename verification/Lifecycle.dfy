/**
 * The replica's Blender lifecycle (agent/src/blender.rs): the event loop, the link's observer, the
 * child's watcher threads and the tray, stepping in any order.
 */
module Lifecycles {
  import opened Wrappers

  datatype Event =
    | PeerUp | PeerDown | Goodbye | SessionOn | SessionOff
    | AddonDetached | ChildExited | ManualStart | ManualStop | Shutdown

  /** Where the event loop is: between events, inside the exit handler (flags are read one at a
      time, then a 3 s wait), or in the timer branch after it has read "no session". */
  datatype Phase = Idle | Exited | ExitedOn | Relaunching | TimerOff | Over

  /** The flags, and where the observer is inside one of its calls: flags stored, event not sent. */
  datatype Call = Quiet | Posting(event: Event) | Dropping
  datatype Link = Link(peerUp: bool, sessionOn: bool, call: Call)

  /** The loop's variables and the child slot. The rest is history: a manual stop or a failed
      launch not yet made good, a quit asked of this child, a child started by hand, and an exit
      event that was handled with a child present and no grace armed for it since. */
  datatype Loop = Loop(
    wanted: bool, deadline: bool, phase: Phase, child: bool,
    stopped: bool, failed: bool, asked: bool, manual: bool, stale: bool)

  /** `leaving` watchers have cleared the child slot and not sent ChildExited yet. */
  datatype State = State(link: Link, queue: seq<Event>, leaving: nat, loop: Loop)

  function Start(): State {
    State(Link(false, false, Quiet), [], 0, Loop(false, false, Idle, false, false, false, false, false, false))
  }

  datatype Step =
    // the observer, called by one link at a time
    | BeginUp | BeginDown | DropSession | BeginSession(on: bool) | Post | SayGoodbye
    // the tray and the addon link
    | Press(event: Event)
    // a watcher thread
    | Clear | Report
    // the loop; `ok` is whether a launch, if one is tried, succeeds
    | Take(ok: bool) | LoadSession | LoadPeer | Relaunch(ok: bool) | Fire | TimerActs

  /** `spawn_blender`. */
  function Spawned(l: Loop, ok: bool, byHand: bool): Loop {
    if l.child then l
    else if ok then l.(child := true, failed := false, asked := false, manual := byHand, stale := false)
    else l.(failed := true)
  }

  /** `close_blender`. */
  function Closed(l: Loop): Loop {
    l.(asked := l.asked || l.child)
  }

  /** `end_session`: arm the grace, if there is a Blender to close. */
  function Ended(l: Loop): Loop {
    l.(deadline := l.deadline || l.child, stale := l.stale && !l.child)
  }

  /** The exit handler's other branch. */
  function Forgotten(l: Loop): Loop {
    l.(deadline := false, phase := Idle, stale := l.stale || l.child)
  }

  function Handled(l: Loop, e: Event, ok: bool): Loop {
    match e
    case SessionOn =>
      Spawned(l.(deadline := false, wanted := true, stopped := false, manual := false, stale := false), ok, false)
    case SessionOff | PeerDown | Goodbye => Ended(l)
    case ChildExited => if l.wanted then l.(phase := Exited) else Forgotten(l)
    case ManualStart => Spawned(l.(wanted := true, stopped := false), ok, true)
    case ManualStop => Closed(l.(wanted := false, deadline := false, stopped := true))
    case Shutdown => Closed(l).(phase := Over)
    case PeerUp | AddonDetached => l
  }

  predicate FromUser(e: Event) {
    e.ManualStart? || e.ManualStop? || e.Shutdown? || e.AddonDetached?
  }

  predicate Enabled(s: State, st: Step) {
    match st
    case BeginUp | BeginDown | SayGoodbye => s.link.call == Quiet
    case BeginSession(_) => s.link.call == Quiet && s.link.peerUp
    case DropSession => s.link.call == Dropping
    case Post => s.link.call.Posting?
    case Press(e) => FromUser(e)
    case Clear => s.loop.child
    case Report => s.leaving > 0
    case Take(_) => s.loop.phase == Idle && s.queue != []
    case LoadSession => s.loop.phase == Exited
    case LoadPeer => s.loop.phase == ExitedOn
    case Relaunch(_) => s.loop.phase == Relaunching
    case Fire => s.loop.phase == Idle && s.loop.deadline
    case TimerActs => s.loop.phase == TimerOff
  }

  /** The flags, after an observer step. */
  function LinkNext(k: Link, st: Step): Link {
    match st
    case BeginUp => Link(true, k.sessionOn, Posting(PeerUp))
    case BeginDown => Link(false, k.sessionOn, Dropping)
    case DropSession => Link(k.peerUp, false, Posting(PeerDown))
    case BeginSession(on) => Link(k.peerUp, on, Posting(if on then SessionOn else SessionOff))
    case Post => Link(k.peerUp, k.sessionOn, Quiet)
    case _ => k
  }

  /** The loop, after a step of its own (or of the child) that takes no event. */
  function LoopNext(l: Loop, k: Link, st: Step): Loop {
    match st
    case Clear => l.(child := false)
    case LoadSession => if k.sessionOn then l.(phase := ExitedOn) else Forgotten(l)
    case LoadPeer => if k.peerUp then l.(phase := Relaunching) else Forgotten(l)
    case Relaunch(ok) => Spawned(l.(phase := Idle), ok, false)
    case Fire => l.(deadline := false, phase := if k.sessionOn then Idle else TimerOff)
    case TimerActs => Closed(l.(wanted := false, phase := Idle))
    case _ => l
  }

  function Next(s: State, st: Step): State
    requires Enabled(s, st)
  {
    match st
    case BeginUp | BeginDown | DropSession | BeginSession(_) => s.(link := LinkNext(s.link, st))
    case Post => s.(link := LinkNext(s.link, st), queue := s.queue + [s.link.call.event])
    case SayGoodbye => s.(queue := s.queue + [Goodbye])
    case Press(e) => s.(queue := s.queue + [e])
    case Report => s.(leaving := s.leaving - 1, queue := s.queue + [ChildExited])
    case Take(ok) => s.(queue := s.queue[1..], loop := Handled(s.loop, s.queue[0], ok))
    case Clear => s.(leaving := s.leaving + 1, loop := LoopNext(s.loop, s.link, st))
    case LoadSession | LoadPeer | Relaunch(_) | Fire | TimerActs => s.(loop := LoopNext(s.loop, s.link, st))
  }

  ghost predicate Legal(s: State, sts: seq<Step>)
    decreases sts, 0
  {
    sts != [] ==> Legal(s, sts[..|sts| - 1]) && Enabled(Run(s, sts[..|sts| - 1]), sts[|sts| - 1])
  }

  ghost function Run(s: State, sts: seq<Step>): State
    requires Legal(s, sts)
    decreases sts, 1
  {
    if sts == [] then s else Next(Run(s, sts[..|sts| - 1]), sts[|sts| - 1])
  }

  // ------------------------------------- a session keeps its Blender ----

  /** Inside the exit handler. */
  predicate Exiting(p: Phase) {
    p == Exited || p == ExitedOn || p == Relaunching
  }

  predicate Excused(l: Loop) {
    l.stopped || l.failed || l.phase == Over
  }

  /** While the host's session is on: a SessionOn is on its way, or Blender is wanted and present
      (or its exit is about to be noticed), or the link is being torn down; unless the user stopped
      Blender, a launch failed, or the agent is shutting down. `coming` says that a SessionOn is
      queued or being sent, `exit` that a ChildExited is. */
  predicate Served(k: Link, l: Loop, coming: bool, exit: bool) {
    var kept := l.wanted && (l.child || exit || Exiting(l.phase));
    && (k.sessionOn ==> coming || kept || k.call == Dropping || Excused(l))
    && (l.phase == TimerOff && k.sessionOn ==> coming || k.call == Dropping || Excused(l))
    && (k.sessionOn && !k.peerUp ==> k.call == Dropping)
    && (k.call == Dropping ==> !k.peerUp)
    && (Exiting(l.phase) ==> l.wanted)
  }

  predicate Coming(s: State, e: Event) {
    e in s.queue || s.link.call == Posting(e) || (e == ChildExited && s.leaving > 0)
  }

  predicate SessionServed(s: State) {
    Served(s.link, s.loop, Coming(s, SessionOn), Coming(s, ChildExited))
  }

  lemma LinkServed(k: Link, l: Loop, st: Step, coming: bool, exit: bool)
    requires Served(k, l, coming, exit)
    requires st.BeginUp? || st.BeginDown? || st.DropSession? || st.BeginSession?
    requires if st.DropSession? then k.call == Dropping else k.call == Quiet
    requires st.BeginSession? ==> k.peerUp
    ensures Served(LinkNext(k, st), l, coming || st == BeginSession(true), exit)
  {
  }

  lemma LoopServed(k: Link, l: Loop, st: Step, coming: bool, exit: bool)
    requires Served(k, l, coming, exit)
    requires st.LoadSession? ==> l.phase == Exited
    requires st.LoadPeer? ==> l.phase == ExitedOn
    requires st.Relaunch? ==> l.phase == Relaunching
    requires st.Fire? ==> l.phase == Idle
    requires st.TimerActs? ==> l.phase == TimerOff
    ensures Served(k, LoopNext(l, k, st), coming, exit || st == Clear)
  {
  }

  lemma HandledServed(k: Link, l: Loop, e: Event, ok: bool, coming: bool, exit: bool)
    requires l.phase == Idle && Served(k, l, coming || e == SessionOn, exit || e == ChildExited)
    ensures Served(k, Handled(l, e, ok), coming, exit)
  {
    match e {
      case SessionOn | ManualStart => LaunchServed(k, l, e, ok, coming, exit);
      case ChildExited => ExitServed(k, l, coming, exit);
      case ManualStop | Shutdown =>
      case SessionOff | PeerDown | Goodbye | PeerUp | AddonDetached =>
    }
  }

  lemma LaunchServed(k: Link, l: Loop, e: Event, ok: bool, coming: bool, exit: bool)
    requires e.SessionOn? || e.ManualStart?
    requires l.phase == Idle && Served(k, l, coming || e.SessionOn?, exit)
    ensures Served(k, Handled(l, e, ok), coming, exit)
  {
    hide Spawned;
    if e.SessionOn? {
      SpawnServed(k, l.(deadline := false, wanted := true, stopped := false, manual := false, stale := false), ok, false, coming, exit);
    } else {
      SpawnServed(k, l.(wanted := true, stopped := false), ok, true, coming, exit);
    }
  }

  /** Once wanted, a launch leaves a child or a failure. */
  lemma SpawnServed(k: Link, m: Loop, ok: bool, byHand: bool, coming: bool, exit: bool)
    requires m.wanted && m.phase == Idle
    requires k.call == Dropping || !k.sessionOn || k.peerUp
    requires k.call == Dropping ==> !k.peerUp
    ensures Served(k, Spawned(m, ok, byHand), coming, exit)
  {
  }

  lemma ExitServed(k: Link, l: Loop, coming: bool, exit: bool)
    requires l.phase == Idle && Served(k, l, coming, true)
    ensures Served(k, Handled(l, ChildExited, true), coming, exit)
  {
  }

  lemma TakeServed(s: State, ok: bool)
    requires SessionServed(s) && s.loop.phase == Idle && s.queue != []
    ensures SessionServed(Next(s, Take(ok)))
  {
    hide Served, Handled;
    var n := Next(s, Take(ok));
    assert s.queue == [s.queue[0]] + n.queue;
    HandledServed(s.link, s.loop, s.queue[0], ok, Coming(n, SessionOn), Coming(n, ChildExited));
  }

  lemma QueuedServed(s: State, st: Step)
    requires SessionServed(s) && Enabled(s, st) && (st.Post? || st.SayGoodbye? || st.Press? || st.Report?)
    ensures SessionServed(Next(s, st))
  {
    hide FromUser, Excused;
    var n := Next(s, st);
    assert n.queue == s.queue + [n.queue[|s.queue|]];
    assert n.queue[|s.queue|] in n.queue;
  }

  lemma NextServed(s: State, st: Step)
    requires SessionServed(s) && Enabled(s, st)
    ensures SessionServed(Next(s, st))
  {
    hide Served, LinkNext, LoopNext, Handled;
    var coming, exit := Coming(s, SessionOn), Coming(s, ChildExited);
    if st.Take? {
      TakeServed(s, st.ok);
    } else if st.Post? || st.SayGoodbye? || st.Press? || st.Report? {
      QueuedServed(s, st);
    } else if st.BeginUp? || st.BeginDown? || st.DropSession? || st.BeginSession? {
      LinkServed(s.link, s.loop, st, coming, exit);
      LinkComing(s, st);
    } else {
      LoopServed(s.link, s.loop, st, coming, exit);
    }
  }

  lemma LinkComing(s: State, st: Step)
    requires Enabled(s, st) && (st.BeginUp? || st.BeginDown? || st.DropSession? || st.BeginSession?)
    ensures Coming(Next(s, st), SessionOn) == (Coming(s, SessionOn) || st == BeginSession(true))
    ensures Coming(Next(s, st), ChildExited) == Coming(s, ChildExited)
  {
  }

  lemma {:induction false} AlwaysServed(s: State, sts: seq<Step>)
    requires SessionServed(s) && Legal(s, sts)
    ensures SessionServed(Run(s, sts))
  {
    hide SessionServed, Next, Enabled;
    if sts == [] {
    } else {
      AlwaysServed(s, sts[..|sts| - 1]);
      NextServed(Run(s, sts[..|sts| - 1]), sts[|sts| - 1]);
    }
  }

  lemma StartServed()
    ensures SessionServed(Start())
  {
  }

  /** Nothing is pending anywhere. */
  predicate Settled(s: State) {
    s.loop.phase == Idle && s.queue == [] && s.link.call == Quiet && s.leaving == 0
  }

  /** A host in session never ends up with no Blender and nothing pending. */
  lemma NeverAbandoned(sts: seq<Step>)
    requires Legal(Start(), sts)
    ensures var s := Run(Start(), sts);
      Settled(s) && s.link.sessionOn && !s.loop.stopped && !s.loop.failed ==> s.loop.wanted && s.loop.child
  {
    StartServed();
    AlwaysServed(Start(), sts);
  }

  // ------------------------------------- no session, no Blender ----

  /** The events that follow a session's end. */
  predicate Ending(e: Event) {
    e == SessionOff || e == PeerDown || e == Goodbye
  }

  predicate EndQueued(q: seq<Event>) {
    exists e :: e in q && Ending(e)
  }

  predicate EndPosting(k: Link) {
    k.call.Posting? && Ending(k.call.event)
  }

  /** A queued SessionOn with no ending behind it. */
  predicate Dangling(q: seq<Event>) {
    q != [] && var e := q[|q| - 1]; !Ending(e) && (e == SessionOn || Dangling(q[..|q| - 1]))
  }

  /** A Blender left up without a session is on its way to being closed, or was started by hand,
      or an exit event of an earlier child disarmed its grace. `end`: an ending is queued. */
  predicate Tidy(k: Link, l: Loop, end: bool, dangling: bool) {
    && (l.child && !k.sessionOn ==>
          l.deadline || l.asked || l.manual || l.stale || l.phase == TimerOff || l.phase == Over || end || EndPosting(k))
    && (!k.sessionOn && dangling ==> EndPosting(k))
    && (k.call == Posting(SessionOn) ==> k.sessionOn)
    && ((l.phase == ExitedOn || l.phase == Relaunching) && !k.sessionOn ==> end || EndPosting(k))
  }

  predicate SessionTidy(s: State) {
    Tidy(s.link, s.loop, EndQueued(s.queue), Dangling(s.queue))
  }

  lemma LinkTidy(k: Link, l: Loop, st: Step, end: bool, dangling: bool)
    requires Tidy(k, l, end, dangling)
    requires st.BeginUp? || st.BeginDown? || st.DropSession? || st.BeginSession?
    requires if st.DropSession? then k.call == Dropping else k.call == Quiet
    ensures Tidy(LinkNext(k, st), l, end, dangling)
  {
  }

  lemma LoopTidy(k: Link, l: Loop, st: Step, end: bool, dangling: bool)
    requires Tidy(k, l, end, dangling)
    requires st.Relaunch? ==> l.phase == Relaunching
    requires st.LoadSession? ==> l.phase == Exited
    requires st.LoadPeer? ==> l.phase == ExitedOn
    requires st.Fire? ==> l.phase == Idle
    requires st.TimerActs? ==> l.phase == TimerOff
    ensures Tidy(k, LoopNext(l, k, st), end, dangling)
  {
    hide Ending;
  }

  lemma HandledTidy(k: Link, l: Loop, e: Event, ok: bool, end: bool, dangling: bool)
    requires l.phase == Idle && Tidy(k, l, end || Ending(e), dangling || (e == SessionOn && !end))
    ensures Tidy(k, Handled(l, e, ok), end, dangling)
  {
    hide Tidy, Handled, EndPosting;
    match e {
      case SessionOn | ManualStart => LaunchTidy(k, l, e, ok, end, dangling);
      case SessionOff | PeerDown | Goodbye => EndTidy(k, l, e, ok, end, dangling);
      case ChildExited => ExitTidy(k, l, ok, end, dangling);
      case ManualStop | Shutdown | PeerUp | AddonDetached => OtherTidy(k, l, e, ok, end, dangling);
    }
  }

  lemma LaunchTidy(k: Link, l: Loop, e: Event, ok: bool, end: bool, dangling: bool)
    requires l.phase == Idle && (e.SessionOn? || e.ManualStart?)
    requires Tidy(k, l, end || Ending(e), dangling || (e == SessionOn && !end))
    ensures Tidy(k, Handled(l, e, ok), end, dangling)
  {
    hide EndPosting;
  }

  lemma EndTidy(k: Link, l: Loop, e: Event, ok: bool, end: bool, dangling: bool)
    requires l.phase == Idle && Ending(e) && Tidy(k, l, true, dangling)
    ensures Tidy(k, Handled(l, e, ok), end, dangling)
  {
    assert Handled(l, e, ok) == Ended(l);
    hide Handled, EndPosting, Ending;
  }

  lemma ExitTidy(k: Link, l: Loop, ok: bool, end: bool, dangling: bool)
    requires l.phase == Idle && Tidy(k, l, end || Ending(ChildExited), dangling || (ChildExited == SessionOn && !end))
    ensures Tidy(k, Handled(l, ChildExited, ok), end, dangling)
  {
    hide EndPosting, Spawned, Closed, Ended;
  }

  lemma OtherTidy(k: Link, l: Loop, e: Event, ok: bool, end: bool, dangling: bool)
    requires l.phase == Idle && (e.ManualStop? || e.Shutdown? || e.PeerUp? || e.AddonDetached?)
    requires Tidy(k, l, end || Ending(e), dangling || (e == SessionOn && !end))
    ensures Tidy(k, Handled(l, e, ok), end, dangling)
  {
    hide EndPosting, Spawned, Forgotten, Ended;
  }

  lemma {:induction false} DanglingTail(e: Event, q: seq<Event>)
    ensures Dangling([e] + q) == (Dangling(q) || (e == SessionOn && !EndQueued(q)))
  {
    if q == [] {
      assert [e] + q == [e];
      assert [e][..0] == [];
    } else {
      var front, last := q[..|q| - 1], q[|q| - 1];
      assert ([e] + q)[..|[e] + q| - 1] == [e] + front && q == front + [last];
      DanglingTail(e, front);
      EndSnoc(front, last);
    }
  }

  lemma EndSnoc(q: seq<Event>, e: Event)
    ensures EndQueued(q + [e]) == (EndQueued(q) || Ending(e))
  {
    if EndQueued(q) {
      var x :| x in q && Ending(x);
      assert x in q + [e];
    }
    if Ending(e) {
      assert e in q + [e];
    }
  }

  lemma EndHead(e: Event, q: seq<Event>)
    ensures EndQueued([e] + q) == (EndQueued(q) || Ending(e))
  {
    if EndQueued(q) {
      var x :| x in q && Ending(x);
      assert x in [e] + q;
    }
    if Ending(e) {
      assert e in [e] + q;
    }
  }

  lemma TakeTidy(s: State, ok: bool)
    requires SessionTidy(s) && s.loop.phase == Idle && s.queue != []
    ensures SessionTidy(Next(s, Take(ok)))
  {
    hide Tidy, Handled, Dangling, EndQueued, Ending;
    var e, rest := s.queue[0], s.queue[1..];
    assert s.queue == [e] + rest;
    DanglingTail(e, rest);
    EndHead(e, rest);
    HandledTidy(s.link, s.loop, e, ok, EndQueued(rest), Dangling(rest));
  }

  /** What a queueing step puts behind the queue. */
  function Queued(s: State, st: Step): Event
    requires Enabled(s, st) && (st.Post? || st.SayGoodbye? || st.Press? || st.Report?)
  {
    match st
    case Post => s.link.call.event
    case SayGoodbye => Goodbye
    case Press(e) => e
    case Report => ChildExited
  }

  lemma QueuedNext(s: State, st: Step)
    requires Enabled(s, st) && (st.Post? || st.SayGoodbye? || st.Press? || st.Report?)
    ensures var n := Next(s, st);
      && n.queue == s.queue + [Queued(s, st)] && n.loop == s.loop
      && n.link == if st.Post? then s.link.(call := Quiet) else s.link
    ensures st.Press? ==> !Ending(st.event) && !st.event.SessionOn?
  {
  }

  lemma TidyBehind(k: Link, l: Loop, e: Event, end: bool, dangling: bool)
    requires Tidy(k, l, end, dangling) && (Ending(e) || !e.SessionOn?)
    ensures Tidy(k, l, end || Ending(e), !Ending(e) && (e.SessionOn? || dangling))
  {
    hide Ending, EndPosting;
  }

  lemma TidyPosted(k: Link, l: Loop, end: bool, dangling: bool)
    requires Tidy(k, l, end, dangling) && k.call.Posting?
    ensures var e := k.call.event;
      Tidy(k.(call := Quiet), l, end || Ending(e), !Ending(e) && (e.SessionOn? || dangling))
  {
  }

  lemma QueuedTidy(s: State, st: Step)
    requires SessionTidy(s) && Enabled(s, st) && (st.Post? || st.SayGoodbye? || st.Press? || st.Report?)
    ensures SessionTidy(Next(s, st))
  {
    hide Tidy, Dangling, EndQueued, FromUser, Next;
    var e := Queued(s, st);
    QueuedNext(s, st);
    EndSnoc(s.queue, e);
    DanglingSnoc(s.queue, e);
    if st.Post? {
      TidyPosted(s.link, s.loop, EndQueued(s.queue), Dangling(s.queue));
    } else {
      TidyBehind(s.link, s.loop, e, EndQueued(s.queue), Dangling(s.queue));
    }
  }

  lemma DanglingSnoc(q: seq<Event>, e: Event)
    ensures Dangling(q + [e]) == (!Ending(e) && (e == SessionOn || Dangling(q)))
  {
    assert (q + [e])[..|q|] == q;
  }

  lemma NextTidy(s: State, st: Step)
    requires SessionTidy(s) && Enabled(s, st)
    ensures SessionTidy(Next(s, st))
  {
    hide Tidy, LinkNext, LoopNext, Handled, Dangling, EndQueued;
    if st.Take? {
      TakeTidy(s, st.ok);
    } else if st.Post? || st.SayGoodbye? || st.Press? || st.Report? {
      QueuedTidy(s, st);
    } else if st.BeginUp? || st.BeginDown? || st.DropSession? || st.BeginSession? {
      LinkTidy(s.link, s.loop, st, EndQueued(s.queue), Dangling(s.queue));
    } else {
      LoopTidy(s.link, s.loop, st, EndQueued(s.queue), Dangling(s.queue));
    }
  }

  lemma {:induction false} AlwaysTidy(s: State, sts: seq<Step>)
    requires SessionTidy(s) && Legal(s, sts)
    ensures SessionTidy(Run(s, sts))
  {
    hide SessionTidy, Next, Enabled;
    if sts == [] {
    } else {
      AlwaysTidy(s, sts[..|sts| - 1]);
      NextTidy(Run(s, sts[..|sts| - 1]), sts[|sts| - 1]);
    }
  }

  lemma StartTidy()
    ensures SessionTidy(Start())
  {
  }

  /** A late exit leaves no grace behind. */
  predicate Disarmed(l: Loop) {
    l.stale ==> !l.deadline && l.phase != TimerOff
  }

  lemma NextDisarmed(s: State, st: Step)
    requires Disarmed(s.loop) && Enabled(s, st)
    ensures Disarmed(Next(s, st).loop)
  {
    hide Handled, LinkNext, LoopNext, Disarmed;
    if st.Take? {
      HandledDisarmed(s.loop, s.queue[0], st.ok);
    } else {
      LoopDisarmed(s.loop, s.link, st);
    }
  }

  lemma LoopDisarmed(l: Loop, k: Link, st: Step)
    requires Disarmed(l) && (st.Fire? ==> l.deadline)
    ensures Disarmed(LoopNext(l, k, st))
  {
    match st {
      case LoadSession | LoadPeer =>
      case Relaunch(_) =>
      case Fire | TimerActs =>
      case _ =>
    }
  }

  lemma HandledDisarmed(l: Loop, e: Event, ok: bool)
    requires Disarmed(l) && l.phase == Idle
    ensures Disarmed(Handled(l, e, ok))
  {
    match e {
      case SessionOn | ManualStart =>
      case SessionOff | PeerDown | Goodbye =>
      case ChildExited =>
      case ManualStop | Shutdown =>
      case PeerUp | AddonDetached =>
    }
  }

  lemma {:induction false} AlwaysDisarmed(s: State, sts: seq<Step>)
    requires Disarmed(s.loop) && Legal(s, sts)
    ensures Disarmed(Run(s, sts).loop)
  {
    hide Disarmed, Next, Enabled;
    if sts != [] {
      AlwaysDisarmed(s, sts[..|sts| - 1]);
      NextDisarmed(Run(s, sts[..|sts| - 1]), sts[|sts| - 1]);
    }
  }

  /** Up, with no session, nothing pending, no grace running, no quit asked, and not by hand. */
  predicate Lingering(s: State) {
    Settled(s) && s.loop.child && !s.link.sessionOn && !s.loop.deadline && !s.loop.asked && !s.loop.manual
  }

  /** Over every run: a Blender left with no session, neither started by hand nor asked to quit,
      outlives that session for good iff an earlier child's exit was handled while it was up and no
      session has ended since. Otherwise its grace is running. */
  lemma LingersExactly(sts: seq<Step>)
    requires Legal(Start(), sts)
    ensures var s := Run(Start(), sts);
      Settled(s) && s.loop.child && !s.link.sessionOn && !s.loop.asked && !s.loop.manual ==>
        (Lingering(s) <==> s.loop.stale) && (s.loop.deadline <==> !s.loop.stale)
  {
    hide Run, Next;
    StartTidy();
    AlwaysTidy(Start(), sts);
    AlwaysDisarmed(Start(), sts);
  }

  /** An exit is handled, with no session to relaunch for, while a child is present. */
  predicate LateExit(s: State, st: Step)
    requires Enabled(s, st)
  {
    s.loop.child && (
      || (st.Take? && s.queue[0].ChildExited? && !s.loop.wanted)
      || (st.LoadSession? && !s.link.sessionOn)
      || (st.LoadPeer? && !s.link.peerUp))
  }

  /** A session starts, a session's end finds the child, or another child is launched. */
  predicate MadeGood(s: State, st: Step)
    requires Enabled(s, st)
  {
    || (st.Take? && s.queue[0].SessionOn?)
    || (st.Take? && Ending(s.queue[0]) && s.loop.child)
    || (st.Take? && s.queue[0].ManualStart? && st.ok && !s.loop.child)
    || (st.Relaunch? && st.ok && !s.loop.child)
  }

  lemma HandledStale(l: Loop, e: Event, ok: bool)
    ensures Handled(l, e, ok).stale <==>
      (l.child && e.ChildExited? && !l.wanted)
      || (l.stale && !e.SessionOn? && !(Ending(e) && l.child) && !(e.ManualStart? && ok && !l.child))
  {
    match e {
      case SessionOn | ManualStart =>
      case SessionOff | PeerDown | Goodbye =>
      case ChildExited =>
      case ManualStop | Shutdown =>
      case PeerUp | AddonDetached =>
    }
  }

  lemma LoopStale(l: Loop, k: Link, st: Step)
    ensures LoopNext(l, k, st).stale <==>
      (l.child && ((st.LoadSession? && !k.sessionOn) || (st.LoadPeer? && !k.peerUp)))
      || (l.stale && !(st.Relaunch? && st.ok && !l.child))
  {
    if st.LoadSession? || st.LoadPeer? {
    } else if st.Relaunch? {
    }
  }

  /** `stale` at every step: from a late exit until it is made good. */
  lemma StaleExactly(s: State, st: Step)
    requires Enabled(s, st)
    ensures Next(s, st).loop.stale <==> LateExit(s, st) || (s.loop.stale && !MadeGood(s, st))
  {
    hide Handled, LoopNext, LinkNext;
    LoopStale(s.loop, s.link, st);
    if st.Take? { HandledStale(s.loop, s.queue[0], st.ok); }
  }

  lemma OneMore(sts: seq<Step>, st: Step)
    requires Legal(Start(), sts) && Enabled(Run(Start(), sts), st)
    ensures Legal(Start(), sts + [st]) && Run(Start(), sts + [st]) == Next(Run(Start(), sts), st)
  {
    assert (sts + [st])[..|sts|] == sts;
  }

  /** A session with its Blender up. */
  lemma FirstSession() returns (sts: seq<Step>)
    ensures Legal(Start(), sts)
    ensures Run(Start(), sts) ==
      State(Link(true, true, Quiet), [], 0, Loop(true, false, Idle, true, false, false, false, false, false))
  {
    sts := [];
    assert Legal(Start(), sts) && Run(Start(), sts) == Start();
    hide Run, Legal;
    OneMore(sts, BeginUp);
    sts := sts + [BeginUp];
    OneMore(sts, Post);
    sts := sts + [Post];
    OneMore(sts, Take(true));
    sts := sts + [Take(true)];
    OneMore(sts, BeginSession(true));
    sts := sts + [BeginSession(true)];
    OneMore(sts, Post);
    sts := sts + [Post];
    OneMore(sts, Take(true));
    sts := sts + [Take(true)];
  }

  /** Its Blender exits; before the loop looks, the session ends, another starts and ends. */
  lemma ExitBehindASession() returns (sts: seq<Step>)
    ensures Legal(Start(), sts)
    ensures Run(Start(), sts) ==
      State(Link(true, false, Quiet), [SessionOff, SessionOn, SessionOff, ChildExited], 0,
            Loop(true, false, Idle, false, false, false, false, false, false))
  {
    sts := FirstSession();
    hide Run, Legal;
    OneMore(sts, Clear);
    sts := sts + [Clear];
    OneMore(sts, BeginSession(false));
    sts := sts + [BeginSession(false)];
    OneMore(sts, Post);
    sts := sts + [Post];
    OneMore(sts, BeginSession(true));
    sts := sts + [BeginSession(true)];
    OneMore(sts, Post);
    sts := sts + [Post];
    OneMore(sts, BeginSession(false));
    sts := sts + [BeginSession(false)];
    OneMore(sts, Post);
    sts := sts + [Post];
    OneMore(sts, Report);
    sts := sts + [Report];
  }

  /** The second child is up, its grace armed, and the first one's exit is next. */
  lemma ExitStillQueued() returns (sts: seq<Step>)
    ensures Legal(Start(), sts)
    ensures Run(Start(), sts) ==
      State(Link(true, false, Quiet), [ChildExited], 0, Loop(true, true, Idle, true, false, false, false, false, false))
  {
    sts := ExitBehindASession();
    hide Run, Legal;
    OneMore(sts, Take(true));
    sts := sts + [Take(true)];
    OneMore(sts, Take(true));
    sts := sts + [Take(true)];
    OneMore(sts, Take(true));
    sts := sts + [Take(true)];
  }

  /** It can happen: the exit is handled behind the second session's end, and cancels the grace of
      the second child. */
  lemma LateExitLingers() returns (sts: seq<Step>)
    ensures Legal(Start(), sts) && Lingering(Run(Start(), sts))
  {
    sts := ExitStillQueued();
    hide Run, Legal;
    OneMore(sts, Take(true));
    sts := sts + [Take(true)];
    OneMore(sts, LoadSession);
    sts := sts + [LoadSession];
  }

  // ------------------------------------------------ as a class ----

  /** One event handled to its end, with nothing in between: the exit handler takes its four steps. */
  function HandledWhole(l: Loop, k: Link, e: Event, ok: bool): Loop {
    var l1 := Handled(l, e, ok);
    if l1.phase != Exited then l1
    else
      var l2 := LoopNext(l1, k, LoadSession);
      if l2.phase != ExitedOn then l2
      else
        var l3 := LoopNext(l2, k, LoadPeer);
        if l3.phase != Relaunching then l3 else LoopNext(l3, k, Relaunch(ok))
  }

  lemma WholeOther(l: Loop, k: Link, e: Event, ok: bool)
    requires l.phase == Idle && !e.ChildExited?
    ensures HandledWhole(l, k, e, ok) == Handled(l, e, ok)
  {
  }

  /** Relaunch iff Blender is wanted with a session and a peer, forget otherwise. */
  lemma ExitWhole(l: Loop, k: Link, ok: bool)
    requires l.phase == Idle
    ensures HandledWhole(l, k, ChildExited, ok) ==
      if l.wanted && k.sessionOn && k.peerUp then Spawned(l, ok, false) else Forgotten(l)
  {
    hide *;
    if !l.wanted {
      ExitUnwanted(l, k, ok);
    } else if !k.sessionOn {
      ExitNoSession(l, k, ok);
    } else if !k.peerUp {
      ExitNoPeer(l, k, ok);
    } else {
      ExitRelaunch(l, k, ok);
    }
  }

  lemma ExitUnwanted(l: Loop, k: Link, ok: bool)
    requires l.phase == Idle && !l.wanted
    ensures HandledWhole(l, k, ChildExited, ok) == Forgotten(l)
  {
    hide LoopNext, Spawned;
    AtExit(l);
    assert Handled(l, ChildExited, ok) == Forgotten(l);
  }

  lemma ExitNoSession(l: Loop, k: Link, ok: bool)
    requires l.phase == Idle && l.wanted && !k.sessionOn
    ensures HandledWhole(l, k, ChildExited, ok) == Forgotten(l)
  {
    hide Forgotten, Spawned;
    AtExit(l);
    assert Handled(l, ChildExited, ok) == l.(phase := Exited);
    assert LoopNext(l.(phase := Exited), k, LoadSession) == Forgotten(l);
    hide LoopNext, Handled;
  }

  lemma ExitNoPeer(l: Loop, k: Link, ok: bool)
    requires l.phase == Idle && l.wanted && k.sessionOn && !k.peerUp
    ensures HandledWhole(l, k, ChildExited, ok) == Forgotten(l)
  {
    hide Forgotten, Spawned;
    AtExit(l);
    assert Handled(l, ChildExited, ok) == l.(phase := Exited);
    assert LoopNext(l.(phase := Exited), k, LoadSession) == l.(phase := ExitedOn);
    assert LoopNext(l.(phase := ExitedOn), k, LoadPeer) == Forgotten(l);
    hide LoopNext, Handled;
  }

  lemma ExitRelaunch(l: Loop, k: Link, ok: bool)
    requires l.phase == Idle && l.wanted && k.sessionOn && k.peerUp
    ensures HandledWhole(l, k, ChildExited, ok) == Spawned(l, ok, false)
  {
    ThroughExit(l, k);
    RelaunchActs(l, k, ok);
    hide Spawned, LoopNext, Handled;
  }

  lemma ThroughExit(l: Loop, k: Link)
    requires l.phase == Idle && l.wanted && k.sessionOn && k.peerUp
    ensures forall ok :: Handled(l, ChildExited, ok) == l.(phase := Exited)
    ensures LoopNext(l.(phase := Exited), k, LoadSession) == l.(phase := ExitedOn)
    ensures LoopNext(l.(phase := ExitedOn), k, LoadPeer) == l.(phase := Relaunching)
  {
    hide Forgotten, Spawned;
  }

  lemma RelaunchActs(l: Loop, k: Link, ok: bool)
    requires l.phase == Idle
    ensures LoopNext(l.(phase := Relaunching), k, Relaunch(ok)) == Spawned(l, ok, false)
  {
    hide Spawned;
    BackToIdle(l);
  }

  lemma AtExit(l: Loop)
    requires l.phase == Idle
    ensures Forgotten(l).phase == Idle
    ensures Forgotten(l.(phase := Exited)) == Forgotten(l) && Forgotten(l.(phase := ExitedOn)) == Forgotten(l)
  {
  }

  lemma BackToIdle(l: Loop)
    requires l.phase == Idle
    ensures l.(phase := Relaunching).(phase := Idle) == l
  {
  }

  /** The timer branch, whole. */
  lemma TimerWhole(l: Loop, k: Link)
    requires l.phase == Idle
    ensures var m := LoopNext(l, k, Fire);
      (if m.phase == TimerOff then LoopNext(m, k, TimerActs) else m)
      == if k.sessionOn then l.(deadline := false) else Closed(l.(deadline := false, wanted := false))
  {
  }

  class Lifecycle {
    var peerUp: bool
    var sessionOn: bool
    var queue: seq<Event>
    var child: bool
    var wanted: bool
    var deadline: bool
    var over: bool
    ghost var stopped: bool
    ghost var failed: bool
    ghost var asked: bool
    ghost var manual: bool
    ghost var stale: bool

    ghost function LoopView(): Loop
      reads this
    {
      Loop(wanted, deadline, if over then Over else Idle, child, stopped, failed, asked, manual, stale)
    }

    ghost function View(): State
      reads this
    {
      State(Link(peerUp, sessionOn, Quiet), queue, 0, LoopView())
    }

    constructor ()
      ensures View() == Start()
    {
      peerUp, sessionOn, queue, child, wanted, deadline, over := false, false, [], false, false, false, false;
      stopped, failed, asked, manual, stale := false, false, false, false, false;
    }

    // the observer

    method PeerIsUp()
      modifies `peerUp, `queue
      ensures View() == Next(Next(old(View()), BeginUp), Post)
    {
      peerUp := true;
      queue := queue + [PeerUp];
    }

    method PeerIsDown()
      modifies `peerUp, `sessionOn, `queue
      ensures View() == Next(Next(Next(old(View()), BeginDown), DropSession), Post)
    {
      peerUp := false;
      sessionOn := false;
      queue := queue + [PeerDown];
    }

    method Session(on: bool)
      requires peerUp
      modifies `sessionOn, `queue
      ensures View() == Next(Next(old(View()), BeginSession(on)), Post)
    {
      sessionOn := on;
      queue := queue + [if on then SessionOn else SessionOff];
    }

    // the loop

    method SpawnBlender(ok: bool, ghost byHand: bool)
      modifies `child, `failed, `asked, `manual, `stale
      ensures LoopView() == Spawned(old(LoopView()), ok, byHand)
    {
      if child { return; }
      if ok {
        child := true;
        failed, asked, manual, stale := false, false, byHand, false;
      } else {
        failed := true;
      }
    }

    method CloseBlender()
      modifies `asked
      ensures LoopView() == Closed(old(LoopView()))
    {
      if !child { return; }
      asked := true;
    }

    method EndSession()
      modifies `deadline, `stale
      ensures LoopView() == Ended(old(LoopView()))
    {
      if !child { return; }
      deadline, stale := true, false;
    }

    method TimerBranch()
      requires !over && deadline
      modifies `deadline, `wanted, `asked
      ensures var l := LoopNext(old(LoopView()), old(View()).link, Fire);
        LoopView() == if l.phase == TimerOff then LoopNext(l, old(View()).link, TimerActs) else l
    {
      TimerWhole(LoopView(), View().link);
      hide LoopNext, Closed;
      deadline := false;
      if !sessionOn {
        wanted := false;
        CloseBlender();
      }
    }

    method ExitBranch(ok: bool)
      requires !over
      modifies `child, `failed, `asked, `manual, `stale, `deadline
      ensures LoopView() == HandledWhole(old(LoopView()), old(View()).link, ChildExited, ok)
    {
      hide HandledWhole;
      ExitWhole(LoopView(), View().link, ok);
      if wanted && sessionOn && peerUp {
        SpawnBlender(ok, false);
      } else {
        stale := stale || child;
        deadline := false;
      }
    }

    method SessionStarts(ok: bool)
      modifies `wanted, `deadline, `child, `stopped, `failed, `asked, `manual, `stale
      ensures LoopView() == Handled(old(LoopView()), SessionOn, ok)
    {
      deadline, wanted := false, true;
      stopped, manual, stale := false, false, false;
      SpawnBlender(ok, false);
    }

    method StartByHand(ok: bool)
      modifies `wanted, `child, `stopped, `failed, `asked, `manual, `stale
      ensures LoopView() == Handled(old(LoopView()), ManualStart, ok)
    {
      wanted, stopped := true, false;
      SpawnBlender(ok, true);
    }

    method StopByHand()
      modifies `wanted, `deadline, `stopped, `asked
      ensures LoopView() == Handled(old(LoopView()), ManualStop, true)
    {
      wanted, deadline, stopped := false, false, true;
      CloseBlender();
    }

    method ShutDown()
      modifies `over, `asked
      ensures LoopView() == Handled(old(LoopView()), Shutdown, true)
    {
      CloseBlender();
      over := true;
    }

    /** One event taken from the queue and handled. */
    method HandleNext(ok: bool)
      requires !over && queue != []
      modifies `queue, `over, `wanted, `deadline, `child, `stopped, `failed, `asked, `manual, `stale
      ensures queue == old(queue)[1..]
      ensures LoopView() == HandledWhole(old(LoopView()), old(View()).link, old(queue)[0], ok)
    {
      hide HandledWhole, Spawned, Closed, Forgotten;
      var event := queue[0];
      queue := queue[1..];
      if event != ChildExited { WholeOther(LoopView(), View().link, event, ok); }
      match event {
        case SessionOn => SessionStarts(ok);
        case SessionOff | PeerDown | Goodbye => EndSession();
        case ChildExited => ExitBranch(ok);
        case ManualStart => StartByHand(ok);
        case ManualStop => StopByHand();
        case Shutdown => ShutDown();
        case PeerUp | AddonDetached =>
      }
    }
  }
}
