/**
 * When the host answers a replica that wants a resync (qcbridge/ring1/liveness.py: ResyncPolicy).
 */
module Liveness {
  import opened Wrappers

  /** The replica's counters as its pong carries them; an old replica reports no bootstraps. */
  datatype Counters = Counters(bootstraps: Option<nat>, resyncs: nat)

  datatype DeltaState = Ready | Pending | Mismatch

  /** What one decision sees: the pong, the replica's capabilities, the host's fast log and its
      inventory comparison. */
  datatype Ask = Ask(
    wantResync: bool, counters: Counters,
    fastHole: bool, fastAck: bool, covered: bool,
    deltaCap: bool, delta: DeltaState)

  datatype Verdict = Nothing | Fast | Delta | Full

  /** The clocks (None is minus infinity) and the state the last answer was for. */
  datatype Policy = Policy(
    minInterval: real, fastInterval: real,
    lastSent: Option<real>, lastFast: Option<real>, servedFor: Option<Counters>)

  predicate TooSoon(last: Option<real>, now: real, interval: real) {
    last.Some? && now - last.value < interval
  }

  function Decided(p: Policy, a: Ask, now: real): (Policy, Verdict) {
    if !a.wantResync || p.servedFor == Some(a.counters) then (p, Nothing)
    else if a.fastHole && a.fastAck && a.covered then
      if TooSoon(p.lastFast, now, p.fastInterval) then (p, Nothing)
      else (p.(lastFast := Some(now), servedFor := Some(a.counters)), Fast)
    else if a.deltaCap && a.delta != Mismatch then
      if a.delta == Pending || TooSoon(p.lastFast, now, p.fastInterval) then (p, Nothing)
      else (p.(lastFast := Some(now), servedFor := Some(a.counters)), Delta)
    else if TooSoon(p.lastSent, now, p.minInterval) then (p, Nothing)
    else (p.(lastSent := Some(now), servedFor := Some(a.counters)), Full)
  }

  function Allowed(p: Policy, now: real): (Policy, bool) {
    if TooSoon(p.lastSent, now, p.minInterval) then (p.(servedFor := None), false)
    else (p.(lastSent := Some(now)), true)
  }

  class ResyncPolicy {
    const minInterval: real
    const fastInterval: real
    var lastSent: Option<real>
    var lastFast: Option<real>
    var servedFor: Option<Counters>
    var sent: nat
    var fastSent: nat
    var deltaSent: nat

    ghost function State(): Policy
      reads this
    {
      Policy(minInterval, fastInterval, lastSent, lastFast, servedFor)
    }

    constructor (minInterval: real, fastInterval: real)
      ensures State() == Policy(minInterval, fastInterval, None, None, None)
      ensures sent == 0 && fastSent == 0 && deltaSent == 0
    {
      this.minInterval, this.fastInterval := minInterval, fastInterval;
      lastSent, lastFast, servedFor := None, None, None;
      sent, fastSent, deltaSent := 0, 0, 0;
    }

    method Decide(a: Ask, now: real) returns (v: Verdict)
      modifies this
      ensures (State(), v) == Decided(old(State()), a, now)
      ensures sent == old(sent) + (if v == Full then 1 else 0)
      ensures fastSent == old(fastSent) + (if v == Fast then 1 else 0)
      ensures deltaSent == old(deltaSent) + (if v == Delta then 1 else 0)
    {
      if !a.wantResync { return Nothing; }
      if servedFor == Some(a.counters) { return Nothing; }
      if a.fastHole && a.fastAck && a.covered {
        if lastFast.Some? && now - lastFast.value < fastInterval { return Nothing; }
        lastFast := Some(now);
        servedFor := Some(a.counters);
        fastSent := fastSent + 1;
        return Fast;
      }
      if a.deltaCap && (a.delta == Ready || a.delta == Pending) {
        if a.delta == Pending { return Nothing; }
        if lastFast.Some? && now - lastFast.value < fastInterval { return Nothing; }
        lastFast := Some(now);
        servedFor := Some(a.counters);
        deltaSent := deltaSent + 1;
        return Delta;
      }
      if lastSent.Some? && now - lastSent.value < minInterval { return Nothing; }
      lastSent := Some(now);
      servedFor := Some(a.counters);
      sent := sent + 1;
      return Full;
    }

    method AllowFull(now: real) returns (ok: bool)
      modifies this
      ensures (State(), ok) == Allowed(old(State()), now)
      ensures sent == old(sent) + (if ok then 1 else 0) && fastSent == old(fastSent) && deltaSent == old(deltaSent)
    {
      if lastSent.Some? && now - lastSent.value < minInterval {
        servedFor := None;
        return false;
      }
      lastSent := Some(now);
      sent := sent + 1;
      return true;
    }

    method Reset(served: Option<Counters>)
      modifies this`servedFor
      ensures State() == old(State()).(servedFor := served)
    {
      servedFor := served;
    }
  }

  // ------------------------------------------------------------ runs ----

  datatype Call =
    | Deciding(ask: Ask, now: real)
    | Allowing(now: real)
    | Resetting(served: Option<Counters>)

  /** An answered state; `spell` counts the times serving had been undone before it. */
  datatype Answer = Answer(counters: Counters, spell: nat)

  /** The policy with its history: when full bootstraps were granted, when fast or delta repairs
      were, which states were answered, and the state last asked about. */
  datatype Log = Log(p: Policy, fulls: seq<real>, fasts: seq<real>, answers: seq<Answer>, spell: nat, asked: Option<Counters>)

  function Fresh(minInterval: real, fastInterval: real): Log {
    Log(Policy(minInterval, fastInterval, None, None, None), [], [], [], 0, None)
  }

  function Called(l: Log, c: Call): Log {
    match c
    case Deciding(a, now) =>
      var (p, v) := Decided(l.p, a, now);
      Log(p, if v == Full then l.fulls + [now] else l.fulls,
          if v == Fast || v == Delta then l.fasts + [now] else l.fasts,
          if v == Nothing then l.answers else l.answers + [Answer(a.counters, l.spell)], l.spell, Some(a.counters))
    case Allowing(now) =>
      var (p, ok) := Allowed(l.p, now);
      if ok then l.(p := p, fulls := l.fulls + [now]) else l.(p := p, spell := l.spell + 1)
    case Resetting(served) => l.(p := l.p.(servedFor := served), spell := l.spell + 1)
  }

  function Run(l: Log, cs: seq<Call>): Log {
    if cs == [] then l else Called(Run(l, cs[..|cs| - 1]), cs[|cs| - 1])
  }

  // -------------------------------------------------- the rate limits ----

  function Last(ts: seq<real>): Option<real> {
    if ts == [] then None else Some(ts[|ts| - 1])
  }

  /** Each time is at least `gap` after the one before. */
  predicate Spaced(ts: seq<real>, gap: real) {
    forall i :: 0 < i < |ts| ==> StepUp(ts, i, gap)
  }

  predicate StepUp(ts: seq<real>, i: nat, gap: real)
    requires 0 < i < |ts|
  {
    ts[i] - ts[i - 1] >= gap
  }

  lemma SpacedSnoc(ts: seq<real>, t: real, gap: real)
    requires Spaced(ts, gap) && !TooSoon(Last(ts), t, gap)
    ensures Spaced(ts + [t], gap)
  {
    forall i | 0 < i < |ts + [t]| ensures StepUp(ts + [t], i, gap) {
      assert i < |ts| ==> StepUp(ts, i, gap);
    }
  }

  predicate Limited(l: Log, minInterval: real, fastInterval: real) {
    && l.p.minInterval == minInterval && l.p.fastInterval == fastInterval
    && l.p.lastSent == Last(l.fulls) && l.p.lastFast == Last(l.fasts)
    && Spaced(l.fulls, minInterval) && Spaced(l.fasts, fastInterval)
  }

  lemma CalledLimited(l: Log, c: Call, minInterval: real, fastInterval: real)
    requires Limited(l, minInterval, fastInterval)
    ensures Limited(Called(l, c), minInterval, fastInterval)
  {
    hide Spaced;
    if !c.Resetting? {
      if !TooSoon(Last(l.fulls), c.now, minInterval) { SpacedSnoc(l.fulls, c.now, minInterval); }
      if !TooSoon(Last(l.fasts), c.now, fastInterval) { SpacedSnoc(l.fasts, c.now, fastInterval); }
    }
  }

  lemma {:induction false} RunLimited(minInterval: real, fastInterval: real, cs: seq<Call>)
    ensures Limited(Run(Fresh(minInterval, fastInterval), cs), minInterval, fastInterval)
  {
    hide Limited, Called;
    if cs == [] {
      FreshLimited(minInterval, fastInterval);
    } else {
      RunLimited(minInterval, fastInterval, cs[..|cs| - 1]);
      CalledLimited(Run(Fresh(minInterval, fastInterval), cs[..|cs| - 1]), cs[|cs| - 1], minInterval, fastInterval);
    }
  }

  lemma FreshLimited(minInterval: real, fastInterval: real)
    ensures Limited(Fresh(minInterval, fastInterval), minInterval, fastInterval)
  {
  }

  lemma {:induction false} SpacedSpans(ts: seq<real>, gap: real, i: nat, j: nat)
    requires Spaced(ts, gap) && i <= j < |ts|
    ensures ts[j] - ts[i] >= (j - i) as real * gap
    decreases j
  {
    if i < j {
      SpacedSpans(ts, gap, i, j - 1);
      assert StepUp(ts, j, gap);
      assert (j - i) as real == (j - 1 - i) as real + 1.0;
      assert (j - i) as real * gap == (j - 1 - i) as real * gap + gap;
    }
  }

  /** However the calls come, `k` granted full bootstraps, whether decided or allowed as a delta's
      fallback, span at least (k-1) minimum intervals, and so do fast and delta repairs theirs. */
  lemma GrantsSpan(minInterval: real, fastInterval: real, cs: seq<Call>, i: nat, j: nat)
    ensures var l := Run(Fresh(minInterval, fastInterval), cs);
      && (i <= j < |l.fulls| ==> l.fulls[j] - l.fulls[i] >= (j - i) as real * minInterval)
      && (i <= j < |l.fasts| ==> l.fasts[j] - l.fasts[i] >= (j - i) as real * fastInterval)
  {
    hide Run, Spaced;
    RunLimited(minInterval, fastInterval, cs);
    var l := Run(Fresh(minInterval, fastInterval), cs);
    if i <= j < |l.fulls| { SpacedSpans(l.fulls, minInterval, i, j); }
    if i <= j < |l.fasts| { SpacedSpans(l.fasts, fastInterval, i, j); }
  }

  // ------------------------------------------------ what is answered ----

  /** The cheapest repair that can answer the ask: a re-assert for a fast hole that the replica can
      report as closed and the log still covers; a delta for a replica that knows them, once its
      inventory is in and compares; else the file. */
  function Cheapest(a: Ask): Verdict {
    if a.fastHole && a.fastAck && a.covered then Fast
    else if a.deltaCap && a.delta == Ready then Delta
    else if a.deltaCap && a.delta == Pending then Nothing
    else Full
  }

  predicate LongAgo(ts: seq<real>, now: real, interval: real) {
    forall t :: t in ts ==> now - t >= interval
  }

  /** Over every run of calls: only the cheapest repair is ever granted, and only to a replica that wants
      one for a state not yet served; and it is granted, once every earlier grant of its kind lies the
      interval back. */
  lemma CheapestWhenDue(minInterval: real, fastInterval: real, cs: seq<Call>, a: Ask, now: real)
    ensures var l := Run(Fresh(minInterval, fastInterval), cs);
      var v := Decided(l.p, a, now).1;
      && (v != Nothing ==> v == Cheapest(a) && a.wantResync && l.p.servedFor != Some(a.counters))
      && (a.wantResync && l.p.servedFor != Some(a.counters)
          && LongAgo(if Cheapest(a) == Full then l.fulls else l.fasts, now, if Cheapest(a) == Full then minInterval else fastInterval)
          ==> v == Cheapest(a))
  {
    hide Run, Spaced;
    RunLimited(minInterval, fastInterval, cs);
    var l := Run(Fresh(minInterval, fastInterval), cs);
    LastIn(l.fulls);
    LastIn(l.fasts);
  }

  lemma LastIn(ts: seq<real>)
    ensures Last(ts).Some? ==> Last(ts).value in ts
  {
  }

  /** A file asked for as a delta's fallback is granted iff every earlier file lies the interval back. */
  lemma AllowedWhenDue(minInterval: real, fastInterval: real, cs: seq<Call>, now: real)
    requires minInterval >= 0.0 && forall t :: t in Run(Fresh(minInterval, fastInterval), cs).fulls ==> t <= now
    ensures var l := Run(Fresh(minInterval, fastInterval), cs);
      Allowed(l.p, now).1 <==> LongAgo(l.fulls, now, minInterval)
  {
    hide Run;
    RunLimited(minInterval, fastInterval, cs);
    var l := Run(Fresh(minInterval, fastInterval), cs);
    LastIn(l.fulls);
    if l.fulls != [] {
      forall i: nat | i < |l.fulls| ensures l.fulls[i] <= l.fulls[|l.fulls| - 1] {
        SpacedSpans(l.fulls, minInterval, i, |l.fulls| - 1);
        Product((|l.fulls| - 1 - i) as real, minInterval);
      }
    }
  }

  lemma Product(a: real, b: real)
    requires a >= 0.0 && b >= 0.0
    ensures a * b >= 0.0
  {
  }

  /** The call decides which state counts as served: an answer serves the state it answers, a refused
      fallback un-serves, a reset sets it. */
  predicate Sets(l: Log, c: Call) {
    match c
    case Deciding(a, now) => Decided(l.p, a, now).1 != Nothing
    case Allowing(now) => !Allowed(l.p, now).1
    case Resetting(_) => true
  }

  function SetTo(c: Call): Option<Counters> {
    match c
    case Deciding(a, _) => Some(a.counters)
    case Allowing(_) => None
    case Resetting(served) => served
  }

  lemma CallSets(l: Log, c: Call)
    ensures Called(l, c).p.servedFor == if Sets(l, c) then SetTo(c) else l.p.servedFor
  {
  }

  /** Call `i` was the last to decide it. */
  ghost predicate LastSet(l: Log, cs: seq<Call>, i: nat) {
    i < |cs| && Sets(Run(l, cs[..i]), cs[i]) && forall j :: i < j < |cs| ==> !Sets(Run(l, cs[..j]), cs[j])
  }

  /** Over every run the state that counts as served is what the last such call made it. */
  lemma {:induction false} ServedExact(minInterval: real, fastInterval: real, cs: seq<Call>)
    ensures var s, l := Fresh(minInterval, fastInterval), Run(Fresh(minInterval, fastInterval), cs);
      && (forall i: nat :: LastSet(s, cs, i) ==> i < |cs| && l.p.servedFor == SetTo(cs[i]))
      && ((forall i: nat :: !LastSet(s, cs, i)) ==> l.p.servedFor == None)
  {
    hide Sets, SetTo, Called, LastSet;
    var s := Fresh(minInterval, fastInterval);
    if cs == [] {
      NothingSet(s);
    } else {
      var front, n := cs[..|cs| - 1], |cs| - 1;
      ServedExact(minInterval, fastInterval, front);
      CallSets(Run(s, front), cs[n]);
      forall i: nat ensures LastSet(s, cs, i) <==>
        (i == n && Sets(Run(s, front), cs[n])) || (LastSet(s, front, i) && !Sets(Run(s, front), cs[n]))
      {
        LastSetSnoc(s, cs, i);
      }
      if Sets(Run(s, front), cs[n]) {
        assert LastSet(s, cs, n);
      } else {
        assert forall i: nat :: LastSet(s, cs, i) <==> LastSet(s, front, i);
      }
    }
  }

  lemma NothingSet(s: Log)
    ensures forall i: nat :: !LastSet(s, [], i)
  {
  }

  lemma LastSetSnoc(s: Log, cs: seq<Call>, i: nat)
    requires cs != []
    ensures var front, n := cs[..|cs| - 1], |cs| - 1;
      && (LastSet(s, front, i) ==> i < n && front[i] == cs[i])
      && (LastSet(s, cs, i) <==>
            (i == n && Sets(Run(s, front), cs[n])) || (LastSet(s, front, i) && !Sets(Run(s, front), cs[n])))
  {
    hide Sets, Run;
    var front := cs[..|cs| - 1];
    assert forall j :: 0 <= j < |front| ==> front[..j] == cs[..j] && front[j] == cs[j];
    assert cs[..|front|] == front;
  }

  // ---------------------------------------------------- served once ----

  predicate AtMost(a: Counters, b: Counters) {
    && (a.bootstraps.Some? ==> b.bootstraps.Some? && a.bootstraps.value <= b.bootstraps.value)
    && a.resyncs <= b.resyncs
  }

  /** The replica's counters never go back from one decision to the next. */
  predicate Growing(cs: seq<Call>, asked: Option<Counters>) {
    if cs == [] then true
    else
      var c := cs[|cs| - 1];
      Growing(cs[..|cs| - 1], asked)
      && (c.Deciding? ==>
            var before := LastAsked(cs[..|cs| - 1], asked);
            before.Some? ==> AtMost(before.value, c.ask.counters))
  }

  function LastAsked(cs: seq<Call>, asked: Option<Counters>): Option<Counters> {
    if cs == [] then asked
    else if cs[|cs| - 1].Deciding? then Some(cs[|cs| - 1].ask.counters)
    else LastAsked(cs[..|cs| - 1], asked)
  }

  /** In the current spell, the last answered state is the one served, and none answered exceeds it. */
  ghost predicate ServedOnce(l: Log) {
    && (forall i :: 0 <= i < |l.answers| ==> l.answers[i].spell <= l.spell)
    && (forall i :: 0 <= i < |l.answers| && l.answers[i].spell == l.spell ==> Below(l, l.answers[i].counters))
    && forall i, j :: 0 <= i < j < |l.answers| && l.answers[i].spell == l.answers[j].spell ==>
         l.answers[i].counters != l.answers[j].counters
  }

  predicate Below(l: Log, c: Counters) {
    l.p.servedFor.Some? && AtMost(c, l.p.servedFor.value) && l.asked.Some? && AtMost(l.p.servedFor.value, l.asked.value)
  }

  lemma CalledServes(l: Log, c: Call)
    requires ServedOnce(l)
    requires c.Deciding? && l.asked.Some? ==> AtMost(l.asked.value, c.ask.counters)
    ensures ServedOnce(Called(l, c))
  {
    var n := Called(l, c);
    if c.Deciding? {
      hide TooSoon;
      forall i | 0 <= i < |l.answers| && l.answers[i].spell == l.spell
        ensures Below(n, l.answers[i].counters)
        ensures |n.answers| > |l.answers| ==> l.answers[i].counters != c.ask.counters
      {
        assert Below(l, l.answers[i].counters);
      }
    }
  }

  lemma {:induction false} RunAsked(l: Log, cs: seq<Call>)
    ensures Run(l, cs).asked == LastAsked(cs, l.asked)
  {
    hide Decided, Allowed;
    if cs != [] { RunAsked(l, cs[..|cs| - 1]); }
  }

  lemma {:induction false} RunServes(minInterval: real, fastInterval: real, cs: seq<Call>)
    requires Growing(cs, None)
    ensures ServedOnce(Run(Fresh(minInterval, fastInterval), cs))
  {
    hide ServedOnce, Called;
    if cs == [] {
      FreshServes(minInterval, fastInterval);
    } else {
      var front := cs[..|cs| - 1];
      RunServes(minInterval, fastInterval, front);
      RunAsked(Fresh(minInterval, fastInterval), front);
      CalledServes(Run(Fresh(minInterval, fastInterval), front), cs[|cs| - 1]);
    }
  }

  lemma FreshServes(minInterval: real, fastInterval: real)
    ensures ServedOnce(Fresh(minInterval, fastInterval))
  {
  }

  /** With counters that only grow, two answers to the same replica state have an un-serving
      between them: a refused `allow_full`, or a reset. */
  lemma AnsweredOnce(minInterval: real, fastInterval: real, cs: seq<Call>, i: nat, j: nat)
    requires Growing(cs, None)
    ensures var answers := Run(Fresh(minInterval, fastInterval), cs).answers;
      i < j < |answers| && answers[i].counters == answers[j].counters ==> answers[i].spell != answers[j].spell
  {
    RunServes(minInterval, fastInterval, cs);
  }
}
