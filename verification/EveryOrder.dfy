/**
 * When every quiet run of the two lanes leaves one datablock as send order would: a condition
 * on what the host sent alone (qcbridge/ring0/replica_apply.py, qcbridge/ring1/lanemerge.py).
 */
module EveryOrders {
  import opened Wrappers
  import opened Wire
  import opened AtStates
  import opened LaneMerge
  import opened ReplicaApply
  import opened ReplicaGate
  import opened TwoLanes
  import opened Convergence
  import opened RepairRuns

  predicate ShipsOf(o: Out, u: Uuid) {
    o.Shipped? && o.uuid == u
  }

  /** The replica has the datablock from the start, or is shipped it before anything is said of it. */
  predicate Introduced(v: Held, h: seq<Out>, u: Uuid) {
    v.regs.Some? || forall j :: 0 <= j < |h| && !h[j].Shipped? && h[j].m.uuid == u ==>
      exists i :: 0 <= i < j && ShipsOf(h[i], u)
  }

  /** What the host sent of `u` alone: either a tombstone follows the last blob, or what arrives of
      the messages sent before that blob could land after it without a mark, and the "@" registers
      of the blob that nothing writes afterwards are those last said, or a fresh copy's. */
  predicate Calm(v: Held, h: seq<Out>, lost: set<int>, u: Uuid) {
    var k := LastShip(h, u);
    k >= 0 ==>
      var b, a := SentBefore(h, lost, u), SentAfter(h, lost, u);
      && Harmless(h[k].cargo.regs, b, a)
      && Current(h[k].cargo, v.kept + AtOf(Writes(b + a)), a, a)
  }

  // --------------------------------------------- the "@" values received ----

  predicate Lands(a: Act, h: seq<Out>, u: Uuid) {
    a.DidBlob? && CargoOf(h, a.sn, u).Some?
  }

  ghost predicate Present(v: Held, log: seq<Act>, h: seq<Out>, u: Uuid, n: nat)
    requires n <= |log|
  {
    v.regs.Some? || exists i :: 0 <= i < n && Lands(log[i], h, u)
  }

  /** Every message of `u` finds the datablock there, but for tombstones. */
  ghost predicate Backed(v: Held, log: seq<Act>, h: seq<Out>, u: Uuid) {
    forall j :: 0 <= j < |log| && log[j].DidFast? && log[j].msg.uuid == u ==> Present(v, log, h, u, j)
  }

  lemma BackedFront(v: Held, log: seq<Act>, h: seq<Out>, u: Uuid)
    requires Backed(v, log, h, u) && log != []
    ensures Backed(v, log[..|log| - 1], h, u)
    ensures var n, x := |log| - 1, log[|log| - 1];
      Present(v, log, h, u, |log|) <==> Present(v, log[..n], h, u, n) || Lands(x, h, u)
    ensures var n, x := |log| - 1, log[|log| - 1];
      x.DidFast? && x.msg.uuid == u ==> Present(v, log[..n], h, u, n)
  {
    hide Lands;
    var front := log[..|log| - 1];
    forall n | 0 <= n <= |front| ensures Present(v, front, h, u, n) <==> Present(v, log, h, u, n) {
      assert forall i :: 0 <= i < n ==> front[i] == log[i];
    }
    if Lands(log[|log| - 1], h, u) { assert Lands(log[|log| - 1], h, u); }
    forall j | 0 <= j < |front| && front[j].DidFast? && front[j].msg.uuid == u ensures Present(v, front, h, u, j) {
      assert front[j] == log[j];
    }
  }

  lemma GotStep(w: Held, m: Message)
    requires w.regs.Some? && !m.body.Tombstone?
    ensures Got(w, m).regs.Some?
    ensures Got(w, m).kept == w.kept + if m.body.Delta? then AtOf(m.body.changes) else map[]
  {
  }

  lemma KeptStep(kept: Registers, ms: seq<Message>, m: Message)
    ensures (kept + AtOf(Writes(ms))) + (if m.body.Delta? then AtOf(m.body.changes) else map[])
         == kept + AtOf(Writes(ms + [m]))
  {
    assert (ms + [m])[..|ms|] == ms;
    if m.body.Delta? { AtAppend(kept, Writes(ms), m.body.changes); }
  }

  lemma KillsSnoc(ms: seq<Message>, m: Message)
    ensures Kills(ms + [m]) <==> Kills(ms) || m.body.Tombstone?
  {
    hide Kills;
    KillsFront(ms + [m]);
    assert (ms + [m])[..|ms|] == ms;
  }

  /** With no tombstone applied, the values kept are the last ones said. */
  lemma {:induction false} KeptOf(v: Held, log: seq<Act>, h: seq<Out>, u: Uuid)
    requires Backed(v, log, h, u) && !Kills(Of(FastsIn(log), u))
    ensures Reg(v, log, h, u).kept == v.kept + AtOf(Writes(Of(FastsIn(log), u)))
    ensures Present(v, log, h, u, |log|) ==> Reg(v, log, h, u).regs.Some?
  {
    hide Backed, Present, Lands, Kills, Writes, Of, FastsIn, Got, Landed, CargoOf, AtOf;
    if log == [] {
      NothingKept(v, log, h, u);
    } else {
      var front, x := log[..|log| - 1], log[|log| - 1];
      BackedFront(v, log, h, u);
      OfFasts(log, u);
      var ms := Of(FastsIn(front), u);
      if x.DidFast? && x.msg.uuid == u {
        KillsSnoc(ms, x.msg);
        KeptOf(v, front, h, u);
        GotStep(Reg(v, front, h, u), x.msg);
        KeptStep(v.kept, ms, x.msg);
        LandsNot(x, h, u);
      } else {
        KeptOf(v, front, h, u);
        LandedKeeps(v, front, x, h, u);
      }
    }
  }

  lemma NothingKept(v: Held, log: seq<Act>, h: seq<Out>, u: Uuid)
    requires log == []
    ensures v.kept == v.kept + AtOf(Writes(Of(FastsIn(log), u)))
    ensures Present(v, log, h, u, |log|) ==> v.regs.Some?
  {
    assert AtOf(map[]) == map[];
  }

  lemma LandsNot(x: Act, h: seq<Out>, u: Uuid)
    ensures x.DidFast? ==> !Lands(x, h, u)
  {
  }

  lemma LandedKeeps(v: Held, front: seq<Act>, x: Act, h: seq<Out>, u: Uuid)
    requires !(x.DidFast? && x.msg.uuid == u)
    ensures Reg(v, front + [x], h, u).kept == Reg(v, front, h, u).kept
    ensures Reg(v, front, h, u).regs.Some? || Lands(x, h, u) ==> Reg(v, front + [x], h, u).regs.Some?
  {
    hide CargoOf;
    assert (front + [x])[..|front|] == front;
  }

  // ------------------------------------------- calm, then undisturbed ----

  /** What a blob overtakes less of leaves no more of a mark. */
  lemma FewerStrays(regs: Registers, b: seq<Message>, n: nat, a: seq<Message>)
    requires n <= |b| && Harmless(regs, b, a)
    ensures Harmless(regs, b[n..], a)
  {
    hide Kills, Writes;
    Cut(b, n);
    WritesAppend(b[..n], b[n..]);
    if !Kills(a) {
      var x, y := Writes(b), Writes(b[n..]);
      forall p | p in y ensures p in Writes(a) || (p in regs && (IsAt(p) || regs[p] == y[p])) {
        assert p in x && x[p] == y[p];
      }
    }
  }

  /** In a quiet run every message of `u` finds it there, if the host introduced it. */
  lemma QuietBacked(v: Held, log: seq<Act>, h: seq<Out>, lost: set<int>, u: Uuid)
    requires Introduced(v, h, u) && Followed(h, u) && Gated(log)
    requires BlobsIn(log) == Ships(h) && Climbs(Ships(h)) && Of(FastsIn(log), u) == Of(Arrivals(h, lost), u)
    ensures Backed(v, log, h, u)
  {
    hide BlobsIn, Ships, Climbs, Of, FastsIn, Arrivals, Lands;
    if v.regs.None? {
      forall j | 0 <= j < |log| && log[j].DidFast? && log[j].msg.uuid == u ensures Present(v, log, h, u, j) {
        var m := log[j].msg;
        FastIsIn(log, j);
        InOf(FastsIn(log), m);
        OfIn(Arrivals(h, lost), u);
        var i := OutAt(h, lost, m);
        var s :| 0 <= s < i && ShipsOf(h[s], u);
        ShipsHold(h, s);
        var q := BlobAt(log, h[s].sn);
        FoundAt(h, s, u);
        LandsAt(log, q, h, s, u);
        assert q < j;
      }
    }
  }

  lemma FoundAt(h: seq<Out>, s: nat, u: Uuid)
    requires s < |h| && ShipsOf(h[s], u)
    ensures CargoOf(h, h[s].sn, u).Some?
  {
    hide CargoOf;
    CargoFound(h, h[s].sn, u);
  }

  lemma LandsAt(log: seq<Act>, q: nat, h: seq<Out>, s: nat, u: Uuid)
    requires q < |log| && s < |h| && h[s].Shipped? && log[q] == DidBlob(h[s].sn) && CargoOf(h, h[s].sn, u).Some?
    ensures Lands(log[q], h, u)
  {
  }

  lemma {:induction false} InOf(ms: seq<Message>, m: Message)
    requires m in ms
    ensures m in Of(ms, m.uuid)
  {
    if ms[|ms| - 1] != m { InOf(ms[..|ms| - 1], m); }
  }

  /** What arrives of `u`, split at its last blob. */
  lemma SplitArrivals(h: seq<Out>, lost: set<int>, u: Uuid)
    ensures Of(Arrivals(h, lost), u) == SentBefore(h, lost, u) + SentAfter(h, lost, u)
  {
    hide Of, Arrivals, LastShip;
    var k := LastShip(h, u) + 1;
    Cut(h, k);
    ArrivalsAppend(h[..k], h[k..], lost);
    OfAppend(Arrivals(h[..k], lost), Arrivals(h[k..], lost), u);
  }

  lemma CalmUndisturbed(coldBase: int, fastBase: int, es: seq<Event>, v: Held, h: seq<Out>, lost: set<int>, u: Uuid)
    requires Brought(coldBase, fastBase, es, h, lost) && QuietRun(Start(coldBase, fastBase), es)
    requires StampsRise(Of(Arrivals(h, lost), u)) && Followed(h, u) && Introduced(v, h, u) && Calm(v, h, lost, u)
    ensures Undisturbed(v, Applied(coldBase, fastBase, es), h, lost, u)
  {
    hide *;
    LogMatches(coldBase, fastBase, es, h, lost, u);
    QuietGated(coldBase, fastBase, es);
    OnlyOldStrays(coldBase, fastBase, es, h, lost, u);
    var log := Applied(coldBase, fastBase, es);
    QuietBacked(v, log, h, lost, u);
    SplitArrivals(h, lost, u);
    CalmSpread(v, log, h, lost, u);
  }

  lemma CalmSpread(v: Held, log: seq<Act>, h: seq<Out>, lost: set<int>, u: Uuid)
    requires Backed(v, log, h, u) && Calm(v, h, lost, u)
    requires Of(FastsIn(log), u) == SentBefore(h, lost, u) + SentAfter(h, lost, u)
    requires var n := |Earlier(log, h, u)|;
      && n <= |SentBefore(h, lost, u)| && Strays(log, h, lost, u) == SentBefore(h, lost, u)[n..]
      && Later(log, h, lost, u) == SentAfter(h, lost, u)
    ensures Undisturbed(v, log, h, lost, u)
  {
    hide Backed, Of, FastsIn, SentBefore, SentAfter, Strays, Later, Earlier, Kills, Writes, AtCurrent, AtOf, Covers, Reg;
    var k := LastShip(h, u);
    if k >= 0 {
      var b, a, n := SentBefore(h, lost, u), SentAfter(h, lost, u), |Earlier(log, h, u)|;
      hide LastShip;
      FewerStrays(h[k].cargo.regs, b, n, a);
      if !Kills(a) {
        WritesAppend(b, a);
        KeptOf(v, log, h, u);
      }
    }
  }

  // ------------------------------------------------- cold lane first ----

  /** Every blob completes and applies, another cold message with a number above every stamp
      follows, then the fast messages come. */
  function ShipEvents(sns: seq<int>): seq<Event> {
    if sns == [] then [] else ShipEvents(sns[..|sns| - 1]) + [Cold(sns[|sns| - 1], BlobDone(false))] + [Batch(1)]
  }

  function FastEvents(ms: seq<Message>): seq<Event> {
    if ms == [] then [] else FastEvents(ms[..|ms| - 1]) + [Fast(ms[|ms| - 1])]
  }

  function BlobActs(sns: seq<int>): seq<Act> {
    if sns == [] then [] else BlobActs(sns[..|sns| - 1]) + [DidBlob(sns[|sns| - 1])]
  }

  function FastActs(ms: seq<Message>): seq<Act> {
    if ms == [] then [] else FastActs(ms[..|ms| - 1]) + [DidFast(ms[|ms| - 1])]
  }

  predicate Rests(r: Replica, mark: int, arrived: seq<Message>, pending: seq<Pending>) {
    && r.pending == pending && r.m.parked == [] && r.arrived == arrived
    && r.m.cold.lastSeen.Some? && r.m.coldApplied == mark
    && (pending == [] ==> r.m.cold.lastSeen.value == mark)
  }

  lemma BlobRests(r: Replica, mark: int, sn: int)
    requires Rests(r, mark, [], []) && sn > mark
    ensures var e := Cold(sn, BlobDone(false));
      Enabled(r, e) && Quiet(r, e) && ActsOf(r, e) == [] && Rests(Step(r, e), mark, [], [Pending(sn, {sn}, false)])
      && Step(r, e).m.cold.lastSeen == Some(sn)
  {
  }

  lemma BatchRests(r: Replica, mark: int, sn: int)
    requires Rests(r, mark, [], [Pending(sn, {sn}, false)]) && sn > mark && r.m.cold.lastSeen == Some(sn)
    ensures Enabled(r, Batch(1)) && Quiet(r, Batch(1)) && ActsOf(r, Batch(1)) == [DidBlob(sn)]
    ensures Rests(Step(r, Batch(1)), sn, [], [])
  {
    assert AppliedSome(r, 0) == (r, []);
    assert Released(r.m, Some(sn)) == [];
    assert AppliedSome(r, 1) == (AppliedOne(r), [] + Released(r.m, Some(sn)));
    assert r.pending[..1] == [Pending(sn, {sn}, false)];
    assert Blobs(r.pending[..1]) == [DidBlob(sn)] && Fasts([]) == [];
  }

  lemma MarkRests(r: Replica, mark: int, sn: int)
    requires Rests(r, mark, [], []) && sn > mark
    ensures var e := Cold(sn, Immediate(false));
      Enabled(r, e) && Quiet(r, e) && ActsOf(r, e) == [] && Rests(Step(r, e), sn, [], [])
  {
    assert Released(r.m, Some(sn)) == [] && Fasts([]) == [];
  }

  lemma FastRests(r: Replica, mark: int, arrived: seq<Message>, m: Message)
    requires Rests(r, mark, arrived, []) && m.lane == FastLane && m.sn.Some? && m.after <= mark
    ensures Enabled(r, Fast(m)) && Quiet(r, Fast(m)) && ActsOf(r, Fast(m)) == [DidFast(m)]
    ensures Rests(Step(r, Fast(m)), mark, arrived + [m], [])
  {
    hide FastDone, Outruns;
    FastDoneFrame(ObservedOn(r.m, m), m.sn);
    FastDoneFrame(FastGapCleared(ObservedOn(r.m, m)), m.sn);
  }

  lemma CompletedSnoc(es: seq<Event>, e: Event)
    ensures Completed(es + [e]) == Completed(es) + Finished(e)
    ensures NoBoots(es) && !(e.Cold? && e.kind.BlobDone? && e.kind.boot) ==> NoBoots(es + [e])
  {
    assert (es + [e])[..|es|] == es;
  }

  function Top(base: int, sns: seq<int>): int {
    if sns == [] then base else sns[|sns| - 1]
  }

  lemma TopClimbs(base: int, front: seq<int>, x: int)
    requires Climbs([base] + (front + [x]))
    ensures Climbs([base] + front) && x > Top(base, front)
  {
    hide Climbs;
    assert [base] + (front + [x]) == ([base] + front) + [x];
    ClimbsFront([base] + front, x);
    assert Top(base, front) in [base] + front;
  }

  lemma {:induction false} ShipsRun(coldBase: int, fastBase: int, sns: seq<int>)
    requires Climbs([coldBase] + sns)
    ensures var s, es := Start(coldBase, fastBase), ShipEvents(sns);
      && Grown(s, es, BlobActs(sns)) && Rests(Run(s, es), Top(coldBase, sns), [], [])
      && Completed(es) == sns && NoBoots(es)
  {
    hide Climbs, Step, Enabled, Quiet, ActsOf, Rests, Run, Grown, Completed, NoBoots;
    var s := Start(coldBase, fastBase);
    if sns == [] {
      NothingShipped(coldBase, fastBase);
    } else {
      var front, x := sns[..|sns| - 1], sns[|sns| - 1];
      assert sns == front + [x];
      TopClimbs(coldBase, front, x);
      ShipsRun(coldBase, fastBase, front);
      OneShip(s, ShipEvents(front), BlobActs(front), Top(coldBase, front), x);
      CompletedSnoc(ShipEvents(front), Cold(x, BlobDone(false)));
      CompletedSnoc(ShipEvents(front) + [Cold(x, BlobDone(false))], Batch(1));
      assert front + [x] + [] == sns;
    }
  }

  lemma OneShip(s: Replica, es: seq<Event>, log: seq<Act>, mark: int, x: int)
    requires Grown(s, es, log) && Rests(Run(s, es), mark, [], []) && x > mark
    ensures var n := es + [Cold(x, BlobDone(false))] + [Batch(1)];
      Grown(s, n, log + [DidBlob(x)]) && Rests(Run(s, n), x, [], [])
  {
    hide *;
    var e := Cold(x, BlobDone(false));
    GrownLegal(s, es, log);
    BlobRests(Run(s, es), mark, x);
    Grows(s, es, log, e);
    GrownLegal(s, es + [e], log + []);
    BatchRests(Run(s, es + [e]), mark, x);
    Grows(s, es + [e], log + [], Batch(1));
    GrownLegal(s, es + [e] + [Batch(1)], log + [] + [DidBlob(x)]);
    assert log + [] == log;
  }

  lemma GrownLegal(s: Replica, es: seq<Event>, log: seq<Act>)
    requires Grown(s, es, log)
    ensures Legal(s, es) && QuietRun(s, es) && LogOf(s, es) == log
  {
  }

  lemma NothingShipped(coldBase: int, fastBase: int)
    ensures var s := Start(coldBase, fastBase);
      Grown(s, [], []) && Rests(Run(s, []), coldBase, [], []) && Completed([]) == [] && NoBoots([])
  {
  }

  predicate Fit(ms: seq<Message>, top: int) {
    forall m :: m in ms ==> m.lane == FastLane && m.sn.Some? && m.after <= top
  }

  lemma {:induction false} FastsRun(s: Replica, es: seq<Event>, log: seq<Act>, mark: int, ms: seq<Message>)
    requires Grown(s, es, log) && Rests(Run(s, es), mark, [], []) && NoBoots(es) && Fit(ms, mark)
    ensures var n := es + FastEvents(ms);
      && Grown(s, n, log + FastActs(ms)) && Rests(Run(s, n), mark, ms, [])
      && Completed(n) == Completed(es) && NoBoots(n)
  {
    hide Step, Enabled, Quiet, ActsOf, Rests, Run, Grown, Completed, NoBoots;
    if ms == [] {
      assert es + FastEvents(ms) == es && log + FastActs(ms) == log;
    } else {
      var front, m := ms[..|ms| - 1], ms[|ms| - 1];
      FastsRun(s, es, log, mark, front);
      var n := es + FastEvents(front);
      GrownLegal(s, n, log + FastActs(front));
      FastRests(Run(s, n), mark, front, m);
      Grows(s, n, log + FastActs(front), Fast(m));
      CompletedSnoc(n, Fast(m));
      assert n + [Fast(m)] == es + FastEvents(ms) && front + [m] == ms;
      assert (log + FastActs(front)) + [DidFast(m)] == log + FastActs(ms);
      assert Completed(n) + [] == Completed(n);
    }
  }

  /** A number above the blobs' and above every stamp. */
  function Above(base: int, ms: seq<Message>): int {
    if ms == [] then base + 1
    else
      var top := Above(base, ms[..|ms| - 1]);
      if ms[|ms| - 1].after > top then ms[|ms| - 1].after else top
  }

  lemma {:induction false} AboveAll(base: int, ms: seq<Message>)
    ensures Above(base, ms) > base && forall m :: m in ms ==> m.after <= Above(base, ms)
  {
    if ms != [] { AboveAll(base, ms[..|ms| - 1]); }
  }

  function ColdFirst(coldBase: int, h: seq<Out>, lost: set<int>): seq<Event> {
    var ms := Arrivals(h, lost);
    ShipEvents(Ships(h)) + [Cold(Above(Top(coldBase, Ships(h)), ms), Immediate(false))] + FastEvents(ms)
  }

  /** What the host sends fits the lanes: numbered fast messages, blobs numbered upwards. */
  predicate Sendable(coldBase: int, h: seq<Out>) {
    && (forall i :: 0 <= i < |h| && !h[i].Shipped? ==> h[i].m.lane == FastLane && h[i].m.sn.Some?)
    && Climbs([coldBase] + Ships(h))
  }

  lemma ArrivalsFit(coldBase: int, h: seq<Out>, lost: set<int>)
    requires Sendable(coldBase, h)
    ensures Fit(Arrivals(h, lost), Above(Top(coldBase, Ships(h)), Arrivals(h, lost)))
  {
    hide Arrivals, Ships, Climbs;
    var ms := Arrivals(h, lost);
    AboveAll(Top(coldBase, Ships(h)), ms);
    forall m | m in ms ensures m.lane == FastLane && m.sn.Some? { var i := OutAt(h, lost, m); }
  }

  lemma ColdFirstRuns(coldBase: int, fastBase: int, h: seq<Out>, lost: set<int>)
    requires Sendable(coldBase, h)
    ensures var es := ColdFirst(coldBase, h, lost);
      && Brought(coldBase, fastBase, es, h, lost) && QuietRun(Start(coldBase, fastBase), es)
      && Applied(coldBase, fastBase, es) == BlobActs(Ships(h)) + FastActs(Arrivals(h, lost))
  {
    hide *;
    var s, sns, ms := Start(coldBase, fastBase), Ships(h), Arrivals(h, lost);
    var top := Above(Top(coldBase, sns), ms);
    var es, e := ShipEvents(sns), Cold(top, Immediate(false));
    SendableClimbs(coldBase, h);
    ShipsRun(coldBase, fastBase, sns);
    AboveAll(Top(coldBase, sns), ms);
    GrownLegal(s, es, BlobActs(sns));
    MarkRests(Run(s, es), Top(coldBase, sns), top);
    Grows(s, es, BlobActs(sns), e);
    CompletedSnoc(es, e);
    ArrivalsFit(coldBase, h, lost);
    FastsRun(s, es + [e], BlobActs(sns) + [], top, ms);
    var all := es + [e] + FastEvents(ms);
    GrownLegal(s, all, BlobActs(sns) + [] + FastActs(ms));
    assert BlobActs(sns) + [] == BlobActs(sns);
    IsColdFirst(coldBase, h, lost, es, e);
    RestBrought(coldBase, fastBase, all, h, lost, top);
  }

  lemma SendableClimbs(coldBase: int, h: seq<Out>)
    requires Sendable(coldBase, h)
    ensures Climbs([coldBase] + Ships(h))
  {
  }

  lemma IsColdFirst(coldBase: int, h: seq<Out>, lost: set<int>, es: seq<Event>, e: Event)
    requires es == ShipEvents(Ships(h)) && e == Cold(Above(Top(coldBase, Ships(h)), Arrivals(h, lost)), Immediate(false))
    ensures ColdFirst(coldBase, h, lost) == es + [e] + FastEvents(Arrivals(h, lost))
    ensures Finished(e) == []
  {
  }

  lemma RestBrought(coldBase: int, fastBase: int, es: seq<Event>, h: seq<Out>, lost: set<int>, mark: int)
    requires Legal(Start(coldBase, fastBase), es) && NoBoots(es) && Completed(es) == Ships(h) + []
    requires Rests(Run(Start(coldBase, fastBase), es), mark, Arrivals(h, lost), [])
    ensures Brought(coldBase, fastBase, es, h, lost)
    ensures Applied(coldBase, fastBase, es) == LogOf(Start(coldBase, fastBase), es)
  {
    assert Ships(h) + [] == Ships(h);
  }

  // --------------------------------------- that run meets every stray ----

  lemma {:induction false} AllBlobs(sns: seq<int>)
    ensures |BlobActs(sns)| == |sns| && forall i :: 0 <= i < |sns| ==> BlobActs(sns)[i].DidBlob?
  {
    if sns != [] { AllBlobs(sns[..|sns| - 1]); }
  }

  lemma {:induction false} AllFasts(ms: seq<Message>)
    ensures |FastActs(ms)| == |ms| && forall i :: 0 <= i < |ms| ==> FastActs(ms)[i].DidFast?
  {
    if ms != [] { AllFasts(ms[..|ms| - 1]); }
  }

  lemma {:induction false} NoFasts(log: seq<Act>)
    requires forall i :: 0 <= i < |log| ==> log[i].DidBlob?
    ensures FastsIn(log) == []
  {
    if log != [] {
      assert forall i :: 0 <= i < |log| - 1 ==> log[..|log| - 1][i] == log[i];
      NoFasts(log[..|log| - 1]);
    }
  }

  /** With the cold lane first, nothing of `u` is applied before its last blob. */
  lemma NoneEarlier(sns: seq<int>, ms: seq<Message>, h: seq<Out>, u: Uuid)
    ensures Earlier(BlobActs(sns) + FastActs(ms), h, u) == []
  {
    hide LastBlob, FastsIn, BlobActs, FastActs;
    AllBlobs(sns);
    AllFasts(ms);
    var log := BlobActs(sns) + FastActs(ms);
    var q := LastBlob(log, h, u);
    assert q < |sns|;
    assert log[..q + 1] == BlobActs(sns)[..q + 1];
    NoFasts(log[..q + 1]);
    OfEmpty(u);
  }

  lemma ColdFirstBacked(v: Held, sns: seq<int>, ms: seq<Message>, h: seq<Out>, u: Uuid)
    requires LastBlob(BlobActs(sns) + FastActs(ms), h, u) >= 0
    ensures Backed(v, BlobActs(sns) + FastActs(ms), h, u)
  {
    hide LastBlob, BlobActs, FastActs, CargoOf;
    AllBlobs(sns);
    AllFasts(ms);
    var log := BlobActs(sns) + FastActs(ms);
    var q := LastBlob(log, h, u);
    assert Lands(log[q], h, u) && q < |sns|;
  }

  lemma AllStray(v: Held, log: seq<Act>, h: seq<Out>, lost: set<int>, u: Uuid)
    requires Earlier(log, h, u) == []
    requires LastShip(h, u) >= 0 ==> Backed(v, log, h, u)
    requires Of(FastsIn(log), u) == SentBefore(h, lost, u) + SentAfter(h, lost, u)
    ensures Undisturbed(v, log, h, lost, u) <==> Calm(v, h, lost, u)
  {
    hide Backed, Of, FastsIn, SentBefore, SentAfter, Earlier, Kills, Writes, AtCurrent, AtOf, Covers, Reg;
    var b, a := SentBefore(h, lost, u), SentAfter(h, lost, u);
    var k := LastShip(h, u);
    hide LastShip;
    assert b[0..] == b;
    assert Strays(log, h, lost, u) == b && Later(log, h, lost, u) == a;
    if k >= 0 && !Kills(a) && !Kills(b) {
      WritesAppend(b, a);
      KeptOf(v, log, h, u);
    }
  }

  lemma ColdFirstExact(coldBase: int, fastBase: int, v: Held, h: seq<Out>, lost: set<int>, u: Uuid)
    requires Sendable(coldBase, h) && StampsRise(Of(Arrivals(h, lost), u))
    requires Legal(Start(coldBase, fastBase), ColdFirst(coldBase, h, lost))
    ensures Undisturbed(v, Applied(coldBase, fastBase, ColdFirst(coldBase, h, lost)), h, lost, u)
       <==> Calm(v, h, lost, u)
  {
    hide *;
    var es, sns, ms := ColdFirst(coldBase, h, lost), Ships(h), Arrivals(h, lost);
    var log := BlobActs(sns) + FastActs(ms);
    ColdFirstRuns(coldBase, fastBase, h, lost);
    LogMatches(coldBase, fastBase, es, h, lost, u);
    NoneEarlier(sns, ms, h, u);
    LastBlobIsLastShip(log, h, u);
    if LastShip(h, u) >= 0 { ColdFirstBacked(v, sns, ms, h, u); }
    SplitArrivals(h, lost, u);
    AllStray(v, log, h, lost, u);
  }

  // -------------------------------------------------- every quiet run ----

  /** The run is quiet, brings the replica what was sent and not lost, and ends at rest. */
  ghost predicate Brings(coldBase: int, fastBase: int, es: seq<Event>, h: seq<Out>, lost: set<int>) {
    Brought(coldBase, fastBase, es, h, lost) && QuietRun(Start(coldBase, fastBase), es)
  }

  /** Every quiet run that brings what was sent ends, for `u`, as send order and whole blobs would, iff
      what was sent is calm: no blob of `u` can be hurt by all that was sent before it landing behind
      it. The worst run is the one that takes the whole cold lane first. */
  lemma EveryOrderExact(coldBase: int, fastBase: int, v: Held, h: seq<Out>, lost: set<int>, u: Uuid)
    requires Sendable(coldBase, h) && StampsRise(Of(Arrivals(h, lost), u)) && Followed(h, u) && Introduced(v, h, u)
    ensures Calm(v, h, lost, u) <==>
      forall es :: Brings(coldBase, fastBase, es, h, lost) ==>
        Reg(v, Applied(coldBase, fastBase, es), h, u).regs == SentOrder(v.regs, h, lost, u)
  {
    hide *;
    if Calm(v, h, lost, u) {
      forall es | Brings(coldBase, fastBase, es, h, lost)
        ensures Legal(Start(coldBase, fastBase), es)
             && Reg(v, Applied(coldBase, fastBase, es), h, u).regs == SentOrder(v.regs, h, lost, u)
      {
        BringsParts(coldBase, fastBase, es, h, lost);
        CalmUndisturbed(coldBase, fastBase, es, v, h, lost, u);
        ReplicaExact(coldBase, fastBase, es, v, h, lost, u);
      }
    } else {
      var es := ColdFirst(coldBase, h, lost);
      ColdFirstBrings(coldBase, fastBase, h, lost);
      BringsParts(coldBase, fastBase, es, h, lost);
      ColdFirstExact(coldBase, fastBase, v, h, lost, u);
      ReplicaExact(coldBase, fastBase, es, v, h, lost, u);
    }
  }

  lemma ColdFirstBrings(coldBase: int, fastBase: int, h: seq<Out>, lost: set<int>)
    requires Sendable(coldBase, h)
    ensures Brings(coldBase, fastBase, ColdFirst(coldBase, h, lost), h, lost)
  {
    hide ColdFirst, QuietRun, Sendable;
    ColdFirstRuns(coldBase, fastBase, h, lost);
  }

  lemma BringsParts(coldBase: int, fastBase: int, es: seq<Event>, h: seq<Out>, lost: set<int>)
    requires Brings(coldBase, fastBase, es, h, lost)
    ensures Legal(Start(coldBase, fastBase), es)
    ensures Brought(coldBase, fastBase, es, h, lost) && QuietRun(Start(coldBase, fastBase), es)
  {
  }

  /** Where send order ends without `u`, its last word is a tombstone. */
  lemma GoneIsCalm(v: Held, h: seq<Out>, lost: set<int>, u: Uuid)
    requires SentOrder(v.regs, h, lost, u).None?
    ensures Calm(v, h, lost, u)
  {
    hide SentOrder, Kills, Writes, LastShip, SentBefore, SentAfter, Covers, AtCurrent, AtOf;
    var k := LastShip(h, u);
    SentOrderSplit(v.regs, h, lost, u);
    if k >= 0 { AfterIs(h, lost, u); WroteAllClosed(h[k].cargo.regs, SentAfter(h, lost, u)); }
  }

  lemma AfterIs(h: seq<Out>, lost: set<int>, u: Uuid)
    ensures SentAfter(h, lost, u) == Of(Arrivals(h[LastShip(h, u) + 1..], lost), u)
  {
  }

  /** The same for a repair: every quiet run that brings what was sent leaves the replica with what
      the host has of `u`, iff what was sent is calm and no re-assert's tombstone took `u` from under
      the host. One run in which the hole was reported is enough to know the repair was asked for. */
  lemma EveryRepairExact(s: Scene, coldBase: int, fastBase: int, asked: seq<Event>, h: seq<Out>, lost: set<int>,
                         n: nat, g: int, w: nat, capacity: nat, u: Uuid)
    requires RepairRun(s, coldBase, fastBase, asked, h, lost, n, g, w, capacity)
    requires Sendable(coldBase, h) && StampsRise(Of(Arrivals(h, lost), u))
    requires Followed(h, u) && Introduced(Fresh(s, u), h, u)
    ensures Calm(Fresh(s, u), h, lost, u) && !(HostReg(At(s, u), h, u).Some? && Revived(h, lost, u)) <==>
      forall es :: Brings(coldBase, fastBase, es, h, lost) ==>
        EndsWith(s, coldBase, fastBase, es, h, u) == HostReg(At(s, u), h, u)
  {
    hide *;
    RepairConverges(s, coldBase, fastBase, asked, h, lost, n, g, w, capacity, u);
    EveryOrderExact(coldBase, fastBase, Fresh(s, u), h, lost, u);
    FreshIs(s, u);
    forall es | Brings(coldBase, fastBase, es, h, lost)
      ensures Legal(Start(coldBase, fastBase), es)
      ensures EndsWith(s, coldBase, fastBase, es, h, u)
           == Reg(Fresh(s, u), Applied(coldBase, fastBase, es), h, u).regs
    {
      BringsParts(coldBase, fastBase, es, h, lost);
      EndsWithReg(s, coldBase, fastBase, es, h, u);
    }
    if HostReg(At(s, u), h, u).Some? && Revived(h, lost, u) {
      GoneIsCalm(Fresh(s, u), h, lost, u);
      ColdFirstBrings(coldBase, fastBase, h, lost);
      var es := ColdFirst(coldBase, h, lost);
      assert EndsWith(s, coldBase, fastBase, es, h, u) == None;
    }
  }

  lemma FreshIs(s: Scene, u: Uuid)
    ensures Fresh(s, u).regs == At(s, u)
  {
  }
}
