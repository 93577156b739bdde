/**
 * Three histories the fast-lane repair does not mend (qcbridge/ring0/host_handlers.py:
 * resend_fast_window): a datablock made again after a lost tombstone, a delta overtaken by a
 * newer blob of its datablock, and an "@" register that a blob ships.
 */
module RepairCases {
  import opened Wrappers
  import opened Wire
  import opened AtStates
  import opened SeqTracking
  import opened FastLogs
  import opened LaneMerge
  import opened ReplicaApply
  import opened ReplicaGate
  import opened TwoLanes
  import opened Convergence
  import opened RepairRuns

  function Deletion(u: Uuid, sn: int): Message { Message(FastLane, Some(sn), u, sn - 1, Tombstone) }

  /** Deleted, made again; the tombstone was lost, and the re-assert repeats it. */
  function BroughtBack(u: Uuid, regs: Registers): seq<Out> {
    [Said(Deletion(u, 1)), Shipped(u, Cargo(regs, map[]), 1), Again(Deletion(u, 2))]
  }

  lemma BroughtBackFronts(u: Uuid, regs: Registers)
    ensures var h := BroughtBack(u, regs);
      h[..2] == [h[0], h[1]] && [h[0], h[1]][..1] == [h[0]] && [h[0]][..0] == []
  {
  }

  lemma BroughtBackLogs(u: Uuid, regs: Registers)
    ensures var h := BroughtBack(u, regs);
      |h| == 3 && Logged(h[..2]) == [Entry(1, u, Tomb)] && Sound(map[u := regs], h)
  {
    BroughtBackFronts(u, regs);
    var h := BroughtBack(u, regs);
    assert Logged([h[0]]) == [] + [Entry(1, u, Tomb)];
  }

  lemma OneNamed(u: Uuid)
    ensures WindowOf([Entry(1, u, Tomb)], 1) == Window([u], map[u := Tomb])
  {
    assert [Entry(1, u, Tomb)][..0] == [];
    assert [] + [u] == [u];
  }

  lemma BroughtBackValues(u: Uuid, regs: Registers)
    ensures var h, v := BroughtBack(u, regs), At(map[u := regs], u);
      Clean(h, {1}, u) && HostReg(v, h, u) == Some(regs) && SentOrder(v, h, {1}, u) == None
  {
    BroughtBackFronts(u, regs);
    var h, v := BroughtBack(u, regs), At(map[u := regs], u);
    assert HostReg(v, [h[0], h[1]], u) == Some(regs) && SentOrder(v, [h[0], h[1]], {1}, u) == Some(regs);
  }

  /** A datablock deleted and made again, whose tombstone was lost: the window names it as deleted, and
      the repair takes from the replica what the host has. */
  lemma RevivalDefeatsRepair(u: Uuid, regs: Registers)
    ensures var h, s: Scene := BroughtBack(u, regs), map[u := regs];
      && Sound(s, h) && Reasserted(h, {1}, 2, 1, 8) && Clean(h, {1}, u)
      && HostReg(At(s, u), h, u) == Some(regs) && SentOrder(At(s, u), h, {1}, u) == None
  {
    hide Logged, Sound, Clean, HostReg, SentOrder, WindowOf;
    BroughtBackLogs(u, regs);
    BroughtBackValues(u, regs);
    OneNamed(u);
    assert BroughtBack(u, regs)[2].m.uuid == u;
  }

  // ------------------------------------ when a blob overtakes a delta ----

  /** The messages of the case below: a delta of `u`, and two of `v`, the first of which is lost. */
  function Old(u: Uuid, p: Path, one: Value): Message { Message(FastLane, Some(1), u, 0, Delta(map[p := one])) }
  function Missed(v: Uuid): Message { Message(FastLane, Some(2), v, 0, Delta(map[])) }
  function Next(v: Uuid): Message { Message(FastLane, Some(3), v, 0, Delta(map[])) }

  function Overtaken(u: Uuid, v: Uuid, p: Path, one: Value, two: Value): seq<Out> {
    [Said(Old(u, p, one)), Shipped(u, Cargo(map[p := two], map[]), 1), Said(Missed(v)), Said(Next(v))]
  }

  function BlobFirst(u: Uuid, v: Uuid, p: Path, one: Value): seq<Event> {
    [Cold(1, BlobDone(false)), Batch(1), Fast(Old(u, p, one)), Fast(Next(v))]
  }

  /** What the case needs to know of a replica with nothing parked. */
  predicate Stands(r: Replica, cold: int, fast: Track, arrived: seq<Message>, pending: seq<Pending>) {
    r.m.coldApplied == cold && r.m.fast == fast && r.arrived == arrived && r.pending == pending && r.m.parked == []
  }

  lemma FastStands(r: Replica, cold: int, fast: Track, arrived: seq<Message>, msg: Message, x: int)
    requires Stands(r, cold, fast, arrived, []) && !msg.body.ResyncEnd? && msg.lane == FastLane
    requires msg.after <= cold && msg.sn == Some(x)
    ensures Enabled(r, Fast(msg)) && Quiet(r, Fast(msg)) && ActsOf(r, Fast(msg)) == [DidFast(msg)]
    ensures Stands(Step(r, Fast(msg)), cold, Observed(fast, x), arrived + [msg], [])
    ensures Step(r, Fast(msg)).m.cold == r.m.cold
  {
    hide FastDone, Outruns;
    FastDoneFrame(ObservedOn(r.m, msg), msg.sn);
  }

  lemma BlobStands(r: Replica, cold: int, fast: Track, arrived: seq<Message>, sn: int)
    requires Stands(r, cold, fast, arrived, []) && r.m.cold.lastSeen == Some(cold) && sn > cold
    ensures Enabled(r, Cold(sn, BlobDone(false))) && Quiet(r, Cold(sn, BlobDone(false)))
    ensures ActsOf(r, Cold(sn, BlobDone(false))) == []
    ensures Stands(Step(r, Cold(sn, BlobDone(false))), cold, fast, arrived, [Pending(sn, {sn}, false)])
  {
  }

  lemma BatchStands(r: Replica, cold: int, fast: Track, arrived: seq<Message>, sn: int)
    requires Stands(r, cold, fast, arrived, [Pending(sn, {sn}, false)]) && sn > cold
    ensures Enabled(r, Batch(1)) && Quiet(r, Batch(1)) && ActsOf(r, Batch(1)) == [DidBlob(sn)]
    ensures Stands(Step(r, Batch(1)), sn, fast, arrived, [])
  {
    assert AppliedSome(r, 0) == (r, []);
    assert Released(r.m, Some(sn)) == [];
    assert AppliedSome(r, 1) == (AppliedOne(r), [] + Released(r.m, Some(sn)));
    assert r.pending[..1] == [Pending(sn, {sn}, false)];
    assert Blobs(r.pending[..1]) == [DidBlob(sn)] && Fasts([]) == [];
  }

  /** The blob completes and applies before the older delta arrives. */
  lemma BlobFirstRuns(u: Uuid, v: Uuid, p: Path, one: Value)
    ensures Grown(Start(0, 0), BlobFirst(u, v, p, one), [DidBlob(1), DidFast(Old(u, p, one)), DidFast(Next(v))])
    ensures Stands(Run(Start(0, 0), BlobFirst(u, v, p, one)), 1, Track(Some(3), 1, Some(2)), [Old(u, p, one), Next(v)], [])
  {
    hide Step, Enabled, Quiet, ActsOf, Stands, Legal, Run, QuietRun, LogOf;
    var r, none: seq<Event> := Start(0, 0), [];
    var e0, e1, e2, e3 := Cold(1, BlobDone(false)), Batch(1), Fast(Old(u, p, one)), Fast(Next(v));
    EmptyGrown(0, 0);
    BlobStands(r, 0, Track(Some(0), 0, None), [], 1);
    Grows(r, none, [], e0);
    BatchStands(Run(r, none + [e0]), 0, Track(Some(0), 0, None), [], 1);
    Grows(r, none + [e0], [] + [], e1);
    FastStands(Run(r, none + [e0] + [e1]), 1, Track(Some(0), 0, None), [], Old(u, p, one), 1);
    Grows(r, none + [e0] + [e1], [] + [] + [DidBlob(1)], e2);
    FastStands(Run(r, none + [e0] + [e1] + [e2]), 1, Track(Some(1), 0, None), [] + [Old(u, p, one)], Next(v), 3);
    Grows(r, none + [e0] + [e1] + [e2], [] + [] + [DidBlob(1)] + [DidFast(Old(u, p, one))], e3);
    assert none + [e0] + [e1] + [e2] + [e3] == BlobFirst(u, v, p, one);
    assert [] + [Old(u, p, one)] + [Next(v)] == [Old(u, p, one), Next(v)];
    assert [] + [] + [DidBlob(1)] + [DidFast(Old(u, p, one))] + [DidFast(Next(v))]
        == [DidBlob(1), DidFast(Old(u, p, one)), DidFast(Next(v))];
  }

  lemma EmptyGrown(coldBase: int, fastBase: int)
    ensures var r := Start(coldBase, fastBase);
      Grown(r, [], []) && Run(r, []) == r && Stands(r, coldBase, Track(Some(fastBase), 0, None), [], [])
      && r.m.cold.lastSeen == Some(coldBase)
  {
  }

  /** Four messages, front by front. */
  lemma Fronts(a: Out, b: Out, c: Out, d: Out)
    ensures [a, b, c, d][..3] == [a, b, c] && [a, b, c][..2] == [a, b] && [a, b][..1] == [a] && [a][..0] == []
  {
  }

  lemma OvertakenArrives(u: Uuid, v: Uuid, p: Path, one: Value, two: Value)
    ensures var h := Overtaken(u, v, p, one, two);
      Arrivals(h, {2}) == [Old(u, p, one), Next(v)] && Ships(h) == [1]
  {
    var h := Overtaken(u, v, p, one, two);
    Fronts(h[0], h[1], h[2], h[3]);
    assert Arrivals([h[0]], {2}) == [] + [Old(u, p, one)] && Ships([h[0]]) == [];
    assert Arrivals([h[0], h[1]], {2}) == [] + [Old(u, p, one)] && Ships([h[0], h[1]]) == [] + [1];
    assert Arrivals([h[0], h[1], h[2]], {2}) == [] + [Old(u, p, one)] && Ships([h[0], h[1], h[2]]) == [] + [1];
  }

  lemma OvertakenLogs(u: Uuid, v: Uuid, p: Path, one: Value, two: Value)
    ensures Logged(Overtaken(u, v, p, one, two)) == [Entry(1, u, T1), Entry(2, v, T1), Entry(3, v, T1)]
    ensures Numbers(Overtaken(u, v, p, one, two)) == [1, 2, 3]
  {
    var h := Overtaken(u, v, p, one, two);
    Fronts(h[0], h[1], h[2], h[3]);
    var a, b, c := Entry(1, u, T1), Entry(2, v, T1), Entry(3, v, T1);
    assert Logged([h[0]]) == [] + [a] && Numbers([h[0]]) == [] + [1];
    assert Logged([h[0], h[1]]) == [] + [a] && Numbers([h[0], h[1]]) == [] + [1];
    assert Logged([h[0], h[1], h[2]]) == [] + [a] + [b] && Numbers([h[0], h[1], h[2]]) == [] + [1] + [2];
  }

  lemma OnlyOther(u: Uuid, v: Uuid)
    ensures WindowOf([Entry(1, u, T1), Entry(2, v, T1), Entry(3, v, T1)], 2) == Window([v], map[v := T1])
  {
    var es := [Entry(1, u, T1), Entry(2, v, T1), Entry(3, v, T1)];
    assert es[..2] == [es[0], es[1]] && [es[0], es[1]][..1] == [es[0]] && [es[0]][..0] == [];
    assert WindowOf([es[0]], 2) == EMPTY;
    assert WindowOf([es[0], es[1]], 2) == Window([v], map[v := T1]) by { assert [] + [v] == [v]; }
  }

  lemma OvertakenHost(u: Uuid, v: Uuid, p: Path, one: Value, two: Value, s: Scene)
    requires u != v
    ensures HostReg(At(s, u), Overtaken(u, v, p, one, two), u) == Some(map[p := two])
    ensures CargoOf(Overtaken(u, v, p, one, two), 1, u) == Some(Cargo(map[p := two], map[]))
  {
    var h := Overtaken(u, v, p, one, two);
    Fronts(h[0], h[1], h[2], h[3]);
    assert HostReg(At(s, u), [h[0], h[1]], u) == Some(map[p := two]);
    assert CargoOf([h[0], h[1]], 1, u) == Some(Cargo(map[p := two], map[]));
  }

  lemma OvertakenOther(u: Uuid, v: Uuid, p: Path, one: Value, two: Value, s: Scene)
    requires u != v && v in s
    ensures HostReg(At(s, v), Overtaken(u, v, p, one, two), v) == Some(s[v])
  {
    var h := Overtaken(u, v, p, one, two);
    Fronts(h[0], h[1], h[2], h[3]);
    assert s[v] + map[] == s[v];
    assert HostReg(At(s, v), [h[0]], v) == At(s, v);
    assert HostReg(At(s, v), [h[0], h[1]], v) == At(s, v);
    assert HostReg(At(s, v), [h[0], h[1], h[2]], v) == At(s, v);
  }

  lemma OvertakenReg(h: seq<Out>, v: Uuid, u: Uuid, p: Path, one: Value, two: Value, w: Held)
    requires u != v && CargoOf(h, 1, u) == Some(Cargo(map[p := two], map[]))
    ensures Reg(w, [DidBlob(1), DidFast(Old(u, p, one)), DidFast(Next(v))], h, u).regs == Some(map[p := one])
  {
    hide CargoOf, Shown;
    var log := [DidBlob(1), DidFast(Old(u, p, one)), DidFast(Next(v))];
    assert log[..2] == [log[0], log[1]] && [log[0], log[1]][..1] == [log[0]];
    var c := Cargo(map[p := two], map[]);
    assert Reg(w, [log[0]], h, u) == Landed(w, c);
    assert Loaded(c, w.kept) + map[p := one] == map[p := one];
  }

  lemma BlobFirstCompletes(u: Uuid, v: Uuid, p: Path, one: Value)
    ensures var es := BlobFirst(u, v, p, one);
      NoBoots(es) && Completed(es) == [1] && |es| == 4 && es[..4] == es && NoEnd([Old(u, p, one), Next(v)])
  {
    var es := BlobFirst(u, v, p, one);
    assert es[..3] == [es[0], es[1], es[2]] && [es[0], es[1], es[2]][..2] == [es[0], es[1]];
    assert [es[0], es[1]][..1] == [es[0]] && [es[0]][..0] == [];
    assert Completed([es[0]]) == [] + [1];
    assert Completed([es[0], es[1]]) == [] + [1] + [];
    assert Completed([es[0], es[1], es[2]]) == [] + [1] + [] + [];
  }

  /** The re-assert of `v`: every register the host has of it. */
  function Whole(v: Uuid, regs: Registers): Message { Message(FastLane, Some(4), v, 0, Delta(regs)) }

  /** That history with its repair, and the run that brings it. */
  function Repaired(u: Uuid, v: Uuid, p: Path, one: Value, two: Value, regs: Registers): seq<Out> {
    Overtaken(u, v, p, one, two) + [Again(Whole(v, regs))]
  }

  function RepairedRun(u: Uuid, v: Uuid, p: Path, one: Value, regs: Registers): seq<Event> {
    BlobFirst(u, v, p, one) + [Fast(Whole(v, regs))]
  }

  lemma RepairedRuns(u: Uuid, v: Uuid, p: Path, one: Value, regs: Registers)
    ensures var es := RepairedRun(u, v, p, one, regs);
      && Grown(Start(0, 0), es, [DidBlob(1), DidFast(Old(u, p, one)), DidFast(Next(v))] + [DidFast(Whole(v, regs))])
      && Stands(Run(Start(0, 0), es), 1, Observed(Track(Some(3), 1, Some(2)), 4),
                [Old(u, p, one), Next(v)] + [Whole(v, regs)], [])
  {
    hide Step, Enabled, Quiet, ActsOf, Stands, Legal, Run, QuietRun, LogOf, BlobFirst;
    var r := Start(0, 0);
    BlobFirstRuns(u, v, p, one);
    FastStands(Run(r, BlobFirst(u, v, p, one)), 1, Track(Some(3), 1, Some(2)), [Old(u, p, one), Next(v)], Whole(v, regs), 4);
    Grows(r, BlobFirst(u, v, p, one), [DidBlob(1), DidFast(Old(u, p, one)), DidFast(Next(v))], Fast(Whole(v, regs)));
  }

  /** One entry more. */
  lemma OneMore(h: seq<Out>, o: Out, lost: set<int>, v: Option<Registers>, u: Uuid)
    requires o.Again? && o.m.sn.Some?
    ensures var n := h + [o];
      && Arrivals(n, lost) == (if Arrives(o, lost) then Arrivals(h, lost) + [o.m] else Arrivals(h, lost))
      && Ships(n) == Ships(h) && Numbers(n) == Numbers(h) + [o.m.sn.value]
      && HostReg(v, n, u) == HostReg(v, h, u) && forall sn, x :: CargoOf(n, sn, x) == CargoOf(h, sn, x)
  {
    assert (h + [o])[..|h + [o]| - 1] == h;
  }

  lemma RegOther(w: Held, log: seq<Act>, h: seq<Out>, u: Uuid, m: Message)
    requires m.uuid != u
    ensures Reg(w, log + [DidFast(m)], h, u) == Reg(w, log, h, u)
  {
    assert (log + [DidFast(m)])[..|log|] == log;
  }

  lemma RepairedCompletes(u: Uuid, v: Uuid, p: Path, one: Value, regs: Registers)
    ensures var es := RepairedRun(u, v, p, one, regs);
      NoBoots(es) && Completed(es) == [1] && |es| == 5 && es[..4] == BlobFirst(u, v, p, one)
  {
    hide Completed;
    BlobFirstCompletes(u, v, p, one);
    var es, f := RepairedRun(u, v, p, one, regs), Fast(Whole(v, regs));
    assert es[..|es| - 1] == BlobFirst(u, v, p, one) && es[|es| - 1] == f;
    CompletedFast(es);
  }

  lemma CompletedFast(es: seq<Event>)
    requires es != [] && es[|es| - 1].Fast?
    ensures Completed(es) == Completed(es[..|es| - 1])
  {
  }

  lemma RepairedSound(u: Uuid, v: Uuid, p: Path, one: Value, two: Value, s: Scene)
    requires u != v && v in s
    ensures Sound(s, Repaired(u, v, p, one, two, s[v]))
  {
    hide HostReg;
    OvertakenOther(u, v, p, one, two, s);
    var h := Repaired(u, v, p, one, two, s[v]);
    assert h[..4] == Overtaken(u, v, p, one, two);
  }

  lemma RepairedNumbered(u: Uuid, v: Uuid, p: Path, one: Value, two: Value, regs: Registers)
    ensures RepairRuns.Numbered(0, Repaired(u, v, p, one, two, regs))
  {
    hide Numbers;
    OvertakenLogs(u, v, p, one, two);
    OneMore(Overtaken(u, v, p, one, two), Again(Whole(v, regs)), {}, None, u);
    assert [0] + ([1, 2, 3] + [4]) == [0, 1, 2, 3, 4];
  }

  lemma RepairedReasserted(u: Uuid, v: Uuid, p: Path, one: Value, two: Value, regs: Registers)
    ensures Reasserted(Repaired(u, v, p, one, two, regs), {2}, 4, 2, 8)
  {
    hide Logged, WindowOf;
    var h := Repaired(u, v, p, one, two, regs);
    OvertakenLogs(u, v, p, one, two);
    OnlyOther(u, v);
    assert h[..4] == Overtaken(u, v, p, one, two) && h[4] == Again(Whole(v, regs));
  }

  lemma RepairedArrives(u: Uuid, v: Uuid, p: Path, one: Value, two: Value, regs: Registers)
    ensures Brought(0, 0, RepairedRun(u, v, p, one, regs), Repaired(u, v, p, one, two, regs), {2})
    ensures Reported(0, 0, RepairedRun(u, v, p, one, regs), 4, 2)
    ensures QuietRun(Start(0, 0), RepairedRun(u, v, p, one, regs))
  {
    hide Legal, Run, QuietRun, LogOf, NoBoots, Completed, Arrivals, Ships, NoEnd, Overtaken, BlobFirst, RepairedRun;
    RepairedRuns(u, v, p, one, regs);
    RepairedCompletes(u, v, p, one, regs);
    BlobFirstRuns(u, v, p, one);
    BlobFirstCompletes(u, v, p, one);
    OvertakenArrives(u, v, p, one, two);
    OneMore(Overtaken(u, v, p, one, two), Again(Whole(v, regs)), {2}, None, u);
  }

  /** A blob that overtakes an older delta of its datablock: the delta lands last. The hole another
      datablock left reveals nothing of it: the repair runs to its end and never names `u`, and the
      replica keeps the old value. */
  lemma OvertakenDelta(u: Uuid, v: Uuid, p: Path, one: Value, two: Value, s: Scene)
    requires u != v && v in s
    ensures var es, h := RepairedRun(u, v, p, one, s[v]), Repaired(u, v, p, one, two, s[v]);
      && RepairRun(s, 0, 0, es, h, {2}, 4, 2, 4, 8) && QuietRun(Start(0, 0), es)
      && u !in WindowOf(Logged(h[..4]), 2).kinds
      && HostReg(At(s, u), h, u) == Some(map[p := two])
      && EndsWith(s, 0, 0, es, h, u) == Some(map[p := one])
  {
    hide Legal, Run, QuietRun, LogOf, NoBoots, Completed, Arrivals, Ships, Logged, HostReg, CargoOf, Reg, NoEnd,
         Overtaken, BlobFirst, WindowOf, LastKind, RepairedRun, Brought, Reported, Reasserted, Sound, RepairRuns.Numbered;
    var es, h := RepairedRun(u, v, p, one, s[v]), Repaired(u, v, p, one, two, s[v]);
    var h4, full := Overtaken(u, v, p, one, two), Whole(v, s[v]);
    RepairedArrives(u, v, p, one, two, s[v]);
    RepairedSound(u, v, p, one, two, s);
    RepairedNumbered(u, v, p, one, two, s[v]);
    RepairedReasserted(u, v, p, one, two, s[v]);
    RepairedRuns(u, v, p, one, s[v]);
    OvertakenLogs(u, v, p, one, two);
    OnlyOther(u, v);
    OvertakenHost(u, v, p, one, two, s);
    OneMore(h4, Again(full), {2}, At(s, u), u);
    OvertakenReg(h, v, u, p, one, two, Fresh(s, u));
    RegOther(Fresh(s, u), [DidBlob(1), DidFast(Old(u, p, one)), DidFast(Next(v))], h, u, full);
    OvertakenLength(u, v, p, one, two);
  }

  lemma OvertakenLength(u: Uuid, v: Uuid, p: Path, one: Value, two: Value)
    ensures |Overtaken(u, v, p, one, two)| == 4
  {
  }

  // ------------------------------------ when a blob ships an "@" register ----

  /** The same messages, none overtaken: the delta, then the blob, then the repair. */
  function InTurn(u: Uuid, v: Uuid, p: Path, one: Value, regs: Registers): seq<Event> {
    [Fast(Old(u, p, one)), Cold(1, BlobDone(false)), Batch(1), Fast(Next(v)), Fast(Whole(v, regs))]
  }

  function InTurnLog(u: Uuid, v: Uuid, p: Path, one: Value, regs: Registers): seq<Act> {
    [DidFast(Old(u, p, one)), DidBlob(1), DidFast(Next(v)), DidFast(Whole(v, regs))]
  }

  lemma InTurnRuns(u: Uuid, v: Uuid, p: Path, one: Value, regs: Registers)
    ensures Grown(Start(0, 0), InTurn(u, v, p, one, regs), InTurnLog(u, v, p, one, regs))
    ensures Stands(Run(Start(0, 0), InTurn(u, v, p, one, regs)), 1, Observed(Track(Some(3), 1, Some(2)), 4),
                   [Old(u, p, one), Next(v), Whole(v, regs)], [])
    ensures Grown(Start(0, 0), InTurn(u, v, p, one, regs)[..4], InTurnLog(u, v, p, one, regs)[..3])
    ensures Stands(Run(Start(0, 0), InTurn(u, v, p, one, regs)[..4]), 1, Track(Some(3), 1, Some(2)),
                   [Old(u, p, one), Next(v)], [])
  {
    hide Step, Enabled, Quiet, ActsOf, Stands, Legal, Run, QuietRun, LogOf;
    var r, none: seq<Event> := Start(0, 0), [];
    var e0, e1, e2 := Fast(Old(u, p, one)), Cold(1, BlobDone(false)), Batch(1);
    var e3, e4 := Fast(Next(v)), Fast(Whole(v, regs));
    EmptyGrown(0, 0);
    FastStands(r, 0, Track(Some(0), 0, None), [], Old(u, p, one), 1);
    Grows(r, none, [], e0);
    BlobStands(Run(r, none + [e0]), 0, Track(Some(1), 0, None), [] + [Old(u, p, one)], 1);
    Grows(r, none + [e0], [] + [DidFast(Old(u, p, one))], e1);
    BatchStands(Run(r, none + [e0] + [e1]), 0, Track(Some(1), 0, None), [] + [Old(u, p, one)], 1);
    Grows(r, none + [e0] + [e1], [] + [DidFast(Old(u, p, one))] + [], e2);
    FastStands(Run(r, none + [e0] + [e1] + [e2]), 1, Track(Some(1), 0, None), [] + [Old(u, p, one)], Next(v), 3);
    Grows(r, none + [e0] + [e1] + [e2], [] + [DidFast(Old(u, p, one))] + [] + [DidBlob(1)], e3);
    FastStands(Run(r, none + [e0] + [e1] + [e2] + [e3]), 1, Track(Some(3), 1, Some(2)),
               [] + [Old(u, p, one)] + [Next(v)], Whole(v, regs), 4);
    Grows(r, none + [e0] + [e1] + [e2] + [e3],
          [] + [DidFast(Old(u, p, one))] + [] + [DidBlob(1)] + [DidFast(Next(v))], e4);
    assert none + [e0] + [e1] + [e2] + [e3] + [e4] == InTurn(u, v, p, one, regs);
    assert none + [e0] + [e1] + [e2] + [e3] == InTurn(u, v, p, one, regs)[..4];
    assert [] + [Old(u, p, one)] + [Next(v)] + [Whole(v, regs)] == [Old(u, p, one), Next(v), Whole(v, regs)];
    assert [] + [Old(u, p, one)] + [Next(v)] == [Old(u, p, one), Next(v)];
    var log := [] + [DidFast(Old(u, p, one))] + [] + [DidBlob(1)] + [DidFast(Next(v))];
    assert log + [DidFast(Whole(v, regs))] == InTurnLog(u, v, p, one, regs) && log == InTurnLog(u, v, p, one, regs)[..3];
  }

  lemma InTurnCompletes(u: Uuid, v: Uuid, p: Path, one: Value, regs: Registers)
    ensures var es := InTurn(u, v, p, one, regs); NoBoots(es) && Completed(es) == [1]
  {
    var es := InTurn(u, v, p, one, regs);
    assert es[..4] == [es[0], es[1], es[2], es[3]] && [es[0], es[1], es[2], es[3]][..3] == [es[0], es[1], es[2]];
    assert [es[0], es[1], es[2]][..2] == [es[0], es[1]] && [es[0], es[1]][..1] == [es[0]] && [es[0]][..0] == [];
    assert Completed([es[0]]) == [] + [];
    assert Completed([es[0], es[1]]) == [] + [] + [1];
    assert Completed([es[0], es[1], es[2]]) == [] + [] + [1] + [];
    assert Completed([es[0], es[1], es[2], es[3]]) == [] + [] + [1] + [] + [];
  }

  lemma LogFronts(a: Act, b: Act, c: Act, d: Act)
    ensures [a, b, c, d][..3] == [a, b, c] && [a, b, c][..2] == [a, b] && [a, b][..1] == [a] && [a][..0] == []
  {
  }

  lemma InTurnReg(h: seq<Out>, u: Uuid, v: Uuid, p: Path, one: Value, two: Value, regs: Registers, w: Held)
    requires u != v && IsAt(p) && w.regs.Some? && CargoOf(h, 1, u) == Some(Cargo(map[p := two], map[]))
    ensures Reg(w, InTurnLog(u, v, p, one, regs), h, u).regs == Some(map[p := one])
  {
    hide CargoOf, Got, Landed;
    var log := InTurnLog(u, v, p, one, regs);
    LogFronts(log[0], log[1], log[2], log[3]);
    var c, a := Cargo(map[p := two], map[]), Got(w, Old(u, p, one));
    assert Reg(w, [], h, u) == w;
    assert Reg(w, [log[0]], h, u) == a;
    assert Reg(w, [log[0], log[1]], h, u) == Landed(a, c);
    assert Reg(w, [log[0], log[1], log[2]], h, u) == Landed(a, c);
    EyeStays(w, u, p, one, two);
  }

  lemma EyeStays(w: Held, u: Uuid, p: Path, one: Value, two: Value)
    requires IsAt(p) && w.regs.Some?
    ensures Landed(Got(w, Old(u, p, one)), Cargo(map[p := two], map[])).regs == Some(map[p := one])
  {
    var k := w.kept + AtOf(map[p := one]);
    assert p in k && k[p] == one;
    assert Loaded(Cargo(map[p := two], map[]), k) == map[p := one];
  }

  lemma InTurnBlob(h: seq<Out>, u: Uuid, v: Uuid, p: Path, one: Value, regs: Registers)
    requires CargoOf(h, 1, u).Some?
    ensures LastBlob(InTurnLog(u, v, p, one, regs), h, u) == 1
  {
    hide CargoOf;
    var log := InTurnLog(u, v, p, one, regs);
    LogFronts(log[0], log[1], log[2], log[3]);
    assert LastBlob([log[0], log[1]], h, u) == 1 && LastBlob([log[0], log[1], log[2]], h, u) == 1;
  }

  lemma OneFast(m: Message, sn: int)
    ensures FastsIn([DidFast(m), DidBlob(sn)]) == [m] && Of([m], m.uuid) == [m]
  {
    assert [DidFast(m), DidBlob(sn)][..1] == [DidFast(m)] && [DidFast(m)][..0] == [];
    assert FastsIn([DidFast(m)]) == [] + [m];
    assert [m][..0] == [] && Of([m], m.uuid) == [] + [m];
  }

  lemma InTurnStrays(h: seq<Out>, u: Uuid, v: Uuid, p: Path, one: Value, two: Value, regs: Registers)
    requires u != v && h == Repaired(u, v, p, one, two, regs) && CargoOf(h, 1, u).Some?
    ensures Strays(InTurnLog(u, v, p, one, regs), h, {2}, u) == []
  {
    hide LastBlob, CargoOf, LastShip, Of, FastsIn, Arrivals;
    var log, first := InTurnLog(u, v, p, one, regs), Old(u, p, one);
    InTurnBlob(h, u, v, p, one, regs);
    assert log[..2] == [DidFast(first), DidBlob(1)];
    OneFast(first, 1);
    ShippedSecond(u, v, p, one, two, regs);
    assert h[..2] == [h[0], h[1]];
    FirstTwoArrive(u, v, p, one, two, regs);
  }

  lemma FirstTwoArrive(u: Uuid, v: Uuid, p: Path, one: Value, two: Value, regs: Registers)
    ensures var h := Repaired(u, v, p, one, two, regs); Arrivals([h[0], h[1]], {2}) == [Old(u, p, one)]
  {
    var h := Repaired(u, v, p, one, two, regs);
    assert [h[0], h[1]][..1] == [h[0]] && [h[0]][..0] == [];
    assert Arrivals([h[0]], {2}) == [] + [Old(u, p, one)];
  }

  lemma ShippedSecond(u: Uuid, v: Uuid, p: Path, one: Value, two: Value, regs: Registers)
    ensures LastShip(Repaired(u, v, p, one, two, regs), u) == 1
  {
    var h := Repaired(u, v, p, one, two, regs);
    assert h[..4] == [h[0], h[1], h[2], h[3]] && [h[0], h[1], h[2], h[3]][..3] == [h[0], h[1], h[2]];
    assert [h[0], h[1], h[2]][..2] == [h[0], h[1]];
    assert LastShip([h[0], h[1]], u) == 1 && LastShip([h[0], h[1], h[2]], u) == 1;
    assert LastShip([h[0], h[1], h[2], h[3]], u) == 1;
  }

  lemma InTurnArrives(u: Uuid, v: Uuid, p: Path, one: Value, two: Value, regs: Registers)
    ensures Brought(0, 0, InTurn(u, v, p, one, regs), Repaired(u, v, p, one, two, regs), {2})
    ensures Reported(0, 0, InTurn(u, v, p, one, regs), 4, 2)
    ensures QuietRun(Start(0, 0), InTurn(u, v, p, one, regs))
  {
    hide Legal, Run, QuietRun, LogOf, NoBoots, Completed, Arrivals, Ships, Overtaken;
    InTurnRuns(u, v, p, one, regs);
    InTurnCompletes(u, v, p, one, regs);
    OvertakenArrives(u, v, p, one, two);
    OneMore(Overtaken(u, v, p, one, two), Again(Whole(v, regs)), {2}, None, u);
    assert [Old(u, p, one), Next(v)] + [Whole(v, regs)] == [Old(u, p, one), Next(v), Whole(v, regs)];
  }

  /** An "@" register set by a delta and changed by a blob: nothing of `u` is lost or overtaken, but
      the replica writes back the value it last received, and the repair never names `u`. */
  lemma ShippedEyeIsLost(u: Uuid, v: Uuid, p: Path, one: Value, two: Value, s: Scene)
    requires u != v && u in s && v in s && IsAt(p)
    ensures var es, h := InTurn(u, v, p, one, s[v]), Repaired(u, v, p, one, two, s[v]);
      && RepairRun(s, 0, 0, es, h, {2}, 4, 2, 4, 8) && QuietRun(Start(0, 0), es)
      && Strays(Applied(0, 0, es), h, {2}, u) == []
      && u !in WindowOf(Logged(h[..4]), 2).kinds
      && HostReg(At(s, u), h, u) == Some(map[p := two])
      && EndsWith(s, 0, 0, es, h, u) == Some(map[p := one])
  {
    hide Legal, Run, QuietRun, LogOf, NoBoots, Completed, Arrivals, Ships, Logged, HostReg, CargoOf, Reg, NoEnd,
         Overtaken, WindowOf, LastKind, InTurn, InTurnLog, Brought, Reported, Reasserted, Sound, RepairRuns.Numbered,
         Strays, LastBlob;
    var es, h := InTurn(u, v, p, one, s[v]), Repaired(u, v, p, one, two, s[v]);
    var h4, full := Overtaken(u, v, p, one, two), Whole(v, s[v]);
    InTurnArrives(u, v, p, one, two, s[v]);
    RepairedSound(u, v, p, one, two, s);
    RepairedNumbered(u, v, p, one, two, s[v]);
    RepairedReasserted(u, v, p, one, two, s[v]);
    InTurnRuns(u, v, p, one, s[v]);
    OvertakenLogs(u, v, p, one, two);
    OnlyOther(u, v);
    OvertakenHost(u, v, p, one, two, s);
    OneMore(h4, Again(full), {2}, At(s, u), u);
    InTurnReg(h, u, v, p, one, two, s[v], Fresh(s, u));
    InTurnStrays(h, u, v, p, one, two, s[v]);
    OvertakenLength(u, v, p, one, two);
  }
}
