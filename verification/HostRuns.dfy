/**
 * The host's promises over whole runs: numbering, chunk order, blobs kept, reassembly, and what a
 * fast message's stamp guarantees.
 */
module HostRuns {
  import opened Wire
  import opened Wrappers
  import opened Reassembly
  import opened Outbox
  import opened HostSend
  import opened HostLanes

  /** On each lane, accepted messages are numbered 1, 2, 3, ... across every site that sends. */
  lemma LanesNumbered(verdicts: seq<bool>, ops: seq<Op>, k: nat)
    ensures var h := After(Start(verdicts), ops);
      && (k < |h.cold| ==> h.cold[k].sn == k + 1)
      && (k < |h.fast| ==> h.fast[k].sn == k + 1)
      && h.sn == |h.cold| && h.snFast == |h.fast|
  {
    hide Queues, AllKept, Stamps, After;
    StartFine(verdicts);
    RunFine(Start(verdicts), ops);
  }

  lemma {:induction false} SoundAt(s: seq<Piece>, k: nat)
    requires Sound(s) && k < |s|
    ensures Follows(s[..k], s[k])
  {
    hide Follows;
    if k < |s| - 1 {
      SoundAt(s[..|s| - 1], k);
      assert s[..|s| - 1][..k] == s[..k];
    }
  }

  /** Each blob's chunks leave in index order from 0, none skipped and none repeated, and two
      different blobs with a chunk on the wire never share an id. */
  lemma ChunksInOrder(verdicts: seq<bool>, ops: seq<Op>, j: nat, k: nat)
    ensures var s := Parts(After(Start(verdicts), ops).cold);
      && (k < |s| ==> s[k].i == Count(s[..k], s[k].id) && s[k].i < Size(s[k].data))
      && (j < k < |s| && s[j].id == s[k].id ==> s[j].data == s[k].data)
  {
    hide AllKept, Stamps, After, Numbered, Sound, Parts, Size, Count;
    StartFine(verdicts);
    RunFine(Start(verdicts), ops);
    var s := Parts(After(Start(verdicts), ops).cold);
    if k < |s| {
      SoundAt(s, k);
      assert j < k ==> s[j] in s[..k];
    }
  }

  /** The chunks of a waiting blob that have not left are queued, every one. */
  lemma WaitingHoldsTheRest(log: seq<Piece>, qs: seq<seq<Piece>>, b: Blob, i: nat)
    requires AllOk(log, qs) && Waiting(qs, b) && Count(log, b.id) <= i < Size(b.data)
    ensures exists k :: 0 <= k < |qs| && Piece(b.id, b.data, i) in qs[k]
  {
    hide Sound, Count, Size;
    var k :| 0 <= k < |qs| && Holds(qs[k], b);
    var p :| p in qs[k] && p.id == b.id && p.data == b.data;
    assert QueueOk(log, qs[k]);
    IndexInRest(log, qs[k], p, i);
  }

  lemma {:induction false} IndexInRest(log: seq<Piece>, o: seq<Piece>, p: Piece, i: nat)
    requires Sound(log + o) && p in log + o && Count(log, p.id) <= i < Count(log + o, p.id)
    ensures Piece(p.id, p.data, i) in o
    decreases |o|
  {
    hide Size, Sound, Count, Only;
    assert o == [] ==> log + o == log;
    if o != [] {
      var front, last := o[..|o| - 1], o[|o| - 1];
      assert log + o == (log + front) + [last];
      CountSnoc(log + front, last, p.id);
      SoundSnoc(log + front, last);
      if i < Count(log + front, p.id) {
        SomeOf(log + front, p.id, p, log + o);
        var q :| q in log + front && q.id == p.id && q.data == p.data;
        IndexInRest(log, front, q, i);
      } else {
        LastIs(log + front, last, p, log + o);
      }
    }
  }

  lemma LastIs(s: seq<Piece>, last: Piece, p: Piece, t: seq<Piece>)
    requires Sound(t) && t == s + [last] && p in t && p.id == last.id
    ensures last == Piece(p.id, p.data, Count(s, p.id))
  {
    hide Size, Sound, Count, Only;
    SoundSnoc(s, last);
    SameBlob(t, last, p);
  }

  lemma SomeOf(s: seq<Piece>, id: BlobId, p: Piece, t: seq<Piece>)
    requires Count(s, id) > 0 && Sound(t) && s <= t && p in t && p.id == id
    ensures exists q :: q in s && q.id == id && q.data == p.data
  {
    hide Sound, Size;
    CountAbsent(s, id);
    var q :| q in s && q.id == id;
    assert q in t;
    SameBlob(t, q, p);
  }

  /** No blob is lost half-way: every blob the host has queued has left whole, or still has all
      its remaining chunks queued, or a newer blob for the same datablock (or a newer file)
      replaced what was left of it. A library blob, which nothing replaces, is never dropped. */
  lemma NoBlobAbandoned(verdicts: seq<bool>, ops: seq<Op>, i: nat)
    ensures var h := After(Start(verdicts), ops);
      i < |h.made| ==>
        || Complete(Parts(h.cold), h.made[i]) || Waiting(Qs(h), h.made[i])
        || (!h.made[i].id.Lib? && exists j :: i < j < |h.made| && SameKey(h.made[i].id, h.made[j].id))
  {
    hide Numbered, Stamps, After, Complete, Waiting, Parts, Qs, Queues;
    StartFine(verdicts);
    RunFine(Start(verdicts), ops);
    var h := After(Start(verdicts), ops);
    if i < |h.made| { assert KeptAt(h, i); }
  }

  /** End to end: whatever is refused on the way, feeding the cold lane's chunks to the replica's
      reassembler returns every blob byte for byte at its last chunk, and nothing anywhere else. */
  lemma BlobsArriveExactly(verdicts: seq<bool>, ops: seq<Op>, k: nat)
    ensures var s := Parts(After(Start(verdicts), ops).cold);
      Cuts(s) && (k < |s| ==>
        Fed(FedAll(map[], Wired(s)[..k]), Wired(s)[k]).1
          == if s[k].i + 1 == Size(s[k].data) then Some(s[k].data) else None)
  {
    hide AllKept, Stamps, After, Numbered, Sound, Parts, Size, Fed, FedAll;
    StartFine(verdicts);
    RunFine(Start(verdicts), ops);
    var s := Parts(After(Start(verdicts), ops).cold);
    SoundCuts(s);
    if k < |s| { SoundStreamReassembles(s, k); }
  }

  // ------------------------------------------------------- frames ----

  /** Only `v`'s own cold number may differ. */
  ghost predicate OnlyColdOf(h: Host, g: Host, v: Uuid) {
    && g.fast == h.fast && g.bootLast == h.bootLast && g.linkLast == h.linkLast
    && forall w :: w != v ==> ColdAt(g, w) == ColdAt(h, w)
  }

  lemma {:induction false} DrainSlotFrame(h: Host, k: nat)
    requires k < |h.t2|
    ensures OnlyColdOf(h, DrainSlot(h, k).0, h.t2[k].uuid)
    decreases |h.t2[k].pieces|
  {
    if h.t2[k].pieces != [] && Accepts(h) {
      var g := PieceLeft(h, k);
      assert OnlyColdOf(h, g, h.t2[k].uuid);
      DrainSlotFrame(g, k);
    }
  }

  lemma {:induction false} DrainFromFrame(h: Host, k: nat, u: Uuid)
    requires k <= |h.t2|
    ensures OnlyColdOf(h, DrainFrom(h, k, Some(u)).0, u)
    decreases |h.t2| - k
  {
    hide DrainSlot;
    if k < |h.t2| {
      if h.t2[k].uuid != u {
        DrainFromFrame(h, k + 1, u);
      } else {
        DrainSlotFrame(h, k);
        var (g, ok) := DrainSlot(h, k);
        if ok { DrainFromFrame(g, k, u); }
      }
    }
  }

  lemma ShippedFrame(h: Host, t: Target)
    ensures OnlyColdOf(h, Shipped(h, t), t.uuid)
  {
    hide DrainFrom;
    if t.uuid !in h.shipped && t.blob.Some? {
      DrainFromFrame(QueueT2(h, t.uuid, t.blob.value), 0, t.uuid);
    }
  }

  lemma {:induction false} BootKeepsFast(h: Host)
    ensures DrainBoot(h).0.fast == h.fast
    decreases |h.boot|
  {
    if h.boot != [] && Accepts(h) { BootKeepsFast(BootLeft(h)); }
  }

  lemma {:induction false} LibKeepsFast(h: Host)
    ensures DrainLib(h).0.fast == h.fast
    decreases |h.lib|
  {
    if h.lib != [] && Accepts(h) { LibKeepsFast(LibLeft(h)); }
  }

  lemma {:induction false} T2KeepsFast(h: Host, k: nat)
    requires k <= |h.t2|
    ensures DrainFrom(h, k, None).0.fast == h.fast
    decreases |h.t2| - k
  {
    hide DrainSlot;
    if k < |h.t2| {
      DrainSlotFrame(h, k);
      var (g, ok) := DrainSlot(h, k);
      if ok { T2KeepsFast(g, k); }
    }
  }

  // ------------------------------------------------------- stamps ----

  predicate Names(ts: seq<Target>, v: Uuid) {
    exists t :: t in ts && t.uuid == v
  }

  /** A delta that leaves is one message, stamped at or above the cold number its datablock and
      each of its targets have reached by then. */
  lemma {:induction false} AimStamp(h: Host, u: Uuid, ts: seq<Target>, after: nat, lift: nat, v: Uuid)
    requires Max(after, lift) >= ColdAt(h, v) || Names(ts, v)
    ensures var (g, ok) := Aim(h, u, ts, after, lift);
      && g.bootLast == h.bootLast && g.linkLast == h.linkLast
      && if ok
         then |g.fast| == |h.fast| + 1 && g.fast[..|h.fast|] == h.fast && g.fast[|h.fast|].uuid == u
              && g.fast[|h.fast|].after >= Max(after, ColdAt(g, v))
         else g.fast == h.fast
    decreases |ts|
  {
    if ts != [] {
      hide Shipped, SlotOf;
      var g := Shipped(h, ts[0]);
      ShippedFrame(h, ts[0]);
      if SlotOf(g.t2, ts[0].uuid).None? {
        var lift1 := Max(lift, ColdAt(g, ts[0].uuid));
        if Names(ts, v) && ts[0].uuid != v { RestNames(ts, v); }
        AimStamp(g, u, ts[1..], after, lift1, v);
      }
    }
  }

  lemma RestNames(ts: seq<Target>, v: Uuid)
    requires ts != [] && Names(ts, v) && ts[0].uuid != v
    ensures Names(ts[1..], v)
  {
    var t :| t in ts && t.uuid == v;
    assert t in ts[1..];
  }

  ghost predicate NoSlot(h: Host, v: Uuid) {
    forall k :: 0 <= k < |h.t2| ==> h.t2[k].uuid != v
  }

  lemma {:induction false} DrainSlotNoSlot(h: Host, k: nat, v: Uuid)
    requires k < |h.t2| && NoSlot(h, v)
    ensures NoSlot(DrainSlot(h, k).0, v)
    decreases |h.t2[k].pieces|
  {
    assert h.t2[k].uuid != v;
    if h.t2[k].pieces != [] && Accepts(h) { DrainSlotNoSlot(PieceLeft(h, k), k, v); }
  }

  lemma {:induction false} DrainFromNoSlot(h: Host, k: nat, only: Option<Uuid>, v: Uuid)
    requires k <= |h.t2| && NoSlot(h, v)
    ensures NoSlot(DrainFrom(h, k, only).0, v)
    decreases |h.t2| - k
  {
    hide DrainSlot;
    if k < |h.t2| {
      if only.Some? && h.t2[k].uuid != only.value {
        DrainFromNoSlot(h, k + 1, only, v);
      } else {
        DrainSlotNoSlot(h, k, v);
        var (g, ok) := DrainSlot(h, k);
        if ok { DrainFromNoSlot(g, k, only, v); }
      }
    }
  }

  lemma ShippedNoSlot(h: Host, t: Target, v: Uuid)
    requires NoSlot(h, v) && t.uuid != v
    ensures NoSlot(Shipped(h, t), v)
  {
    hide DrainFrom;
    if t.uuid !in h.shipped && t.blob.Some? {
      SlotFound(h.t2, t.uuid);
      DrainFromNoSlot(QueueT2(h, t.uuid, t.blob.value), 0, Some(t.uuid), v);
    }
  }

  lemma {:induction false} AimTargetsLeft(h: Host, u: Uuid, ts: seq<Target>, after: nat, lift: nat, v: Uuid)
    requires Aim(h, u, ts, after, lift).1 && (NoSlot(h, v) || Names(ts, v))
    ensures NoSlot(Aim(h, u, ts, after, lift).0, v)
    decreases |ts|
  {
    if ts != [] {
      hide Shipped, SlotOf;
      var g := Shipped(h, ts[0]);
      SlotFound(g.t2, ts[0].uuid);
      if ts[0].uuid != v {
        if NoSlot(h, v) { ShippedNoSlot(h, ts[0], v); } else { RestNames(ts, v); }
      }
      AimTargetsLeft(g, u, ts[1..], after, Max(lift, ColdAt(g, ts[0].uuid)), v);
    }
  }

  // ---------------------------------------- targets have been sent ----

  /** Draining only adds to what counts as shipped, and drains `u`'s slot away only by shipping it. */
  ghost predicate ShipsOnly(h: Host, g: Host, u: Uuid) {
    h.shipped <= g.shipped && (!NoSlot(h, u) && NoSlot(g, u) ==> u in g.shipped)
  }

  lemma {:induction false} DrainSlotShips(h: Host, k: nat, u: Uuid)
    requires k < |h.t2|
    ensures ShipsOnly(h, DrainSlot(h, k).0, u)
    decreases |h.t2[k].pieces|
  {
    if h.t2[k].pieces == [] {
      SlotGoesShipped(h, k, u);
    } else if Accepts(h) {
      var g := PieceLeft(h, k);
      assert NoSlot(g, u) ==> NoSlot(h, u) by { SameSlots(h, g, u); }
      DrainSlotShips(g, k, u);
    }
  }

  lemma SameSlots(h: Host, g: Host, u: Uuid)
    requires |g.t2| == |h.t2| && forall k :: 0 <= k < |h.t2| ==> g.t2[k].uuid == h.t2[k].uuid
    ensures NoSlot(g, u) == NoSlot(h, u)
  {
  }

  lemma SlotGoesShipped(h: Host, k: nat, u: Uuid)
    requires k < |h.t2|
    ensures ShipsOnly(h, SlotDone(h, k), u)
  {
    var g := SlotDone(h, k);
    if h.t2[k].uuid != u && NoSlot(g, u) {
      forall j | 0 <= j < |h.t2| ensures h.t2[j].uuid != u {
        assert j < k ==> g.t2[j] == h.t2[j];
        assert j > k ==> g.t2[j - 1] == h.t2[j];
      }
    }
  }

  lemma {:induction false} DrainFromShips(h: Host, k: nat, only: Option<Uuid>, u: Uuid)
    requires k <= |h.t2|
    ensures ShipsOnly(h, DrainFrom(h, k, only).0, u)
    decreases |h.t2| - k
  {
    hide DrainSlot, NoSlot;
    if k < |h.t2| {
      if only.Some? && h.t2[k].uuid != only.value {
        DrainFromShips(h, k + 1, only, u);
      } else {
        DrainSlotShips(h, k, u);
        var (g, ok) := DrainSlot(h, k);
        if ok { DrainFromShips(g, k, only, u); }
      }
    }
  }

  lemma ShippedShips(h: Host, t: Target, u: Uuid)
    ensures h.shipped <= Shipped(h, t).shipped
    ensures t.blob.Some? && NoSlot(Shipped(h, t), t.uuid) ==> t.uuid in Shipped(h, t).shipped
  {
    hide DrainFrom;
    if t.uuid !in h.shipped && t.blob.Some? {
      var q := QueueT2(h, t.uuid, t.blob.value);
      SlotFound(h.t2, t.uuid);
      var k := match SlotOf(h.t2, t.uuid) case Some(j) => j case None => |h.t2|;
      assert q.t2[k].uuid == t.uuid;
      DrainFromShips(q, 0, Some(t.uuid), t.uuid);
    }
  }

  /** A delta never leaves before every pointer target that can be shipped has been, whole. */
  lemma {:induction false} TargetsShippedFirst(h: Host, u: Uuid, ts: seq<Target>, after: nat, lift: nat, i: nat)
    requires i < |ts| && ts[i].blob.Some?
    ensures var (g, ok) := Aim(h, u, ts, after, lift);
      ok ==> ts[i].uuid in g.shipped
    decreases |ts|
  {
    hide Shipped, SlotOf;
    var g := Shipped(h, ts[0]);
    SlotFound(g.t2, ts[0].uuid);
    ShippedShips(h, ts[0], u);
    if SlotOf(g.t2, ts[0].uuid).None? {
      var lift1 := Max(lift, ColdAt(g, ts[0].uuid));
      AimShips(g, u, ts[1..], after, lift1);
      if i > 0 { TargetsShippedFirst(g, u, ts[1..], after, lift1, i - 1); }
    }
  }

  lemma {:induction false} AimShips(h: Host, u: Uuid, ts: seq<Target>, after: nat, lift: nat)
    ensures h.shipped <= Aim(h, u, ts, after, lift).0.shipped
    decreases |ts|
  {
    if ts != [] {
      hide Shipped, SlotOf;
      var g := Shipped(h, ts[0]);
      ShippedShips(h, ts[0], u);
      if SlotOf(g.t2, ts[0].uuid).None? {
        AimShips(g, u, ts[1..], after, Max(lift, ColdAt(g, ts[0].uuid)));
      }
    }
  }

  /** What a stamp covers: every chunk of the datablock's blobs, every whole file and every
      library message that had left. */
  ghost predicate CoversAll(g: Host, after: nat, v: Uuid) {
    forall c :: c in g.cold ==>
      match c.body
      case Link => c.sn <= after
      case End => true
      case Part(p) =>
        && (p.id.Resend? && p.id.uuid == v ==> c.sn <= after)
        && (p.id.Boot? && p.i + 1 == Size(p.data) ==> c.sn <= after)
  }

  lemma StampCovers(g: Host, after: nat, v: Uuid)
    requires Stamps(g) && after >= AfterFor(g, v)
    ensures CoversAll(g, after, v)
  {
    hide Size;
    forall c | c in g.cold ensures Covered(g, c) {
    }
  }

  /** A delta that leaves names a cold number at or past every chunk of its own datablock's blobs
      and of its pointer targets' blobs that ever left, every whole file and every library message;
      and no target still has a chunk to send. */
  lemma DeltaFollowsWhatItNeeds(verdicts: seq<bool>, ops: seq<Op>, u: Uuid, ts: seq<Target>, v: Uuid)
    requires v == u || Names(ts, v)
    ensures var (g, ok) := SendT1(After(Start(verdicts), ops), u, ts);
      ok ==> (g.fast != [] && g.fast[|g.fast| - 1].uuid == u
              && CoversAll(g, g.fast[|g.fast| - 1].after, v) && (Names(ts, v) ==> NoSlot(g, v)))
  {
    hide Numbered, Queues, AllKept, Stamps, After, Aim, CoversAll;
    var h := After(Start(verdicts), ops);
    StartFine(verdicts);
    RunFine(Start(verdicts), ops);
    AimFine(h, u, ts, AfterFor(h, u), 0);
    AimStamp(h, u, ts, AfterFor(h, u), 0, v);
    var (g, ok) := SendT1(h, u, ts);
    if ok {
      if Names(ts, v) { AimTargetsLeft(h, u, ts, AfterFor(h, u), 0, v); }
      StampCovers(g, g.fast[|g.fast| - 1].after, v);
    }
  }

  /** A tombstone follows everything of its datablock that has left. */
  lemma TombFollowsItsBlobs(verdicts: seq<bool>, ops: seq<Op>, u: Uuid)
    ensures var (g, ok) := SendTomb(After(Start(verdicts), ops), u);
      ok ==> g.fast != [] && g.fast[|g.fast| - 1].uuid == u && CoversAll(g, g.fast[|g.fast| - 1].after, u)
  {
    hide Numbered, Queues, AllKept, Stamps, After, CoversAll;
    var h := After(Start(verdicts), ops);
    StartFine(verdicts);
    RunFine(Start(verdicts), ops);
    SendFastFine(h, u, AfterFor(h, u), 0);
    var (g, ok) := SendTomb(h, u);
    if ok { StampCovers(g, AfterFor(h, u), u); }
  }

  // ----------------------------------------------- no stamp runs ahead ----

  ghost predicate StampsSent(h: Host) {
    forall m :: m in h.fast ==> m.after <= h.sn
  }

  lemma StampLow(h: Host, u: Uuid)
    requires Stamps(h)
    ensures AfterFor(h, u) <= h.sn && ColdAt(h, u) <= h.sn
  {
  }

  lemma SentKept(h: Host, g: Host)
    requires Fine(h) && Fine(g) && Onward(h, g) && StampsSent(h) && g.fast == h.fast
    ensures StampsSent(g) && h.sn <= g.sn
  {
    hide Queues, AllKept, Stamps, AfterFor;
  }

  lemma FastStampSent(h: Host, u: Uuid, after: nat, lift: nat)
    requires StampsSent(h) && after <= h.sn
    ensures StampsSent(SendFast(h, u, after, lift).0)
  {
  }

  lemma {:induction false} AimSent(h: Host, u: Uuid, ts: seq<Target>, after: nat, lift: nat)
    requires Fine(h) && StampsSent(h) && after <= h.sn && lift <= h.sn
    ensures StampsSent(Aim(h, u, ts, after, lift).0)
    decreases |ts|
  {
    hide Numbered, Queues, AllKept, AfterFor, Shipped, SendFast, Onward, Stamps, StampsSent;
    if ts == [] {
      FastStampSent(h, u, Max(after, lift), lift);
    } else {
      var g := Shipped(h, ts[0]);
      ShippedFine(h, ts[0]);
      ShippedFrame(h, ts[0]);
      SentKept(h, g);
      StampLow(g, ts[0].uuid);
      if SlotOf(g.t2, ts[0].uuid).None? {
        AimSent(g, u, ts[1..], after, Max(lift, ColdAt(g, ts[0].uuid)));
      }
    }
  }

  lemma DidSent(h: Host, op: Op)
    requires Fine(h) && StampsSent(h)
    ensures StampsSent(Did(h, op))
  {
    DidFine(h, op);
    hide Numbered, Queues, AllKept, Stamps, DrainBoot, DrainLib, DrainFrom, Aim, StampsSent, SendFast, AfterFor, Onward;
    match op {
      case DoT1(u, ts) => StampLow(h, u); AimSent(h, u, ts, AfterFor(h, u), 0);
      case DoTomb(u) => StampLow(h, u); FastStampSent(h, u, AfterFor(h, u), 0);
      case DoFastEnd => FastStampSent(h, "", 0, 0);
      case DoBoot => BootKeepsFast(h); SentKept(h, Did(h, op));
      case DoLib => LibKeepsFast(h); SentKept(h, Did(h, op));
      case DoT2 => T2KeepsFast(h, 0); SentKept(h, Did(h, op));
      case DoBlob(u, data) => DrainFromFrame(QueueT2(h, u, data), 0, u); SentKept(h, Did(h, op));
      case _ => SentKept(h, Did(h, op));
    }
  }

  /** Over every run: no stamp names a cold number that has not left. */
  lemma {:induction false} NoStampAhead(verdicts: seq<bool>, ops: seq<Op>)
    ensures var h := After(Start(verdicts), ops);
      h.sn == |h.cold| && forall m :: m in h.fast ==> m.after <= |h.cold|
  {
    hide Did, Numbered, Queues, AllKept, Stamps;
    RunSent(verdicts, ops);
    NumberedIs(After(Start(verdicts), ops));
  }

  lemma NumberedIs(h: Host)
    requires Fine(h)
    ensures h.sn == |h.cold|
  {
    hide Queues, AllKept, Stamps;
  }

  lemma {:induction false} RunSent(verdicts: seq<bool>, ops: seq<Op>)
    ensures Fine(After(Start(verdicts), ops)) && StampsSent(After(Start(verdicts), ops))
  {
    hide Did, Fine, StampsSent;
    StartFine(verdicts);
    RunFine(Start(verdicts), ops);
    if ops == [] {
      NothingSent(verdicts);
    } else {
      RunSent(verdicts, ops[..|ops| - 1]);
      DidSent(After(Start(verdicts), ops[..|ops| - 1]), ops[|ops| - 1]);
    }
  }

  lemma NothingSent(verdicts: seq<bool>)
    ensures StampsSent(Start(verdicts))
  {
  }

  // ------------------------------------------- when stamps may fall ----

  /** Among one datablock's messages a stamp exceeds a later one only where a target lifted it. */
  ghost predicate FallsOnlyFromLifts(fast: seq<FastMsg>) {
    forall i, j :: 0 <= i < j < |fast| && fast[i].uuid == fast[j].uuid != "" ==>
      fast[i].after <= Max(fast[j].after, fast[i].lift)
  }

  /** At most one message left, stamped no lower than its datablock had reached. */
  ghost predicate OneStamped(h: Host, g: Host) {
    g.fast == h.fast
    || (|g.fast| == |h.fast| + 1 && g.fast[..|h.fast|] == h.fast
        && (g.fast[|h.fast|].uuid == "" || g.fast[|h.fast|].after >= AfterFor(h, g.fast[|h.fast|].uuid)))
  }

  lemma DidStamps(h: Host, op: Op)
    ensures OneStamped(h, Did(h, op))
  {
    hide DrainBoot, DrainLib, DrainFrom, Aim;
    match op {
      case DoQueueBoot(data, alive) =>
      case DoQueueLib(data) =>
      case DoBoot => BootKeepsFast(h);
      case DoLib => LibKeepsFast(h);
      case DoT2 => T2KeepsFast(h, 0);
      case DoBlob(u, data) => DrainFromFrame(QueueT2(h, u, data), 0, u);
      case DoLink =>
      case DoEnd =>
      case DoT1(u, ts) => AimStamp(h, u, ts, AfterFor(h, u), 0, u);
      case DoTomb(u) =>
      case DoFastEnd =>
    }
  }

  lemma OneStampedFalls(h: Host, g: Host)
    requires Stamps(h) && FallsOnlyFromLifts(h.fast) && OneStamped(h, g)
    ensures FallsOnlyFromLifts(g.fast)
  {
    hide AfterFor, Covered;
    forall i, j | 0 <= i < j < |g.fast| && g.fast[i].uuid == g.fast[j].uuid != ""
      ensures g.fast[i].after <= Max(g.fast[j].after, g.fast[i].lift)
    {
      assert g.fast[i] == h.fast[i] && StampedBy(h, h.fast[i]);
      assert j < |h.fast| ==> g.fast[j] == h.fast[j];
    }
  }

  lemma NothingFalls()
    ensures FallsOnlyFromLifts([])
  {
  }

  lemma {:induction false} RunFalls(verdicts: seq<bool>, ops: seq<Op>)
    ensures FallsOnlyFromLifts(After(Start(verdicts), ops).fast)
  {
    hide Numbered, Queues, AllKept, Stamps, Did, FallsOnlyFromLifts;
    if ops == [] {
      NothingFalls();
    } else {
      var front := ops[..|ops| - 1];
      StartFine(verdicts);
      RunFine(Start(verdicts), front);
      RunFalls(verdicts, front);
      DidStamps(After(Start(verdicts), front), ops[|ops| - 1]);
      OneStampedFalls(After(Start(verdicts), front), After(Start(verdicts), ops));
    }
  }

  /** Exactly when a datablock's stamps go down: a later message is stamped below an earlier one
      iff a pointer target had lifted the earlier one past where the later one stands. */
  lemma StampFallsExactly(verdicts: seq<bool>, ops: seq<Op>, i: nat, j: nat)
    ensures var fast := After(Start(verdicts), ops).fast;
      i < j < |fast| && fast[i].uuid == fast[j].uuid != "" ==>
        (fast[j].after < fast[i].after <==> fast[j].after < fast[i].lift)
  {
    hide Numbered, Queues, AllKept, After;
    StartFine(verdicts);
    RunFine(Start(verdicts), ops);
    RunFalls(verdicts, ops);
    var h := After(Start(verdicts), ops);
    if i < |h.fast| { assert StampedBy(h, h.fast[i]); }
  }

  /** An empty blob of `w` leaves as one chunk, numbered 1. */
  lemma ShipsTarget()
    ensures var g := FlushT2(Start([true, true, true]), "w", []);
      g.t2 == [] && g.coldOf == map["w" := 1] && g.fast == [] && g.verdicts == [true, true]
      && g.bootLast == 0 && g.linkLast == 0
  {
    var h := Start([true, true, true]);
    var id := BlobId.Resend("w", 1);
    assert Size([]) == 1 && Pieces(id, []) == [Piece(id, [], 0)];
    var q := QueueT2(h, "w", []);
    assert q.t2 == [Outgoing("w", [Piece(id, [], 0)])];
    var r := PieceLeft(q, 0);
    assert DrainSlot(q, 0) == DrainSlot(r, 0) && r.t2 == [Outgoing("w", [])];
    assert DrainSlot(r, 0) == (SlotDone(r, 0), true);
  }

  /** The delta that ships its target first, and is stamped by it. */
  lemma NamesAFreshTarget()
    ensures var g := Did(Start([true, true, true]), DoT1("u", [Target("w", Some([]))]));
      && |g.fast| == 1 && g.fast[0].uuid == "u" && g.fast[0].after == 1
      && g.verdicts == [true] && AfterFor(g, "u") == 0
  {
    hide FlushT2;
    ShipsTarget();
    var h, t := Start([true, true, true]), Target("w", Some([]));
    var g := FlushT2(h, "w", []);
    assert Shipped(h, t) == g && SlotOf(g.t2, "w").None? && AfterFor(h, "u") == 0;
    assert Aim(h, "u", [t], 0, 0) == Aim(g, "u", [], 0, 1) by { assert [t][1..] == []; }
    assert Aim(g, "u", [], 0, 1) == SendFast(g, "u", 1, 1);
  }

  lemma NamesNone(g: Host)
    requires |g.fast| == 1 && g.verdicts == [true] && AfterFor(g, "u") == 0
    ensures var n := Did(g, DoT1("u", []));
      |n.fast| == 2 && n.fast[0] == g.fast[0] && n.fast[1].uuid == "u" && n.fast[1].after == 0
  {
  }

  /** It does happen: a delta naming a freshly shipped target, then one that names none. */
  lemma PointerStampFalls()
    ensures var fast := After(Start([true, true, true]), [DoT1("u", [Target("w", Some([]))]), DoT1("u", [])]).fast;
      |fast| == 2 && fast[0].uuid == fast[1].uuid == "u" && fast[0].after == 1 && fast[1].after == 0
  {
    hide Did, AfterFor;
    var h := Start([true, true, true]);
    var ops := [DoT1("u", [Target("w", Some([]))]), DoT1("u", [])];
    assert ops[..1] == [ops[0]] && ops[..1][..0] == [];
    assert After(h, ops[..1]) == Did(After(h, []), ops[0]) && After(h, ops) == Did(After(h, ops[..1]), ops[1]);
    NamesAFreshTarget();
    NamesNone(After(h, ops[..1]));
  }
}
