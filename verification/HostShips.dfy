/**
 * What the host counts (qcbridge/ring0/host_handlers.py: sent_boot, libs_shipped, _shipped): the numbers
 * in its file ids, and the datablocks it need not ship again.
 */
module HostShips {
  import opened Wire
  import opened Wrappers
  import opened Reassembly
  import opened Outbox
  import opened HostSend
  import opened HostLanes
  import opened HostRuns
  import opened HostDrains

  // ------------------------------------------------------ file numbers ----

  /** How many files, or how many library files, are among these blobs. */
  function Files(made: seq<Blob>, libs: bool): nat {
    if made == [] then 0
    else
      var id := made[|made| - 1].id;
      Files(made[..|made| - 1], libs) + if (if libs then id.Lib? else id.Boot?) then 1 else 0
  }

  /** A file's id carries the number of files before it. */
  predicate NumbersItsFile(made: seq<Blob>, i: nat)
    requires i < |made|
  {
    match made[i].id
    case Boot(no, _) => no == Files(made[..i], false)
    case Lib(no, _) => no == Files(made[..i], true)
    case Resend(_, _) => true
  }

  ghost predicate FilesCounted(h: Host) {
    && h.boots == Files(h.made, false) && h.libs == Files(h.made, true)
    && forall i: nat :: i < |h.made| ==> NumbersItsFile(h.made, i)
  }

  lemma OneMade(h: Host, g: Host, b: Blob)
    requires FilesCounted(h) && g.made == h.made + [b]
    requires b.id.Boot? ==> b.id.no == h.boots
    requires b.id.Lib? ==> b.id.no == h.libs
    requires g.boots == h.boots + (if b.id.Boot? then 1 else 0) && g.libs == h.libs + (if b.id.Lib? then 1 else 0)
    ensures FilesCounted(g)
  {
    assert g.made[..|h.made|] == h.made;
    forall i: nat | i < |g.made| ensures NumbersItsFile(g.made, i) {
      if i < |h.made| {
        assert NumbersItsFile(h.made, i) && g.made[..i] == h.made[..i];
      }
    }
  }

  /** The same blobs, the same counts. */
  predicate SameFiles(h: Host, g: Host) {
    g.made == h.made && g.boots == h.boots && g.libs == h.libs
  }

  lemma SentFiles(h: Host, g: Host, ok: bool, q: seq<Piece>, n: nat)
    requires Sent(h, g, ok, q, n)
    ensures SameFiles(h, g)
  {
  }

  lemma DrainFiles(h: Host, only: Option<Uuid>)
    ensures SameFiles(h, DrainBoot(h).0) && SameFiles(h, DrainLib(h).0) && SameFiles(h, DrainFrom(h, 0, only).0)
  {
    hide Sent, DrainBoot, DrainLib, DrainFrom, Flat, Others, NoneSelected;
    DrainBootExact(h);
    SentFiles(h, DrainBoot(h).0, DrainBoot(h).1, h.boot, |h.boot| - |DrainBoot(h).0.boot|);
    DrainLibExact(h);
    SentFiles(h, DrainLib(h).0, DrainLib(h).1, h.lib, |h.lib| - |DrainLib(h).0.lib|);
    DrainFromExact(h, 0, only);
    var g := DrainFrom(h, 0, only).0;
    SentFiles(h, g, DrainFrom(h, 0, only).1, Flat(h.t2[0..], only), |Flat(h.t2[0..], only)| - |Flat(g.t2[0..], only)|);
  }

  lemma BlobCounted(h: Host, u: Uuid, data: seq<Byte>)
    requires FilesCounted(h)
    ensures FilesCounted(FlushT2(h, u, data))
  {
    hide PutSlot, DrainFrom, DrainBoot, DrainLib, FilesCounted;
    var q := QueueT2(h, u, data);
    OneMade(h, q, Blob(BlobId.Resend(u, h.sn + 1), data));
    DrainFiles(q, Some(u));
    SameCounted(q, FlushT2(h, u, data));
  }

  lemma SameCounted(h: Host, g: Host)
    requires FilesCounted(h) && SameFiles(h, g)
    ensures FilesCounted(g)
  {
  }

  lemma {:induction false} AimCounted(h: Host, u: Uuid, ts: seq<Target>, after: nat, lift: nat)
    requires FilesCounted(h)
    ensures FilesCounted(Aim(h, u, ts, after, lift).0)
    decreases |ts|
  {
    hide FilesCounted, FlushT2, SlotOf;
    if ts == [] {
      SameCounted(h, SendFast(h, u, Max(after, lift), lift).0);
    } else {
      var g := Shipped(h, ts[0]);
      if ts[0].uuid !in h.shipped && ts[0].blob.Some? { BlobCounted(h, ts[0].uuid, ts[0].blob.value); }
      if SlotOf(g.t2, ts[0].uuid).None? { AimCounted(g, u, ts[1..], after, Max(lift, ColdAt(g, ts[0].uuid))); }
    }
  }

  lemma DidCounted(h: Host, op: Op)
    requires FilesCounted(h)
    ensures FilesCounted(Did(h, op))
  {
    hide FilesCounted, DrainBoot, DrainLib, DrainFrom, Aim, FlushT2, Pieces;
    match op {
      case DoQueueBoot(data, alive) => OneMade(h, Did(h, op), Blob(BlobId.Boot(h.boots, h.sn + 1), data));
      case DoQueueLib(data) => OneMade(h, Did(h, op), Blob(BlobId.Lib(h.libs, h.sn + 1), data));
      case DoBoot | DoLib | DoT2 => DrainFiles(h, None); SameCounted(h, Did(h, op));
      case DoBlob(u, data) => BlobCounted(h, u, data);
      case DoT1(u, ts) => AimCounted(h, u, ts, AfterFor(h, u), 0);
      case _ => SameCounted(h, Did(h, op));
    }
  }

  lemma {:induction false} RunCounted(verdicts: seq<bool>, ops: seq<Op>)
    ensures FilesCounted(After(Start(verdicts), ops))
  {
    hide FilesCounted, Did;
    if ops == [] {
      NothingCounted(verdicts);
    } else {
      RunCounted(verdicts, ops[..|ops| - 1]);
      DidCounted(After(Start(verdicts), ops[..|ops| - 1]), ops[|ops| - 1]);
    }
  }

  lemma NothingCounted(verdicts: seq<bool>)
    ensures FilesCounted(Start(verdicts))
  {
  }

  /** Over every run a file's id carries the number of files queued before it, which the replica reads
      back to tell one file from another; library files have numbers of their own. */
  lemma FilesNumbered(verdicts: seq<bool>, ops: seq<Op>, i: nat)
    ensures var made := After(Start(verdicts), ops).made;
      i < |made| ==> NumbersItsFile(made, i)
  {
    hide After, NumbersItsFile;
    RunCounted(verdicts, ops);
  }

  // -------------------------------------------------------- not again ----

  lemma ShippedGrows(h: Host, op: Op)
    requires !op.DoQueueBoot?
    ensures h.shipped <= Did(h, op).shipped
  {
    hide DrainBoot, DrainLib, DrainFrom, Aim, QueueLib, BootDrained, LibDrained, FlushT2;
    match op {
      case DoBoot => DrainBootExact(h); BootKeepsShipped(h, DrainBoot(h).0, DrainBoot(h).1);
      case DoLib => DrainLibExact(h); LibKeepsShipped(h, DrainLib(h).0, DrainLib(h).1);
      case DoT2 => DrainFromShips(h, 0, None, "");
      case DoBlob(u, data) => BlobShips(h, u, data);
      case DoT1(u, ts) => AimShips(h, u, ts, AfterFor(h, u), 0);
      case DoQueueLib(data) => LibQueued(h, data);
      case _ =>
    }
  }

  lemma BootKeepsShipped(h: Host, g: Host, ok: bool)
    requires BootDrained(h, g, ok)
    ensures g.shipped == h.shipped
  {
  }

  lemma LibKeepsShipped(h: Host, g: Host, ok: bool)
    requires LibDrained(h, g, ok)
    ensures g.shipped == h.shipped
  {
  }

  lemma LibQueued(h: Host, data: seq<Byte>)
    ensures QueueLib(h, data).shipped == h.shipped
  {
  }

  lemma BlobShips(h: Host, u: Uuid, data: seq<Byte>)
    ensures h.shipped <= FlushT2(h, u, data).shipped
  {
    hide DrainFrom;
    DrainFromShips(QueueT2(h, u, data), 0, Some(u), u);
  }

  /** From a bootstrap on, until the next: what the file holds counts as shipped, so no delta that points
      there ships it again. */
  lemma {:induction false} FileCountsAsShipped(h: Host, data: seq<Byte>, alive: set<Uuid>, ops: seq<Op>, t: Target)
    requires t.uuid in alive && forall i :: 0 <= i < |ops| ==> !ops[i].DoQueueBoot?
    ensures var g := After(QueueBoot(h, data, alive), ops);
      alive <= g.shipped && Shipped(g, t) == g
  {
    hide Did, FlushT2, Pieces;
    if ops != [] {
      var front := ops[..|ops| - 1];
      assert forall i :: 0 <= i < |front| ==> front[i] == ops[i];
      FileCountsAsShipped(h, data, alive, front, t);
      ShippedGrows(After(QueueBoot(h, data, alive), front), ops[|ops| - 1]);
    }
  }

  // -------------------------------------------------- places in line ----

  /** A datablock's newest blob takes over the older one's place, a datablock without one goes to the end,
      and every other datablock keeps its place and its chunks. */
  lemma NewestKeepsThePlace(h: Host, u: Uuid, data: seq<Byte>)
    requires forall i, j :: 0 <= i < j < |h.t2| ==> h.t2[i].uuid != h.t2[j].uuid
    ensures var q := QueueT2(h, u, data).t2;
      && |h.t2| <= |q| <= |h.t2| + 1 && (|q| == |h.t2| <==> exists k :: 0 <= k < |h.t2| && h.t2[k].uuid == u)
      && (forall k :: 0 <= k < |h.t2| ==> q[k].uuid == h.t2[k].uuid && (h.t2[k].uuid != u ==> q[k] == h.t2[k]))
      && (forall k :: 0 <= k < |q| && q[k].uuid == u ==> q[k].pieces == Pieces(BlobId.Resend(u, h.sn + 1), data))
      && (exists k :: 0 <= k < |q| && q[k].uuid == u)
      && forall i, j :: 0 <= i < j < |q| ==> q[i].uuid != q[j].uuid
  {
    hide Pieces;
    SlotFound(h.t2, u);
    var q := QueueT2(h, u, data).t2;
    match SlotOf(h.t2, u)
    case Some(k) => assert q[k].uuid == u;
    case None => assert q[|h.t2|].uuid == u;
  }
}
