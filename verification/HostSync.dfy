/**
 * The host's sending methods as the loops they are (qcbridge/ring0/host_handlers.py), each proved
 * to compute the step that `HostSend` specifies.
 */
module HostSync {
  import opened Wire
  import opened Wrappers
  import opened Reassembly
  import opened Outbox
  import opened HostSend

  /** Both lanes of a transport that accepts or refuses each send. */
  class Transport {
    var verdicts: seq<bool>
    var cold: seq<ColdMsg>
    var fast: seq<FastMsg>

    constructor (verdicts: seq<bool>)
      ensures this.verdicts == verdicts && cold == [] && fast == []
    {
      this.verdicts := verdicts;
      cold := [];
      fast := [];
    }

    method Answer() returns (ok: bool)
      modifies this`verdicts
      ensures ok == (old(verdicts) != [] && old(verdicts)[0])
      ensures verdicts == if old(verdicts) == [] then [] else old(verdicts)[1..]
    {
      if verdicts == [] { return false; }
      ok := verdicts[0];
      verdicts := verdicts[1..];
    }

    method SendCold(m: ColdMsg) returns (ok: bool)
      modifies this
      ensures ok == (old(verdicts) != [] && old(verdicts)[0])
      ensures verdicts == if old(verdicts) == [] then [] else old(verdicts)[1..]
      ensures cold == (if ok then old(cold) + [m] else old(cold)) && fast == old(fast)
    {
      ok := Answer();
      if ok { cold := cold + [m]; }
    }

    method SendFast(m: FastMsg) returns (ok: bool)
      modifies this
      ensures ok == (old(verdicts) != [] && old(verdicts)[0])
      ensures verdicts == if old(verdicts) == [] then [] else old(verdicts)[1..]
      ensures fast == (if ok then old(fast) + [m] else old(fast)) && cold == old(cold)
    {
      ok := Answer();
      if ok { fast := fast + [m]; }
    }
  }

  class HostSync {
    const transport: Transport
    var sn: nat
    var snFast: nat
    var bootOutbox: seq<Piece>
    var libOutbox: seq<Piece>
    var t2Outbox: seq<Outgoing>
    var uuidColdSeq: map<Uuid, nat>
    var bootLastSeq: nat
    var linkSeq: nat
    var shipped: set<Uuid>
    var sentBoot: nat
    var libsShipped: nat
    ghost var made: seq<Blob>

    ghost function State(): Host
      reads this, transport
    {
      Host(sn, snFast, bootOutbox, libOutbox, t2Outbox, uuidColdSeq, bootLastSeq, linkSeq, shipped,
           sentBoot, libsShipped, made, transport.verdicts, transport.cold, transport.fast)
    }

    constructor (transport: Transport)
      ensures this.transport == transport
      ensures State() == Start(transport.verdicts).(cold := transport.cold, fast := transport.fast)
    {
      this.transport := transport;
      sn, snFast := 0, 0;
      bootOutbox, libOutbox, t2Outbox := [], [], [];
      uuidColdSeq := map[];
      bootLastSeq, linkSeq := 0, 0;
      shipped := {};
      sentBoot, libsShipped := 0, 0;
      made := [];
    }

    method SendBootstrap(data: seq<Byte>, alive: set<Uuid>)
      modifies this
      ensures State() == QueueBoot(old(State()), data, alive)
    {
      if bootOutbox != [] {
        bootOutbox := [];
      }
      var id := BlobId.Boot(sentBoot, sn + 1);
      bootOutbox := bootOutbox + Pieces(id, data);
      made := made + [Blob(id, data)];
      shipped := alive;
      sentBoot := sentBoot + 1;
    }

    method ServeLib(data: seq<Byte>)
      modifies this
      ensures State() == QueueLib(old(State()), data)
    {
      var id := BlobId.Lib(libsShipped, sn + 1);
      libOutbox := libOutbox + Pieces(id, data);
      made := made + [Blob(id, data)];
      libsShipped := libsShipped + 1;
    }

    /** One turn of the bootstrap loop. */
    method SendBootChunk() returns (ok: bool)
      requires bootOutbox != []
      modifies this, transport
      ensures ok == Accepts(old(State()))
      ensures State() == if ok then BootLeft(old(State())) else Asked(old(State()))
    {
      var piece := bootOutbox[0];
      sn := sn + 1;
      ok := transport.SendCold(ColdMsg(sn, Part(piece)));
      if ok {
        bootOutbox := bootOutbox[1..];
        if bootOutbox == [] {
          bootLastSeq := sn;
          uuidColdSeq := map[];
        }
      } else {
        sn := sn - 1;
      }
    }

    /** The bootstrap loop of the flush tick. */
    method FlushBoot() returns (ok: bool)
      modifies this, transport
      ensures (State(), ok) == DrainBoot(old(State()))
    {
      while bootOutbox != []
        invariant DrainBoot(State()) == DrainBoot(old(State()))
        decreases |bootOutbox|
      {
        var sent := SendBootChunk();
        if !sent { return false; }
      }
      return true;
    }

    /** The library loop of the flush tick. */
    method FlushLib() returns (ok: bool)
      modifies this, transport
      ensures (State(), ok) == DrainLib(old(State()))
    {
      while libOutbox != []
        invariant DrainLib(State()) == DrainLib(old(State()))
        decreases |libOutbox|
      {
        ghost var h := State();
        var piece := libOutbox[0];
        sn := sn + 1;
        var sent := transport.SendCold(ColdMsg(sn, Part(piece)));
        if sent {
          libOutbox := libOutbox[1..];
          assert State() == LibLeft(h);
        } else {
          sn := sn - 1;
          assert State() == Asked(h);
          return false;
        }
      }
      return true;
    }

    /** The inner loop of `_drain_t2_outbox`: one datablock's chunks. */
    method DrainUuid(k: nat) returns (ok: bool)
      requires k < |t2Outbox|
      modifies this, transport
      ensures (State(), ok) == DrainSlot(old(State()), k)
      ensures |t2Outbox| == if ok then old(|t2Outbox|) - 1 else old(|t2Outbox|)
    {
      var u := t2Outbox[k].uuid;
      while t2Outbox[k].pieces != []
        invariant |t2Outbox| == old(|t2Outbox|) && t2Outbox[k].uuid == u
        invariant DrainSlot(State(), k) == DrainSlot(old(State()), k)
        decreases |t2Outbox[k].pieces|
      {
        ghost var h := State();
        var pieces := t2Outbox[k].pieces;
        sn := sn + 1;
        var sent := transport.SendCold(ColdMsg(sn, Part(pieces[0])));
        if sent {
          t2Outbox := t2Outbox[k := Outgoing(u, pieces[1..])];
          uuidColdSeq := uuidColdSeq[u := sn];
          assert State() == PieceLeft(h, k);
        } else {
          sn := sn - 1;
          assert State() == Asked(h);
          return false;
        }
      }
      t2Outbox := t2Outbox[..k] + t2Outbox[k + 1..];
      shipped := shipped + {u};
      return true;
    }

    method DrainT2Outbox(only: Option<Uuid>) returns (ok: bool)
      modifies this, transport
      ensures (State(), ok) == DrainFrom(old(State()), 0, only)
    {
      hide DrainSlot;
      var k := 0;
      while k < |t2Outbox|
        invariant k <= |t2Outbox|
        invariant DrainFrom(State(), k, only) == DrainFrom(old(State()), 0, only)
        decreases |t2Outbox| - k
      {
        if only.Some? && t2Outbox[k].uuid != only.value {
          k := k + 1;
        } else {
          var drained := DrainUuid(k);
          if !drained { return false; }
        }
      }
      return true;
    }

    /** `_flush_t2`, given the blob the datablock serialises to. */
    method SendT2(u: Uuid, data: seq<Byte>)
      modifies this, transport
      ensures State() == FlushT2(old(State()), u, data)
    {
      hide DrainFrom;
      var id := BlobId.Resend(u, sn + 1);
      t2Outbox := PutSlot(t2Outbox, u, Pieces(id, data));
      made := made + [Blob(id, data)];
      var _ := DrainT2Outbox(Some(u));
    }

    method SendColdMsg() returns (ok: bool)
      modifies this, transport
      ensures (State(), ok) == SendLink(old(State()))
    {
      sn := sn + 1;
      ok := transport.SendCold(ColdMsg(sn, Link));
      if ok { linkSeq := sn; } else { sn := sn - 1; }
    }

    method SendDeltaEnd() returns (ok: bool)
      modifies this, transport
      ensures (State(), ok) == SendEnd(old(State()))
    {
      sn := sn + 1;
      ok := transport.SendCold(ColdMsg(sn, End));
      if !ok { sn := sn - 1; }
    }

    function AfterForUuid(u: Uuid): (n: nat)
      reads this, transport
      ensures n == AfterFor(State(), u)
    {
      Max(Max(if u in uuidColdSeq then uuidColdSeq[u] else 0, bootLastSeq), linkSeq)
    }

    method PutFast(u: Uuid, after: nat, lift: nat) returns (ok: bool)
      modifies this, transport
      ensures (State(), ok) == SendFast(old(State()), u, after, lift)
    {
      snFast := snFast + 1;
      ok := transport.SendFast(FastMsg(snFast, u, after, lift));
      if !ok { snFast := snFast - 1; }
    }

    method SendTombstone(u: Uuid) returns (ok: bool)
      modifies this, transport
      ensures (State(), ok) == SendTomb(old(State()), u)
    {
      ok := PutFast(u, AfterForUuid(u), 0);
    }

    method SendResyncEnd() returns (ok: bool)
      modifies this, transport
      ensures (State(), ok) == SendFastEnd(old(State()))
    {
      ok := PutFast("", 0, 0);
    }

    /** `_send_t1`: its pointer targets leave first, and it waits while one is still leaving. */
    method SendDelta(u: Uuid, targets: seq<Target>) returns (ok: bool)
      modifies this, transport
      ensures (State(), ok) == SendT1(old(State()), u, targets)
    {
      hide FlushT2, SendFast;
      var after := AfterForUuid(u);
      var lift := 0;
      for i := 0 to |targets|
        invariant Aim(State(), u, targets[i..], AfterFor(old(State()), u), lift) == SendT1(old(State()), u, targets)
        invariant after == Max(AfterFor(old(State()), u), lift)
      {
        var t := targets[i];
        assert targets[i..][0] == t && targets[i..][1..] == targets[i + 1..];
        if t.uuid !in shipped && t.blob.Some? {
          SendT2(t.uuid, t.blob.value);
        }
        if SlotOf(t2Outbox, t.uuid).Some? {
          return false;
        }
        var named := if t.uuid in uuidColdSeq then uuidColdSeq[t.uuid] else 0;
        after := Max(after, named);
        lift := Max(lift, named);
      }
      ok := PutFast(u, after, lift);
    }
  }
}
