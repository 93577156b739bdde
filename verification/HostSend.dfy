/**
 * The host's send discipline (qcbridge/ring0/host_handlers.py): every site that puts a message on
 * a lane, as functions of the host's state and of which sends the transport refuses.
 */
module HostSend {
  import opened Wire
  import opened Wrappers
  import opened Reassembly
  import opened Outbox

  /** A cold message: a blob chunk, a library message, or a delta's resync_end. */
  datatype ColdBody = Part(piece: Piece) | Link | End
  datatype ColdMsg = ColdMsg(sn: nat, body: ColdBody)

  /** A fast message about `uuid`; `lift` is the highest cold number its pointer targets named. */
  datatype FastMsg = FastMsg(sn: nat, uuid: Uuid, after: nat, lift: nat)

  /** A datablock's blob on its way out. */
  datatype Outgoing = Outgoing(uuid: Uuid, pieces: seq<Piece>)

  /** A pointer target, and the blob its serialisation yields if it must be shipped first. */
  datatype Target = Target(uuid: Uuid, blob: Option<seq<Byte>>)

  /** The host. `verdicts` says which of the coming sends the transport accepts, `cold` and `fast`
      are what has left on each lane, `made` every blob ever queued. */
  datatype Host = Host(
    sn: nat, snFast: nat,
    boot: seq<Piece>, lib: seq<Piece>, t2: seq<Outgoing>,
    coldOf: map<Uuid, nat>, bootLast: nat, linkLast: nat,
    shipped: set<Uuid>, boots: nat, libs: nat,
    made: seq<Blob>,
    verdicts: seq<bool>, cold: seq<ColdMsg>, fast: seq<FastMsg>)

  function Start(verdicts: seq<bool>): Host {
    Host(0, 0, [], [], [], map[], 0, 0, {}, 0, 0, [], verdicts, [], [])
  }

  function Max(a: nat, b: nat): nat {
    if a < b then b else a
  }

  predicate Accepts(h: Host) {
    h.verdicts != [] && h.verdicts[0]
  }

  /** The transport has answered one send. */
  function Asked(h: Host): Host {
    if h.verdicts == [] then h else h.(verdicts := h.verdicts[1..])
  }

  function PutCold(h: Host, body: ColdBody): Host {
    Asked(h).(sn := h.sn + 1, cold := h.cold + [ColdMsg(h.sn + 1, body)])
  }

  function ColdAt(h: Host, u: Uuid): nat {
    if u in h.coldOf then h.coldOf[u] else 0
  }

  /** `_after_for`. */
  function AfterFor(h: Host, u: Uuid): nat {
    Max(Max(ColdAt(h, u), h.bootLast), h.linkLast)
  }

  // ------------------------------------------------------- queueing ----

  /** `send_bootstrap`: the file's chunks replace whatever is left of an older file's. */
  function QueueBoot(h: Host, data: seq<Byte>, alive: set<Uuid>): Host {
    var id := BlobId.Boot(h.boots, h.sn + 1);
    h.(boot := Pieces(id, data), shipped := alive, boots := h.boots + 1, made := h.made + [Blob(id, data)])
  }

  /** The shipping half of `serve_lib_requests`. */
  function QueueLib(h: Host, data: seq<Byte>): Host {
    var id := BlobId.Lib(h.libs, h.sn + 1);
    h.(lib := h.lib + Pieces(id, data), libs := h.libs + 1, made := h.made + [Blob(id, data)])
  }

  function SlotOf(t2: seq<Outgoing>, u: Uuid): Option<nat> {
    if t2 == [] then None
    else if t2[|t2| - 1].uuid == u then Some(|t2| - 1)
    else SlotOf(t2[..|t2| - 1], u)
  }

  /** A dict assignment: an existing key keeps its place. */
  function PutSlot(t2: seq<Outgoing>, u: Uuid, pieces: seq<Piece>): seq<Outgoing> {
    match SlotOf(t2, u)
    case Some(k) => if k < |t2| then t2[k := Outgoing(u, pieces)] else t2
    case None => t2 + [Outgoing(u, pieces)]
  }

  /** The datablock's newest blob replaces what is left of an older one's. */
  function QueueT2(h: Host, u: Uuid, data: seq<Byte>): Host {
    var id := BlobId.Resend(u, h.sn + 1);
    h.(t2 := PutSlot(h.t2, u, Pieces(id, data)), made := h.made + [Blob(id, data)])
  }

  // ------------------------------------------------------- draining ----

  function BootLeft(h: Host): Host
    requires h.boot != []
  {
    var n := PutCold(h, Part(h.boot[0])).(boot := h.boot[1..]);
    if n.boot == [] then n.(bootLast := n.sn, coldOf := map[]) else n
  }

  function LibLeft(h: Host): Host
    requires h.lib != []
  {
    PutCold(h, Part(h.lib[0])).(lib := h.lib[1..])
  }

  function PieceLeft(h: Host, k: nat): Host
    requires k < |h.t2| && h.t2[k].pieces != []
  {
    var u, ps := h.t2[k].uuid, h.t2[k].pieces;
    PutCold(h, Part(ps[0])).(t2 := h.t2[k := Outgoing(u, ps[1..])], coldOf := h.coldOf[u := h.sn + 1])
  }

  function SlotDone(h: Host, k: nat): Host
    requires k < |h.t2|
  {
    h.(t2 := h.t2[..k] + h.t2[k + 1..], shipped := h.shipped + {h.t2[k].uuid})
  }

  /** The bootstrap loop of the flush tick; false on a refusal. */
  function DrainBoot(h: Host): (Host, bool)
    decreases |h.boot|
  {
    if h.boot == [] then (h, true)
    else if !Accepts(h) then (Asked(h), false)
    else DrainBoot(BootLeft(h))
  }

  function DrainLib(h: Host): (Host, bool)
    decreases |h.lib|
  {
    if h.lib == [] then (h, true)
    else if !Accepts(h) then (Asked(h), false)
    else DrainLib(LibLeft(h))
  }

  function DrainSlot(h: Host, k: nat): (r: (Host, bool))
    requires k < |h.t2|
    ensures |r.0.t2| == if r.1 then |h.t2| - 1 else |h.t2|
    decreases |h.t2[k].pieces|
  {
    if h.t2[k].pieces == [] then (SlotDone(h, k), true)
    else if !Accepts(h) then (Asked(h), false)
    else DrainSlot(PieceLeft(h, k), k)
  }

  /** `_drain_t2_outbox` from the `k`-th slot on; with `only`, that datablock's slot alone. */
  function DrainFrom(h: Host, k: nat, only: Option<Uuid>): (Host, bool)
    requires k <= |h.t2|
    decreases |h.t2| - k
  {
    if k == |h.t2| then (h, true)
    else if only.Some? && h.t2[k].uuid != only.value then DrainFrom(h, k + 1, only)
    else
      var (g, ok) := DrainSlot(h, k);
      if ok then DrainFrom(g, k, only) else (g, false)
  }

  /** `_flush_t2` once the datablock has a blob to ship. */
  function FlushT2(h: Host, u: Uuid, data: seq<Byte>): Host {
    DrainFrom(QueueT2(h, u, data), 0, Some(u)).0
  }

  // ---------------------------------------------- single messages ----

  /** `_send_cold_msg`. */
  function SendLink(h: Host): (Host, bool) {
    if Accepts(h) then (PutCold(h, Link).(linkLast := h.sn + 1), true) else (Asked(h), false)
  }

  /** The cold `resync_end` that closes a delta. */
  function SendEnd(h: Host): (Host, bool) {
    if Accepts(h) then (PutCold(h, End), true) else (Asked(h), false)
  }

  function SendFast(h: Host, u: Uuid, after: nat, lift: nat): (Host, bool) {
    if Accepts(h)
    then (Asked(h).(snFast := h.snFast + 1, fast := h.fast + [FastMsg(h.snFast + 1, u, after, lift)]), true)
    else (Asked(h), false)
  }

  /** `_send_tombstone`. */
  function SendTomb(h: Host, u: Uuid): (Host, bool) {
    SendFast(h, u, AfterFor(h, u), 0)
  }

  /** The fast `resync_end` that closes a re-assert. */
  function SendFastEnd(h: Host): (Host, bool) {
    SendFast(h, "", 0, 0)
  }

  /** A pointer target the replica may not have is shipped first. */
  function Shipped(h: Host, t: Target): Host {
    if t.uuid !in h.shipped && t.blob.Some? then FlushT2(h, t.uuid, t.blob.value) else h
  }

  /** `_send_t1`: no delta leaves while a target's blob is still on its way out. */
  function Aim(h: Host, u: Uuid, ts: seq<Target>, after: nat, lift: nat): (Host, bool)
    decreases |ts|
  {
    if ts == [] then SendFast(h, u, Max(after, lift), lift)
    else
      var g := Shipped(h, ts[0]);
      if SlotOf(g.t2, ts[0].uuid).Some? then (g, false)
      else Aim(g, u, ts[1..], after, Max(lift, ColdAt(g, ts[0].uuid)))
  }

  function SendT1(h: Host, u: Uuid, ts: seq<Target>): (Host, bool) {
    Aim(h, u, ts, AfterFor(h, u), 0)
  }

  // ------------------------------------------------------------ runs ----

  datatype Op =
    | DoQueueBoot(data: seq<Byte>, alive: set<Uuid>)
    | DoQueueLib(data: seq<Byte>)
    | DoBoot
    | DoLib
    | DoT2
    | DoBlob(uuid: Uuid, data: seq<Byte>)
    | DoLink
    | DoEnd
    | DoT1(uuid: Uuid, targets: seq<Target>)
    | DoTomb(uuid: Uuid)
    | DoFastEnd

  function Did(h: Host, op: Op): Host {
    match op
    case DoQueueBoot(data, alive) => QueueBoot(h, data, alive)
    case DoQueueLib(data) => QueueLib(h, data)
    case DoBoot => DrainBoot(h).0
    case DoLib => DrainLib(h).0
    case DoT2 => DrainFrom(h, 0, None).0
    case DoBlob(u, data) => FlushT2(h, u, data)
    case DoLink => SendLink(h).0
    case DoEnd => SendEnd(h).0
    case DoT1(u, ts) => SendT1(h, u, ts).0
    case DoTomb(u) => SendTomb(h, u).0
    case DoFastEnd => SendFastEnd(h).0
  }

  /** Any operations in any order: the flush tick's order is one of them. */
  function After(h: Host, ops: seq<Op>): Host {
    if ops == [] then h else Did(After(h, ops[..|ops| - 1]), ops[|ops| - 1])
  }
}
