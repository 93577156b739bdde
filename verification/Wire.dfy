/**
 * What crosses the two lanes. Fast-lane messages carry tier-1 deltas, full tier-1 snapshots
 * and tombstones; a datablock is a map from property path to value.
 */
module Wire {
  import opened Wrappers

  type Uuid = string
  type Path = string
  type Value = string
  type Registers = map<Path, Value>
  type Scene = map<Uuid, Registers>

  /** Blob ids: "boot.<no>.<at>", "lib.<no>.<at>" and "<uuid>.<at>", where `at` is one past the
      cold number the host had reached when it cut the blob. */
  datatype BlobId = Boot(no: nat, at: nat) | Lib(no: nat, at: nat) | Resend(uuid: Uuid, at: nat)

  datatype Lane = ColdLane | FastLane

  datatype Body =
    | Delta(changes: Registers)
    | Tombstone
    | ResyncEnd
    | Other

  /** A decoded header and its payload; `after` is 0 when the header has none. */
  datatype Message = Message(lane: Lane, sn: Option<int>, uuid: Uuid, after: int, body: Body)
}
