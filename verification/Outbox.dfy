/**
 * The host's queues of blob chunks, and what the cold lane carries when they drain
 * (qcbridge/ring0/host_handlers.py: _boot_outbox, _lib_outbox, _t2_outbox).
 */
module Outbox {
  import opened Wire
  import opened Wrappers
  import opened Reassembly

  /** DEFAULT_CHUNK_SIZE. */
  const CHUNK: nat := 4 * 1024 * 1024

  /** Chunk `i` of the blob `data` named `id`; what it carries on the wire is `OnWire`. */
  datatype Piece = Piece(id: BlobId, data: seq<Byte>, i: nat)

  function Size(data: seq<Byte>): (n: nat)
    ensures n > 0
  {
    TotalIs(|data|, CHUNK);
    Total(|data|, CHUNK)
  }

  function Cut(id: BlobId, data: seq<Byte>, k: nat): seq<Piece> {
    seq(k, i requires 0 <= i => Piece(id, data, i))
  }

  /** `chunk_blob`, as pieces. */
  function Pieces(id: BlobId, data: seq<Byte>): seq<Piece> {
    Cut(id, data, Size(data))
  }

  // ------------------------------------------------- sound streams ----

  function Count(s: seq<Piece>, id: BlobId): nat {
    if s == [] then 0
    else Count(s[..|s| - 1], id) + if s[|s| - 1].id == id then 1 else 0
  }

  predicate Absent(s: seq<Piece>, id: BlobId) {
    forall p :: p in s ==> p.id != id
  }

  /** All the pieces in `s` named `id` are cut from `data`. */
  predicate Only(s: seq<Piece>, id: BlobId, data: seq<Byte>) {
    forall p :: p in s && p.id == id ==> p.data == data
  }

  /** `p` is the next piece of its blob after `s`, and no other blob has used its id. */
  predicate Follows(s: seq<Piece>, p: Piece) {
    p.i == Count(s, p.id) && p.i < Size(p.data) && Only(s, p.id, p.data)
  }

  /** Each blob's pieces come in index order from 0 with none skipped or repeated, and an id
      never names two blobs. */
  predicate Sound(s: seq<Piece>) {
    s == [] || (Sound(s[..|s| - 1]) && Follows(s[..|s| - 1], s[|s| - 1]))
  }

  lemma CountSnoc(s: seq<Piece>, p: Piece, id: BlobId)
    ensures Count(s + [p], id) == Count(s, id) + if p.id == id then 1 else 0
  {
    assert (s + [p])[..|s|] == s;
  }

  lemma SoundSnoc(s: seq<Piece>, p: Piece)
    ensures Sound(s + [p]) <==> Sound(s) && Follows(s, p)
  {
    assert (s + [p])[..|s|] == s;
  }

  lemma {:induction false} CountAbsent(s: seq<Piece>, id: BlobId)
    ensures Absent(s, id) <==> Count(s, id) == 0
  {
    if s != [] {
      var front, p := s[..|s| - 1], s[|s| - 1];
      assert s == front + [p];
      CountAbsent(front, id);
    }
  }

  lemma {:induction false} CountAppend(s: seq<Piece>, t: seq<Piece>, id: BlobId)
    ensures Count(s + t, id) == Count(s, id) + Count(t, id)
  {
    if t == [] {
      assert s + t == s;
    } else {
      var front, p := t[..|t| - 1], t[|t| - 1];
      assert s + t == (s + front) + [p] && t == front + [p];
      CountAppend(s, front, id);
      CountSnoc(s + front, p, id);
      CountSnoc(front, p, id);
    }
  }

  lemma {:induction false} SoundPrefix(s: seq<Piece>, t: seq<Piece>)
    requires Sound(s + t)
    ensures Sound(s)
  {
    hide Follows;
    if t == [] {
      assert s + t == s;
    } else {
      var front := t[..|t| - 1];
      assert s + t == (s + front) + [t[|t| - 1]];
      SoundSnoc(s + front, t[|t| - 1]);
      SoundPrefix(s, front);
    }
  }

  /** Another queue's piece leaving first does not disturb this queue. */
  lemma {:induction false} SoundInsert(log: seq<Piece>, p: Piece, o: seq<Piece>)
    requires Sound(log + [p]) && Sound(log + o) && Absent(o, p.id)
    ensures Sound(log + [p] + o)
  {
    hide Follows, Sound;
    if o == [] {
      assert log + [p] + o == log + [p];
    } else {
      var front, q := o[..|o| - 1], o[|o| - 1];
      assert log + [p] + o == (log + [p] + front) + [q] && log + o == (log + front) + [q];
      assert Absent(front, p.id) && q in o;
      SoundSnoc(log + front, q);
      SoundInsert(log, p, front);
      FollowsInsert(log, p, front, q);
      SoundSnoc(log + [p] + front, q);
    }
  }

  lemma FollowsInsert(log: seq<Piece>, p: Piece, o: seq<Piece>, q: Piece)
    requires Follows(log + o, q) && p.id != q.id
    ensures Follows(log + [p] + o, q)
  {
    hide Count;
    CountAppend(log, o, q.id);
    CountAppend(log + [p], o, q.id);
    CountSnoc(log, p, q.id);
  }

  /** A new blob joins the end of a queue. */
  lemma {:induction false} SoundExtend(s: seq<Piece>, id: BlobId, data: seq<Byte>, k: nat)
    requires Sound(s) && Absent(s, id) && k <= Size(data)
    ensures Sound(s + Cut(id, data, k)) && Count(s + Cut(id, data, k), id) == k
    ensures Only(s + Cut(id, data, k), id, data)
  {
    hide Sound, Count, Size;
    CountAbsent(s, id);
    if k == 0 {
      assert s + Cut(id, data, k) == s;
    } else {
      SoundExtend(s, id, data, k - 1);
      var t, p := s + Cut(id, data, k - 1), Piece(id, data, k - 1);
      assert s + Cut(id, data, k) == t + [p];
      CountSnoc(t, p, id);
      SoundSnoc(t, p);
    }
  }

  // -------------------------------------------------------- queues ----

  /** `log` has left, `o` is still queued: together they are sound, and every blob with a queued
      piece is all there. */
  ghost predicate QueueOk(log: seq<Piece>, o: seq<Piece>) {
    && Sound(log + o)
    && forall p :: p in o ==> Count(log + o, p.id) == Size(p.data)
  }

  ghost predicate AllOk(log: seq<Piece>, qs: seq<seq<Piece>>) {
    Sound(log) && forall k :: 0 <= k < |qs| ==> QueueOk(log, qs[k])
  }

  /** No two queues hold pieces of one id. */
  ghost predicate Apart(qs: seq<seq<Piece>>) {
    forall j, k, p :: 0 <= j < |qs| && 0 <= k < |qs| && j != k && p in qs[j] ==> Absent(qs[k], p.id)
  }

  lemma HeadLeaves(log: seq<Piece>, o: seq<Piece>)
    requires QueueOk(log, o) && o != []
    ensures QueueOk(log + [o[0]], o[1..]) && Sound(log + [o[0]])
  {
    hide Sound, Count;
    assert log + o == log + [o[0]] + o[1..];
    SoundPrefix(log + [o[0]], o[1..]);
  }

  lemma OtherStays(log: seq<Piece>, p: Piece, o: seq<Piece>)
    requires QueueOk(log, o) && Sound(log + [p]) && Absent(o, p.id)
    ensures QueueOk(log + [p], o)
  {
    hide Sound, Count;
    SoundInsert(log, p, o);
    forall q | q in o ensures Count(log + [p] + o, q.id) == Size(q.data) {
      CountAppend(log, o, q.id);
      CountAppend(log + [p], o, q.id);
      CountSnoc(log, p, q.id);
    }
  }

  lemma AllLeave(log: seq<Piece>, qs: seq<seq<Piece>>, k: nat)
    requires AllOk(log, qs) && Apart(qs) && k < |qs| && qs[k] != []
    ensures AllOk(log + [qs[k][0]], qs[k := qs[k][1..]])
  {
    hide Sound, Count, QueueOk;
    var p := qs[k][0];
    assert p in qs[k];
    HeadLeaves(log, qs[k]);
    forall j | 0 <= j < |qs| && j != k ensures QueueOk(log + [p], qs[j]) {
      OtherStays(log, p, qs[j]);
    }
  }

  /** A new blob behind what a queue keeps (everything, or nothing when it replaces). */
  lemma Refill(log: seq<Piece>, keep: seq<Piece>, id: BlobId, data: seq<Byte>)
    requires QueueOk(log, keep) && Absent(log, id) && Absent(keep, id)
    ensures QueueOk(log, keep + Pieces(id, data))
  {
    hide Sound, Count, Size;
    var s, added := log + keep, Pieces(id, data);
    assert Absent(s, id);
    assert log + (keep + added) == s + added;
    SoundExtend(s, id, data, Size(data));
    forall p | p in keep + added ensures Count(s + added, p.id) == Size(p.data) {
      if p in keep {
        CountAppend(s, added, p.id);
        CountAbsent(added, p.id);
      }
    }
  }

  lemma Emptied(log: seq<Piece>)
    requires Sound(log)
    ensures QueueOk(log, [])
  {
    assert log + [] == log;
  }

  // --------------------------------------------------- every blob made ----

  datatype Blob = Blob(id: BlobId, data: seq<Byte>)

  /** Every chunk of the blob has left. */
  predicate Complete(log: seq<Piece>, b: Blob) {
    Count(log, b.id) == Size(b.data) && Only(log, b.id, b.data)
  }

  predicate Holds(o: seq<Piece>, b: Blob) {
    exists p :: p in o && p.id == b.id && p.data == b.data
  }

  /** The chunks that have not left yet are queued, all of them. */
  ghost predicate Waiting(qs: seq<seq<Piece>>, b: Blob) {
    exists k :: 0 <= k < |qs| && Holds(qs[k], b)
  }

  lemma CompleteStays(log: seq<Piece>, p: Piece, b: Blob)
    requires Complete(log, b) && Sound(log + [p])
    ensures Complete(log + [p], b)
  {
    hide Sound, Count, Size;
    SoundSnoc(log, p);
    CountSnoc(log, p, b.id);
    CountAbsent(log, b.id);
    var q :| q in log && q.id == b.id;
    assert p.id == b.id ==> q.data == p.data;
  }

  /** A blob whose piece leaves is still queued, or has just completed. */
  lemma LeaverWaitsOrCompletes(log: seq<Piece>, o: seq<Piece>, b: Blob)
    requires QueueOk(log, o) && o != [] && Holds(o, b)
    ensures Holds(o[1..], b) || Complete(log + [o[0]], b)
  {
    hide Sound, Count, Size;
    if !Holds(o[1..], b) {
      var p := o[0];
      assert log + o == (log + [p]) + o[1..];
      assert p.id == b.id && p.data == b.data;
      SoundPrefix(log + [p], o[1..]);
      SoundSnoc(log, p);
      if !Absent(o[1..], b.id) {
        var q :| q in o[1..] && q.id == b.id;
        SameBlob(log + o, p, q);
        assert false;
      }
      CountAbsent(o[1..], b.id);
      CountAppend(log + [p], o[1..], b.id);
    }
  }

  lemma {:induction false} SameBlob(s: seq<Piece>, p: Piece, q: Piece)
    requires Sound(s) && p in s && q in s && p.id == q.id
    ensures p.data == q.data
  {
    hide Count, Size;
    var front, last := s[..|s| - 1], s[|s| - 1];
    assert s == front + [last];
    if p in front && q in front { SameBlob(front, p, q); }
  }

  /** One piece leaving loses no blob. */
  lemma NoneLost(log: seq<Piece>, qs: seq<seq<Piece>>, k: nat, b: Blob)
    requires AllOk(log, qs) && Apart(qs) && k < |qs| && qs[k] != []
    requires Complete(log, b) || Waiting(qs, b)
    ensures Complete(log + [qs[k][0]], b) || Waiting(qs[k := qs[k][1..]], b)
  {
    hide Sound, Count, Size, QueueOk, Holds, Complete;
    AllLeave(log, qs, k);
    var n := qs[k := qs[k][1..]];
    if Complete(log, b) {
      CompleteStays(log, qs[k][0], b);
    } else {
      var j :| 0 <= j < |qs| && Holds(qs[j], b);
      if j == k {
        LeaverWaitsOrCompletes(log, qs[k], b);
        assert n[k] == qs[k][1..];
      } else {
        assert n[j] == qs[j];
      }
    }
  }

  // ---------------------------------------------- through the reassembler ----

  function OnWire(p: Piece): Chunk
    requires p.i < Size(p.data)
  {
    ChunkOf(p.id, p.data, CHUNK, p.i)
  }

  ghost predicate Cuts(s: seq<Piece>) {
    forall p :: p in s ==> p.i < Size(p.data)
  }

  lemma {:induction false} SoundCuts(s: seq<Piece>)
    requires Sound(s)
    ensures Cuts(s)
  {
    hide Count, Size;
    if s != [] { SoundCuts(s[..|s| - 1]); }
  }

  function Wired(s: seq<Piece>): (chs: seq<Chunk>)
    requires Cuts(s)
    ensures |chs| == |s|
    ensures forall k :: 0 <= k < |s| ==> chs[k] == OnWire(s[k])
  {
    seq(|s|, k requires 0 <= k < |s| => OnWire(s[k]))
  }

  /** A blob part-way through has exactly the numbers below its count seen; a finished one none. */
  lemma {:induction false} SeenBelow(s: seq<Piece>, id: BlobId, data: seq<Byte>)
    requires Sound(s) && Cuts(s) && Only(s, id, data)
    ensures Count(s, id) <= Size(data)
    ensures SeenOf(Wired(s), id, Size(data)) == if Count(s, id) < Size(data) then Numbers(Count(s, id)) else {}
  {
    hide Size, Sound, OnWire, Count;
    if s == [] {
      CountAbsent(s, id);
    } else {
      var front, p := s[..|s| - 1], s[|s| - 1];
      assert s == front + [p];
      SoundSnoc(front, p);
      SeenBelow(front, id, data);
      CountSnoc(front, p, id);
      assert Wired(s)[..|s| - 1] == Wired(front);
      ChunkNames(p);
      if p.id == id { SeenStep(Count(front, id), Size(data)); }
    }
  }

  lemma SeenStep(c: nat, n: nat)
    requires c < n
    ensures Numbers(c) + {c} == Numbers(c + 1)
    ensures Numbers(c + 1) == Numbers(n) <==> c + 1 == n
  {
    assert c + 1 < n ==> c + 1 in Numbers(n) && c + 1 !in Numbers(c + 1);
  }

  lemma ChunkNames(p: Piece)
    requires p.i < Size(p.data)
    ensures OnWire(p).id == p.id && OnWire(p).i == p.i
    ensures IsChunkOf(OnWire(p), p.id, p.data, CHUNK)
  {
  }

  /** Feeding a sound stream to the reassembler returns each blob, byte for byte, at its last
      chunk, and returns nothing at any other chunk. */
  lemma SoundStreamReassembles(s: seq<Piece>, k: nat)
    requires Sound(s) && Cuts(s) && k < |s|
    ensures Fed(FedAll(map[], Wired(s)[..k]), Wired(s)[k]).1
         == if s[k].i + 1 == Size(s[k].data) then Some(s[k].data) else None
  {
    hide Sound, OnWire, Count, FedAll, Fed, Size;
    var front, p := s[..k], s[k];
    assert s == (front + [p]) + s[k + 1..];
    SoundPrefix(front + [p], s[k + 1..]);
    SoundSnoc(front, p);
    assert Wired(s)[..k] == Wired(front);
    SeenBelow(front, p.id, p.data);
    SeenStep(p.i, Size(p.data));
    ChunkNames(p);
    forall j | 0 <= j < k && Wired(front)[j].id == p.id
      ensures IsChunkOf(Wired(front)[j], p.id, p.data, CHUNK)
    {
      assert front[j] in front;
      ChunkNames(front[j]);
    }
    ReassembledAt(Wired(front), p);
  }

  lemma ReassembledAt(chs: seq<Chunk>, p: Piece)
    requires p.i < Size(p.data)
    requires forall j :: 0 <= j < |chs| && chs[j].id == p.id ==> IsChunkOf(chs[j], p.id, p.data, CHUNK)
    ensures Fed(FedAll(map[], chs), OnWire(p)).1
         == if SeenOf(chs, p.id, Size(p.data)) + {p.i} == Numbers(Size(p.data)) then Some(p.data) else None
  {
    hide Fed, FedAll, SeenOf;
    ChunkNames(p);
    ReassemblesExactly(chs, OnWire(p), p.id, p.data, CHUNK);
  }
}
