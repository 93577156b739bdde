/**
 * Blob chunking and reassembly (qcbridge/ring1/protocol.py: chunk_blob, Reassembler).
 */
module Reassembly {
  import opened Wire
  import opened Wrappers

  type Byte = b: int | 0 <= b < 256

  /** The `blob` part of a chunk's header, with its payload. */
  datatype Chunk = Chunk(id: BlobId, i: nat, n: nat, size: nat, offset: nat, payload: seq<Byte>)

  // ----------------------------------------------------------- chunking ----

  function Total(len: nat, c: nat): nat
    requires c > 0
  {
    if len == 0 then 1 else (len + c - 1) / c
  }

  function Min(a: int, b: int): int {
    if a < b then a else b
  }

  /** The `i`-th chunk of a blob cut every `c` bytes. */
  function ChunkOf(id: BlobId, data: seq<Byte>, c: nat, i: nat): Chunk
    requires c > 0 && i < Total(|data|, c)
  {
    ChunkInside(|data|, c, i);
    Chunk(id, i, Total(|data|, c), |data|, i * c, data[i * c..Min(i * c + c, |data|)])
  }

  lemma ChunkInside(len: nat, c: nat, i: nat)
    requires c > 0 && i < Total(len, c)
    ensures i * c <= len && (len > 0 ==> i * c < len)
  {
    if len > 0 {
      assert i <= (len + c - 1) / c - 1;
      MulMono(i, (len + c - 1) / c - 1, c);
    }
  }

  lemma MulMono(a: int, b: int, c: nat)
    requires a <= b
    ensures a * c <= b * c
  {
  }

  /** The generator `chunk_blob`, run to its end. */
  method ChunkBlob(id: BlobId, data: seq<Byte>, c: nat) returns (chunks: seq<Chunk>)
    requires c > 0
    ensures |chunks| == Total(|data|, c)
    ensures forall i :: 0 <= i < |chunks| ==> chunks[i] == ChunkOf(id, data, c, i)
  {
    var quotient := (|data| + c - 1) / c;
    var total := if quotient > 1 then quotient else 1;
    TotalIs(|data|, c);
    chunks := [];
    for i := 0 to total
      invariant |chunks| == i
      invariant forall j :: 0 <= j < i ==> chunks[j] == ChunkOf(id, data, c, j)
    {
      ChunkInside(|data|, c, i);
      NextEdge(i, c);
      var end := if (i + 1) * c < |data| then (i + 1) * c else |data|;
      chunks := chunks + [Chunk(id, i, total, |data|, i * c, data[i * c..end])];
    }
  }

  lemma TotalIs(len: nat, c: nat)
    requires c > 0
    ensures Total(len, c) == if (len + c - 1) / c > 1 then (len + c - 1) / c else 1
  {
    if len > 0 {
      assert (len + c - 1) / c >= 1;
    } else {
      assert (c - 1) / c == 0;
    }
  }

  lemma NextEdge(i: nat, c: nat)
    ensures (i + 1) * c == i * c + c
  {
  }

  lemma DivBounds(a: nat, c: nat)
    requires c > 0
    ensures (a / c) * c <= a < (a / c) * c + c
  {
    var q, r := a / c, a % c;
    assert a == q * c + r;
  }

  lemma TotalCovers(len: nat, c: nat)
    requires c > 0
    ensures len <= Total(len, c) * c
  {
    if len > 0 { DivBounds(len + c - 1, c); }
  }

  /** Every byte lies in the chunk its position names. */
  lemma ByteInChunk(len: nat, c: nat, k: nat)
    requires c > 0 && k < len
    ensures k / c < Total(len, c) && (k / c) * c <= k < (k / c) * c + c
  {
    hide Total;
    DivBounds(k, c);
    TotalCovers(len, c);
    if Total(len, c) <= k / c {
      MulMono(Total(len, c), k / c, c);
      assert false;
    }
  }

  // -------------------------------------------------------- reassembly ----

  /** A blob being assembled: its announced shape, its bytes so far, the chunk numbers seen. */
  datatype Partial = Partial(total: nat, size: nat, buf: seq<Byte>, got: set<nat>)

  type Table = map<BlobId, Partial>

  function Spliced(buf: seq<Byte>, offset: nat, payload: seq<Byte>): seq<Byte>
    requires offset + |payload| <= |buf|
  {
    buf[..offset] + payload + buf[offset + |payload|..]
  }

  function Zeros(n: nat): seq<Byte> {
    seq(n, i => 0)
  }

  predicate Sized(t: Table) {
    forall id :: id in t ==> |t[id].buf| == t[id].size
  }

  /** The table once a chunk's blob has an entry: a zeroed buffer of the announced size if new. */
  function Opened(t: Table, ch: Chunk): Table {
    if ch.id in t then t else t[ch.id := Partial(ch.n, ch.size, Zeros(ch.size), {})]
  }

  /** A chunk landing in its blob's entry: the table after it, and the blob if that completed it. */
  function Landed(t: Table, ch: Chunk): (Table, Option<seq<Byte>>)
    requires Sized(t) && ch.id in t
  {
    var part := t[ch.id];
    if ch.offset + |ch.payload| > part.size then (t - {ch.id}, None)
    else
      var buf := Spliced(part.buf, ch.offset, ch.payload);
      var got := part.got + {ch.i};
      if |got| < part.total then (t[ch.id := part.(buf := buf, got := got)], None)
      else (t - {ch.id}, Some(buf))
  }

  /** `feed` of one chunk. */
  function Fed(t: Table, ch: Chunk): (Table, Option<seq<Byte>>)
    requires Sized(t)
  {
    Landed(Opened(t, ch), ch)
  }

  lemma FedSized(t: Table, ch: Chunk)
    requires Sized(t)
    ensures Sized(Fed(t, ch).0)
  {
  }

  /** The mutable form: one bytearray per blob, filled in place. */
  datatype Slot = Slot(total: nat, size: nat, buf: array<Byte>, got: set<nat>)

  class Reassembler {
    var partial: map<BlobId, Slot>
    ghost var Repr: set<object>

    ghost predicate Valid()
      reads this, Repr
    {
      && this in Repr
      && (forall id :: id in partial ==> partial[id].buf in Repr && partial[id].buf.Length == partial[id].size)
      && (forall a, b :: a in partial && b in partial && a != b ==> partial[a].buf != partial[b].buf)
    }

    ghost function Contents(): Table
      reads this, Repr
      requires Valid()
    {
      map id | id in partial :: Partial(partial[id].total, partial[id].size, partial[id].buf[..], partial[id].got)
    }

    constructor ()
      ensures Valid() && fresh(Repr) && Contents() == map[]
    {
      partial := map[];
      Repr := {this};
    }

    /** A new entry for a blob not seen yet: a zeroed buffer of the announced size. */
    method Open(ch: Chunk)
      requires Valid() && ch.id !in partial
      modifies this
      ensures Valid() && fresh(Repr - old(Repr)) && old(Repr) <= Repr
      ensures ch.id in partial && partial == old(partial)[ch.id := partial[ch.id]]
      ensures Contents() == old(Contents())[ch.id := Partial(ch.n, ch.size, Zeros(ch.size), {})]
    {
      var buf := new Byte[ch.size](i => 0);
      assert buf[..] == Zeros(ch.size);
      partial := partial[ch.id := Slot(ch.n, ch.size, buf, {})];
      Repr := Repr + {buf};
    }

    lemma ContentsSized()
      requires Valid()
      ensures Sized(Contents())
    {
    }

    method Feed(ch: Chunk) returns (done: Option<seq<Byte>>)
      requires Valid()
      modifies Repr
      ensures Valid() && fresh(Repr - old(Repr)) && old(Repr) <= Repr
      ensures Sized(old(Contents()))
      ensures Contents() == Fed(old(Contents()), ch).0 && done == Fed(old(Contents()), ch).1
    {
      hide Landed, Zeros;
      ContentsSized();
      if ch.id !in partial {
        Open(ch);
        ContentsSized();
      }
      done := Land(ch);
    }

    /** The rest of `feed`, once the blob has its entry. */
    method Land(ch: Chunk) returns (done: Option<seq<Byte>>)
      requires Valid() && ch.id in partial
      modifies this`partial, partial[ch.id].buf
      ensures Valid() && Repr == old(Repr)
      ensures Sized(old(Contents()))
      ensures Contents() == Landed(old(Contents()), ch).0 && done == Landed(old(Contents()), ch).1
    {
      hide Spliced;
      ContentsSized();
      var slot := partial[ch.id];
      if ch.offset + |ch.payload| > slot.size {
        Drop(ch.id);
        return None;
      }
      Write(ch.id, slot.buf, ch.offset, ch.payload);
      var got := slot.got + {ch.i};
      if |got| < slot.total {
        Mark(ch.id, got);
        return None;
      }
      done := Some(slot.buf[..]);
      Drop(ch.id);
    }

    /** `part.buf[offset:end] = payload`: the one copy, straight into place. */
    method Write(ghost id: BlobId, buf: array<Byte>, offset: nat, payload: seq<Byte>)
      requires Valid() && id in partial && partial[id].buf == buf && offset + |payload| <= buf.Length
      modifies buf
      ensures Valid() && partial == old(partial) && Repr == old(Repr)
      ensures buf[..] == Spliced(old(buf[..]), offset, payload)
      ensures Contents() == old(Contents())[id := old(Contents())[id].(buf := buf[..])]
    {
      for k := 0 to |payload|
        invariant forall j :: 0 <= j < k ==> buf[offset + j] == payload[j]
        invariant forall j :: 0 <= j < buf.Length && !(offset <= j < offset + k) ==> buf[j] == old(buf[j])
      {
        buf[offset + k] := payload[k];
      }
    }

    method Mark(id: BlobId, got: set<nat>)
      requires Valid() && id in partial
      modifies this`partial
      ensures Valid() && Contents() == old(Contents())[id := old(Contents())[id].(got := got)]
    {
      partial := partial[id := partial[id].(got := got)];
    }

    method Drop(id: BlobId)
      requires Valid()
      modifies this`partial
      ensures Valid() && Contents() == old(Contents()) - {id}
    {
      partial := partial - {id};
    }
  }

  // ------------------------------------------- chunk then reassemble ----

  predicate IsChunkOf(ch: Chunk, id: BlobId, data: seq<Byte>, c: nat)
    requires c > 0
  {
    ch.i < Total(|data|, c) && ch == ChunkOf(id, data, c, ch.i)
  }

  /** The bytes of chunk `i` are in place. */
  predicate Placed(buf: seq<Byte>, data: seq<Byte>, c: nat, i: nat) {
    |buf| == |data| && forall k :: 0 <= k < |data| && i * c <= k < i * c + c ==> buf[k] == data[k]
  }

  /** The table's entry for one blob, after the chunk numbers in `seen` (not yet all of them). */
  ghost predicate Assembling(t: Table, id: BlobId, data: seq<Byte>, c: nat, seen: set<nat>)
    requires c > 0
  {
    && (forall i: nat :: i in seen ==> i < Total(|data|, c))
    && (seen == {} <==> id !in t)
    && (id in t ==>
          && t[id].total == Total(|data|, c) && t[id].size == |data| == |t[id].buf| && t[id].got == seen
          && forall i :: i in seen ==> Placed(t[id].buf, data, c, i))
  }

  /** The chunk numbers below `n`. */
  function Numbers(n: nat): (s: set<nat>)
    ensures forall i: nat :: i in s <==> i < n
  {
    if n == 0 then {} else Numbers(n - 1) + {n - 1}
  }

  lemma {:induction false} NumbersSize(n: nat)
    ensures |Numbers(n)| == n
  {
    if n > 0 { NumbersSize(n - 1); }
  }

  lemma FullMeansAll(seen: set<nat>, n: nat)
    requires forall i :: i in seen ==> i < n
    ensures |seen| <= n && (|seen| == n <==> seen == Numbers(n))
  {
    NumbersSize(n);
    assert seen <= Numbers(n);
    SubsetSize(seen, Numbers(n));
  }

  lemma {:induction false} SubsetSize(a: set<nat>, b: set<nat>)
    requires a <= b
    ensures |a| <= |b| && (|a| == |b| <==> a == b)
  {
    if a != {} {
      var x :| x in a;
      SubsetSize(a - {x}, b - {x});
    }
  }

  lemma AllPlaced(buf: seq<Byte>, data: seq<Byte>, c: nat)
    requires c > 0 && |buf| == |data|
    requires forall i: nat :: i < Total(|data|, c) ==> Placed(buf, data, c, i)
    ensures buf == data
  {
    forall k | 0 <= k < |data| ensures buf[k] == data[k] {
      ByteInChunk(|data|, c, k);
      assert Placed(buf, data, c, k / c);
    }
  }

  /** Writing a chunk places it and disturbs no other. */
  lemma SplicePlaces(buf: seq<Byte>, id: BlobId, data: seq<Byte>, c: nat, i: nat)
    requires c > 0 && |buf| == |data| && i < Total(|data|, c)
    ensures var ch := ChunkOf(id, data, c, i);
      && ch.offset + |ch.payload| <= |buf|
      && Placed(Spliced(buf, ch.offset, ch.payload), data, c, i)
      && forall j: nat :: Placed(buf, data, c, j) ==> Placed(Spliced(buf, ch.offset, ch.payload), data, c, j)
  {
    ChunkInside(|data|, c, i);
    SplicedAt(buf, data, i * c, Min(i * c + c, |data|));
    hide Total, Spliced;
  }

  lemma SplicedAt(buf: seq<Byte>, data: seq<Byte>, from: nat, to: nat)
    requires from <= to <= |data| == |buf|
    ensures var n := Spliced(buf, from, data[from..to]);
      |n| == |data| && forall k :: 0 <= k < |data| ==> n[k] == if from <= k < to then data[k] else buf[k]
  {
  }

  /** One chunk of the blob: it completes exactly when every number has been seen, and then the
      result is the original; until then nothing comes out. */
  lemma FeedOwn(t: Table, ch: Chunk, id: BlobId, data: seq<Byte>, c: nat, seen: set<nat>)
    requires c > 0 && Sized(t) && Assembling(t, id, data, c, seen) && IsChunkOf(ch, id, data, c)
    ensures var (n, done) := Fed(t, ch);
      if seen + {ch.i} == Numbers(Total(|data|, c))
      then done == Some(data) && Assembling(n, id, data, c, {})
      else done == None && Assembling(n, id, data, c, seen + {ch.i})
  {
    hide Total, Placed, ChunkOf, Fed, Numbers;
    var part := Opened(t, ch)[ch.id];
    OwnEntry(t, ch, id, data, c, seen);
    FedShape(t, ch);
    SplicePlaces(part.buf, id, data, c, ch.i);
    var buf := Spliced(part.buf, ch.offset, ch.payload);
    var got := seen + {ch.i};
    FullMeansAll(got, Total(|data|, c));
    assert forall i :: i in got ==> Placed(buf, data, c, i);
    if got == Numbers(Total(|data|, c)) {
      AllPlaced(buf, data, c);
    }
  }

  lemma FedShape(t: Table, ch: Chunk)
    requires Sized(t)
    ensures var u := Opened(t, ch); var part := u[ch.id];
      ch.offset + |ch.payload| <= |part.buf| ==>
        var buf, got := Spliced(part.buf, ch.offset, ch.payload), part.got + {ch.i};
        Fed(t, ch) == if |got| < part.total then (u[ch.id := part.(buf := buf, got := got)], None)
                      else (u - {ch.id}, Some(buf))
  {
    hide Spliced;
  }

  lemma OwnEntry(t: Table, ch: Chunk, id: BlobId, data: seq<Byte>, c: nat, seen: set<nat>)
    requires c > 0 && Assembling(t, id, data, c, seen) && IsChunkOf(ch, id, data, c)
    ensures var part := Opened(t, ch)[ch.id];
      && ch.id == id && part.total == Total(|data|, c) && part.size == |data| == |part.buf| && part.got == seen
      && forall i :: i in seen ==> Placed(part.buf, data, c, i)
  {
    hide Total, Placed;
  }

  lemma FeedOther(t: Table, ch: Chunk, id: BlobId, data: seq<Byte>, c: nat, seen: set<nat>)
    requires c > 0 && Sized(t) && Assembling(t, id, data, c, seen) && ch.id != id
    ensures Assembling(Fed(t, ch).0, id, data, c, seen)
  {
    hide Total, Placed;
  }

  /** The table after feeding a list of chunks. */
  function FedAll(t: Table, chs: seq<Chunk>): (n: Table)
    requires Sized(t)
    ensures Sized(n)
  {
    if chs == [] then t
    else
      var u := FedAll(t, chs[..|chs| - 1]);
      FedSized(u, chs[|chs| - 1]);
      Fed(u, chs[|chs| - 1]).0
  }

  /** The chunk numbers of one blob seen since it last came out. */
  function SeenOf(chs: seq<Chunk>, id: BlobId, n: nat): set<nat> {
    if chs == [] then {}
    else
      var s, ch := SeenOf(chs[..|chs| - 1], id, n), chs[|chs| - 1];
      if ch.id != id then s
      else if s + {ch.i} == Numbers(n) then {}
      else s + {ch.i}
  }

  lemma {:induction false} RunAssembles(chs: seq<Chunk>, id: BlobId, data: seq<Byte>, c: nat)
    requires c > 0
    requires forall k :: 0 <= k < |chs| && chs[k].id == id ==> IsChunkOf(chs[k], id, data, c)
    ensures Assembling(FedAll(map[], chs), id, data, c, SeenOf(chs, id, Total(|data|, c)))
  {
    hide Total, Placed, Assembling, IsChunkOf, Fed, Numbers;
    if chs == [] {
      NothingSeen(id, data, c);
    } else {
      var front, ch := chs[..|chs| - 1], chs[|chs| - 1];
      assert forall k :: 0 <= k < |front| ==> front[k] == chs[k];
      RunAssembles(front, id, data, c);
      var t, seen := FedAll(map[], front), SeenOf(front, id, Total(|data|, c));
      if ch.id == id { FeedOwn(t, ch, id, data, c, seen); } else { FeedOther(t, ch, id, data, c, seen); }
    }
  }

  lemma NothingSeen(id: BlobId, data: seq<Byte>, c: nat)
    requires c > 0
    ensures Assembling(map[], id, data, c, {})
  {
  }

  /** Chunk, then reassemble, is the identity. Whatever order a blob's chunks arrive in, mixed
      with chunks of other blobs and with repeats, feeding a chunk returns the exact original
      bytes iff that chunk completes the set of numbers seen; before that nothing comes out.
      Empty blobs and short last chunks included. */
  lemma ReassemblesExactly(chs: seq<Chunk>, ch: Chunk, id: BlobId, data: seq<Byte>, c: nat)
    requires c > 0 && IsChunkOf(ch, id, data, c)
    requires forall k :: 0 <= k < |chs| && chs[k].id == id ==> IsChunkOf(chs[k], id, data, c)
    ensures var done := Fed(FedAll(map[], chs), ch).1;
      if SeenOf(chs, id, Total(|data|, c)) + {ch.i} == Numbers(Total(|data|, c))
      then done == Some(data) else done == None
  {
    RunAssembles(chs, id, data, c);
    FeedOwn(FedAll(map[], chs), ch, id, data, c, SeenOf(chs, id, Total(|data|, c)));
  }

  /** Fed in index order, the last chunk of a blob returns it. */
  lemma {:induction false} InOrderSeen(id: BlobId, data: seq<Byte>, c: nat, chs: seq<Chunk>)
    requires c > 0 && |chs| < Total(|data|, c)
    requires forall i :: 0 <= i < |chs| ==> chs[i] == ChunkOf(id, data, c, i)
    ensures SeenOf(chs, id, Total(|data|, c)) == Numbers(|chs|)
  {
    hide Total, ChunkOf;
    if chs != [] {
      var front, k := chs[..|chs| - 1], |chs| - 1;
      assert forall i :: 0 <= i < k ==> front[i] == chs[i];
      InOrderSeen(id, data, c, front);
      ChunkNumber(id, data, c, k);
      NotYetAll(k, Total(|data|, c));
    }
  }

  lemma NotYetAll(k: nat, n: nat)
    requires k + 1 < n
    ensures Numbers(k) + {k} == Numbers(k + 1) != Numbers(n)
  {
    assert k + 1 in Numbers(n) && k + 1 !in Numbers(k + 1);
  }

  lemma ChunkThenReassemble(id: BlobId, data: seq<Byte>, c: nat, chs: seq<Chunk>)
    requires c > 0 && |chs| == Total(|data|, c)
    requires forall i :: 0 <= i < |chs| ==> chs[i] == ChunkOf(id, data, c, i)
    ensures Fed(FedAll(map[], chs[..|chs| - 1]), chs[|chs| - 1]).1 == Some(data)
  {
    TotalIs(|data|, c);
    hide ChunkOf, Total, Fed, FedAll, SeenOf, IsChunkOf;
    var front := chs[..|chs| - 1];
    var n := Total(|data|, c);
    assert forall k :: 0 <= k < |front| ==> front[k] == chs[k];
    InOrderSeen(id, data, c, front);
    forall k | 0 <= k < |chs| ensures IsChunkOf(chs[k], id, data, c) { ChunkNumber(id, data, c, k); }
    ReassemblesExactly(front, chs[n - 1], id, data, c);
    assert Numbers(n - 1) + {n - 1} == Numbers(n);
    ChunkNumber(id, data, c, n - 1);
  }

  lemma ChunkNumber(id: BlobId, data: seq<Byte>, c: nat, i: nat)
    requires c > 0 && i < Total(|data|, c)
    ensures ChunkOf(id, data, c, i).i == i && ChunkOf(id, data, c, i).id == id && IsChunkOf(ChunkOf(id, data, c, i), id, data, c)
  {
  }

  lemma {:induction false} SeenAfterDone(a: seq<Chunk>, b: seq<Chunk>, id: BlobId, n: nat)
    requires SeenOf(a, id, n) == {}
    ensures SeenOf(a + b, id, n) == SeenOf(b, id, n)
  {
    hide Numbers;
    if b == [] {
      assert a + b == a;
    } else {
      assert (a + b)[..|a + b| - 1] == a + b[..|b| - 1];
      SeenAfterDone(a, b[..|b| - 1], id, n);
    }
  }

  /** Where "exactly once" fails: the same chunks once more return the blob once more. */
  lemma RepeatComesOutAgain(id: BlobId, data: seq<Byte>, c: nat, chs: seq<Chunk>)
    requires c > 0 && |chs| == Total(|data|, c)
    requires forall i :: 0 <= i < |chs| ==> chs[i] == ChunkOf(id, data, c, i)
    ensures var front, last := chs[..|chs| - 1], chs[|chs| - 1];
      Fed(FedAll(map[], front), last).1 == Some(data) && Fed(FedAll(map[], chs + front), last).1 == Some(data)
  {
    TotalIs(|data|, c);
    hide *;
    var front, last := chs[..|chs| - 1], chs[|chs| - 1];
    assert Fed(FedAll(map[], front), last).1 == Some(data) by { ChunkThenReassemble(id, data, c, chs); }
    assert Fed(FedAll(map[], chs + front), last).1 == Some(data) by {
      SeenTwice(id, data, c, chs);
      OutAgain(chs + front, last, id, data, c, chs);
    }
  }

  lemma OutAgain(all: seq<Chunk>, last: Chunk, id: BlobId, data: seq<Byte>, c: nat, chs: seq<Chunk>)
    requires c > 0 && |chs| == Total(|data|, c) > 0 && all == chs + chs[..|chs| - 1] && last == chs[|chs| - 1]
    requires forall i :: 0 <= i < |chs| ==> chs[i] == ChunkOf(id, data, c, i)
    requires SeenOf(all, id, Total(|data|, c)) + {last.i} == Numbers(Total(|data|, c))
    ensures Fed(FedAll(map[], all), last).1 == Some(data)
  {
    hide *;
    TwiceAreChunks(id, data, c, chs);
    ReassemblesExactly(all, last, id, data, c);
  }

  lemma SeenTwice(id: BlobId, data: seq<Byte>, c: nat, chs: seq<Chunk>)
    requires c > 0 && |chs| == Total(|data|, c) > 0
    requires forall i :: 0 <= i < |chs| ==> chs[i] == ChunkOf(id, data, c, i)
    ensures var n := Total(|data|, c); SeenOf(chs + chs[..n - 1], id, n) + {chs[n - 1].i} == Numbers(n)
  {
    hide *;
    var n, front := Total(|data|, c), chs[..|chs| - 1];
    assert forall k :: 0 <= k < |front| ==> front[k] == chs[k];
    InOrderSeen(id, data, c, front);
    ChunkNumber(id, data, c, n - 1);
    LastCompletes(chs, id, n);
    SeenAfterDone(chs, front, id, n);
    NumbersStep(n - 1);
  }

  lemma TwiceAreChunks(id: BlobId, data: seq<Byte>, c: nat, chs: seq<Chunk>)
    requires c > 0 && |chs| == Total(|data|, c) > 0
    requires forall i :: 0 <= i < |chs| ==> chs[i] == ChunkOf(id, data, c, i)
    ensures var all := chs + chs[..|chs| - 1];
      && (forall k :: 0 <= k < |all| ==> IsChunkOf(all[k], id, data, c))
      && IsChunkOf(chs[|chs| - 1], id, data, c)
  {
    hide *;
    forall k | 0 <= k < |chs| ensures IsChunkOf(chs[k], id, data, c) { ChunkNumber(id, data, c, k); }
    var all := chs + chs[..|chs| - 1];
    assert forall k :: 0 <= k < |all| ==> all[k] == if k < |chs| then chs[k] else chs[k - |chs|];
  }

  lemma NumbersStep(n: nat)
    ensures Numbers(n) + {n} == Numbers(n + 1)
  {
  }

  lemma LastCompletes(chs: seq<Chunk>, id: BlobId, n: nat)
    requires chs != [] && chs[|chs| - 1].id == id && n > 0 && chs[|chs| - 1].i == n - 1
    requires SeenOf(chs[..|chs| - 1], id, n) == Numbers(n - 1)
    ensures SeenOf(chs, id, n) == {}
  {
    NumbersStep(n - 1);
  }
}
