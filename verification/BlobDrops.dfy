/**
 * The replica's side of a blob that a newer one replaces (qcbridge/ring0/replica_apply.py:966-977):
 * when another blob of the same datablock begins, what has arrived of the older one is dropped.
 */
module BlobDrops {
  import opened Wrappers
  import opened Wire
  import opened Reassembly
  import opened Outbox
  import opened HostSend
  import opened HostLanes
  import HostRuns

  /** The reassembler's table, and which blob of each datablock is on its way; files share one key. */
  datatype Receiver = Receiver(table: Table, current: map<Option<Uuid>, BlobId>)

  function KeyOf(id: BlobId): Option<Uuid> {
    if id.Resend? then Some(id.uuid) else None
  }

  /** What is dropped before a chunk is fed. */
  function Dropped(r: Receiver, id: BlobId): Table {
    if !id.Lib? && KeyOf(id) in r.current && r.current[KeyOf(id)] != id
    then r.table - {r.current[KeyOf(id)]} else r.table
  }

  /** One chunk arrives. */
  function Received(r: Receiver, ch: Chunk): (Receiver, Option<seq<Byte>>)
    requires Sized(r.table)
  {
    var (t, out) := Fed(Dropped(r, ch.id), ch);
    var key := KeyOf(ch.id);
    (Receiver(t, if ch.id.Lib? then r.current
                 else if out.Some? then r.current - {key} else r.current[key := ch.id]), out)
  }

  function ReceivedAll(chs: seq<Chunk>): (r: Receiver)
    ensures Sized(r.table)
  {
    if chs == [] then Receiver(map[], map[])
    else
      var r := ReceivedAll(chs[..|chs| - 1]);
      FedSized(Dropped(r, chs[|chs| - 1].id), chs[|chs| - 1]);
      Received(r, chs[|chs| - 1]).0
  }

  predicate SameAt(t: Table, d: Table, id: BlobId) {
    (id in t <==> id in d) && (id in t ==> t[id] == d[id])
  }

  /** A chunk's outcome hangs on its own blob's entry, and touches no other. */
  lemma FedOwn(t: Table, d: Table, ch: Chunk)
    requires Sized(t) && Sized(d) && SameAt(t, d, ch.id)
    ensures Fed(t, ch).1 == Fed(d, ch).1 && SameAt(Fed(t, ch).0, Fed(d, ch).0, ch.id)
  {
  }

  lemma FedOthers(t: Table, ch: Chunk, id: BlobId)
    requires Sized(t) && id != ch.id
    ensures SameAt(t, Fed(t, ch).0, id)
  {
  }

  /** A newer blob of the same key has begun. */
  ghost predicate Passed(s: seq<Piece>, id: BlobId) {
    exists r :: r in s && SameKey(id, r.id) && id.at < r.id.at
  }

  ghost predicate CurrentSeen(s: seq<Piece>, r: Receiver) {
    forall key :: key in r.current ==>
      exists p :: p in s && !p.id.Lib? && p.id == r.current[key] && KeyOf(p.id) == key
  }

  /** Up to blobs that are over, dropping changes nothing. */
  ghost predicate Alike(s: seq<Piece>, t: Table, r: Receiver) {
    CurrentSeen(s, r) && forall id :: Passed(s, id) || SameAt(t, r.table, id)
  }

  /** In a stream ordered by key, the chunk to come is not over. */
  lemma NotPassed(front: seq<Piece>, p: Piece)
    requires KeyOrder(front + [p])
    ensures !Passed(front, p.id)
    ensures forall r :: r in front ==> NotAfter(r.id, p.id)
  {
    var s := front + [p];
    forall r | r in front ensures NotAfter(r.id, p.id) {
      var i :| 0 <= i < |front| && front[i] == r;
      assert s[i] == r && s[|front|] == p;
    }
  }

  /** What a chunk drops is over once the chunk is there. */
  lemma DroppedIsPassed(front: seq<Piece>, p: Piece, r: Receiver, id: BlobId)
    requires KeyOrder(front + [p]) && CurrentSeen(front, r)
    ensures !SameAt(r.table, Dropped(r, p.id), id) ==> Passed(front + [p], id) && id != p.id
  {
    NotPassed(front, p);
    if !SameAt(r.table, Dropped(r, p.id), id) {
      var key := KeyOf(p.id);
      assert id == r.current[key];
      var q :| q in front && !q.id.Lib? && q.id == r.current[key] && KeyOf(q.id) == key;
      assert NotAfter(q.id, p.id) && p in front + [p];
    }
  }

  lemma PassedStays(front: seq<Piece>, p: Piece, id: BlobId)
    requires Passed(front, id)
    ensures Passed(front + [p], id)
  {
    var r :| r in front && SameKey(id, r.id) && id.at < r.id.at;
    assert r in front + [p];
  }

  lemma StepAlike(front: seq<Piece>, p: Piece, t: Table, r: Receiver)
    requires p.i < Size(p.data) && KeyOrder(front + [p]) && Sized(t) && Sized(r.table) && Alike(front, t, r)
    ensures Fed(t, OnWire(p)).1 == Received(r, OnWire(p)).1
    ensures Alike(front + [p], Fed(t, OnWire(p)).0, Received(r, OnWire(p)).0)
  {
    hide Fed, OnWire, KeyOrder, SameKey, NotAfter, Passed, SameAt, Size;
    ChunkNames(p);
    var ch, d := OnWire(p), Dropped(r, p.id);
    NotPassed(front, p);
    DroppedIsPassed(front, p, r, p.id);
    SameTwice(t, r.table, d, p.id);
    FedOwn(t, d, ch);
    forall id ensures Passed(front + [p], id) || SameAt(Fed(t, ch).0, Fed(d, ch).0, id) {
      if id != p.id {
        if Passed(front, id) { PassedStays(front, p, id); }
        DroppedIsPassed(front, p, r, id);
        FedOthers(t, ch, id);
        FedOthers(d, ch, id);
        SameThrough(t, r.table, d, Fed(t, ch).0, Fed(d, ch).0, id);
      }
    }
    SeenStays(front, p, r);
  }

  lemma SameTwice(t: Table, a: Table, d: Table, id: BlobId)
    requires SameAt(t, a, id) && SameAt(a, d, id)
    ensures SameAt(t, d, id)
  {
  }

  lemma SameThrough(t: Table, a: Table, d: Table, t1: Table, d1: Table, id: BlobId)
    requires SameAt(t, t1, id) && SameAt(d, d1, id)
    ensures SameAt(t, a, id) && SameAt(a, d, id) ==> SameAt(t1, d1, id)
  {
  }

  lemma SeenStays(front: seq<Piece>, p: Piece, r: Receiver)
    requires p.i < Size(p.data) && CurrentSeen(front, r) && Sized(r.table)
    ensures CurrentSeen(front + [p], Received(r, OnWire(p)).0)
  {
    hide Fed, OnWire, Size;
    ChunkNames(p);
    var n := Received(r, OnWire(p)).0;
    forall key | key in n.current
      ensures exists q :: q in front + [p] && !q.id.Lib? && q.id == n.current[key] && KeyOf(q.id) == key
    {
      if key in r.current && n.current[key] == r.current[key] {
        var q :| q in front && !q.id.Lib? && q.id == r.current[key] && KeyOf(q.id) == key;
        assert q in front + [p];
      } else {
        assert p in front + [p];
      }
    }
  }

  lemma KeyOrderFront(s: seq<Piece>, n: nat)
    requires KeyOrder(s) && n <= |s|
    ensures KeyOrder(s[..n])
  {
    hide NotAfter;
  }

  lemma {:induction false} StreamAlike(s: seq<Piece>)
    requires Cuts(s) && KeyOrder(s)
    ensures Alike(s, FedAll(map[], Wired(s)), ReceivedAll(Wired(s)))
  {
    hide Alike, KeyOrder, Fed, Received, OnWire, Size;
    if s == [] {
      NothingAlike();
    } else {
      var front, p := s[..|s| - 1], s[|s| - 1];
      assert s == front + [p] && Wired(s)[..|s| - 1] == Wired(front);
      KeyOrderFront(s, |s| - 1);
      StreamAlike(front);
      StepAlike(front, p, FedAll(map[], Wired(front)), ReceivedAll(Wired(front)));
    }
  }

  lemma NothingAlike()
    ensures Alike([], map[], Receiver(map[], map[]))
  {
  }

  /** Dropping superseded partials loses nothing: whatever is refused on the way, the replica's
      receiver, drops included, returns every blob byte for byte at its last chunk, and nothing
      anywhere else. */
  lemma BlobsArriveExactly(verdicts: seq<bool>, ops: seq<Op>, k: nat)
    ensures var s := Parts(After(Start(verdicts), ops).cold);
      Cuts(s) && (k < |s| ==>
        Received(ReceivedAll(Wired(s)[..k]), Wired(s)[k]).1
          == if s[k].i + 1 == Size(s[k].data) then Some(s[k].data) else None)
  {
    hide AllKept, Stamps, After, Numbered, Sound, Parts, Size, Fed, FedAll, Received, ReceivedAll, KeyOrder, OnWire, AllOk, Kinds;
    StartFine(verdicts);
    RunFine(Start(verdicts), ops);
    HostRuns.BlobsArriveExactly(verdicts, ops, k);
    var s := Parts(After(Start(verdicts), ops).cold);
    if k < |s| {
      assert s[..k + 1] == s[..k] + [s[k]];
      KeyOrderFront(s, k);
      KeyOrderFront(s, k + 1);
      assert Wired(s)[..k] == Wired(s[..k]);
      StreamAlike(s[..k]);
      StepAlike(s[..k], s[k], FedAll(map[], Wired(s[..k])), ReceivedAll(Wired(s[..k])));
    }
  }

  // ------------------------------------------- what the receiver holds ----

  /** Each blob in the table, library files apart, is its datablock's current one. */
  ghost predicate OnlyCurrent(r: Receiver) {
    forall id :: id in r.table && !id.Lib? ==> KeyOf(id) in r.current && r.current[KeyOf(id)] == id
  }

  lemma FedKeys(t: Table, ch: Chunk)
    requires Sized(t)
    ensures var (n, out) := Fed(t, ch);
      && (forall id :: id in n ==> id in t || id == ch.id) && (out.Some? ==> ch.id !in n)
  {
    hide Spliced;
  }

  lemma ReceivedCurrent(r: Receiver, ch: Chunk)
    requires Sized(r.table) && OnlyCurrent(r)
    ensures Sized(Dropped(r, ch.id)) && OnlyCurrent(Received(r, ch).0)
  {
    hide Fed;
    FedKeys(Dropped(r, ch.id), ch);
  }

  /** Whatever chunks come, in whatever order: the replica holds at most one unfinished blob of a datablock,
      and one unfinished file, the one whose chunk came last. */
  lemma {:induction false} OneAtATime(chs: seq<Chunk>, a: BlobId, b: BlobId)
    ensures OnlyCurrent(ReceivedAll(chs))
    ensures var t := ReceivedAll(chs).table;
      a in t && b in t && !a.Lib? && !b.Lib? && KeyOf(a) == KeyOf(b) ==> a == b
  {
    hide Received, Dropped;
    if chs != [] {
      OneAtATime(chs[..|chs| - 1], a, b);
      ReceivedCurrent(ReceivedAll(chs[..|chs| - 1]), chs[|chs| - 1]);
    }
  }
}
