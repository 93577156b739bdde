/**
 * What the host's send discipline keeps, over every run and every pattern of refused sends
 * (qcbridge/ring0/host_handlers.py).
 *
 * Four invariants, kept by every operation of `HostSend`: both lanes are numbered without a hole;
 * each queue together with what has left is a sound stream of chunks; every blob ever queued has
 * left, waits whole, or was superseded; and every stamp covers what it must follow. Beside them,
 * what no operation takes back: the lanes only grow, and no datablock's stamp base goes down.
 * `HostRuns` draws the conclusions.
 */
module HostLanes {
  import opened Wire
  import opened Wrappers
  import opened Reassembly
  import opened Outbox
  import opened HostSend

  // ------------------------------------------------------ invariants ----

  /** The blob chunks a cold lane has carried. */
  function Parts(cold: seq<ColdMsg>): seq<Piece> {
    if cold == [] then []
    else
      var rest, m := Parts(cold[..|cold| - 1]), cold[|cold| - 1];
      if m.body.Part? then rest + [m.body.piece] else rest
  }

  lemma PartsSnoc(cold: seq<ColdMsg>, m: ColdMsg)
    ensures Parts(cold + [m]) == Parts(cold) + if m.body.Part? then [m.body.piece] else []
  {
    assert (cold + [m])[..|cold|] == cold;
  }

  function Qs(h: Host): seq<seq<Piece>> {
    [h.boot, h.lib] + seq(|h.t2|, i requires 0 <= i < |h.t2| => h.t2[i].pieces)
  }

  /** Both lanes number what they accept from 1, without a hole or a repeat. */
  ghost predicate Numbered(h: Host) {
    && h.sn == |h.cold| && h.snFast == |h.fast|
    && (forall k :: 0 <= k < |h.cold| ==> h.cold[k].sn == k + 1)
    && (forall k :: 0 <= k < |h.fast| ==> h.fast[k].sn == k + 1)
  }

  /** Each queue holds its own kind of id, and the slots one datablock each. */
  ghost predicate Kinds(h: Host) {
    && (forall p :: p in h.boot ==> p.id.Boot? && p.id == h.boot[0].id)
    && (forall p :: p in h.lib ==> p.id.Lib? && p.id.no < h.libs)
    && (forall k :: 0 <= k < |h.t2| ==> OwnSlot(h.t2[k]))
    && (forall j, k :: 0 <= j < k < |h.t2| ==> h.t2[j].uuid != h.t2[k].uuid)
  }

  ghost predicate OwnSlot(s: Outgoing) {
    forall p :: p in s.pieces ==> p.id.Resend? && p.id.uuid == s.uuid
  }

  ghost predicate IdsUpTo(s: seq<Piece>, n: nat) {
    forall p :: p in s ==> p.id.at <= n
  }

  /** Blobs of one datablock, or two files. */
  predicate SameKey(a: BlobId, b: BlobId) {
    (a.Boot? && b.Boot?) || (a.Resend? && b.Resend? && a.uuid == b.uuid)
  }

  /** A chunk of `a` may leave before one of `b`: once a newer blob has begun, the older one is over. */
  predicate NotAfter(a: BlobId, b: BlobId) {
    SameKey(a, b) ==> a == b || a.at < b.at
  }

  ghost predicate KeyOrder(log: seq<Piece>) {
    forall i, j :: 0 <= i < j < |log| ==> NotAfter(log[i].id, log[j].id)
  }

  ghost predicate OneBlob(log: seq<Piece>, o: seq<Piece>) {
    && (forall r, p :: r in log && p in o ==> NotAfter(r.id, p.id))
    && (forall p, q :: p in o && q in o && SameKey(p.id, q.id) ==> p.id == q.id)
  }

  ghost predicate Keyed(log: seq<Piece>, qs: seq<seq<Piece>>) {
    KeyOrder(log) && forall k :: 0 <= k < |qs| ==> OneBlob(log, qs[k])
  }

  ghost predicate Queues(h: Host) {
    && AllOk(Parts(h.cold), Qs(h)) && Kinds(h) && Keyed(Parts(h.cold), Qs(h))
    && IdsUpTo(Parts(h.cold), h.sn) && forall k :: 0 <= k < |Qs(h)| ==> IdsUpTo(Qs(h)[k], h.sn + 1)
  }

  predicate Superseded(made: seq<Blob>, i: nat) {
    exists j :: i < j < |made| && i < |made| && SameKey(made[i].id, made[j].id)
  }

  ghost predicate KeptAt(h: Host, i: nat)
    requires i < |h.made|
  {
    Complete(Parts(h.cold), h.made[i]) || Waiting(Qs(h), h.made[i]) || Superseded(h.made, i)
  }

  ghost predicate AllKept(h: Host) {
    forall i: nat :: i < |h.made| ==> KeptAt(h, i)
  }

  /** A delta about the datablock, stamped now, follows this message. */
  ghost predicate Covered(h: Host, m: ColdMsg) {
    match m.body
    case Link => m.sn <= h.linkLast
    case End => true
    case Part(p) =>
      match p.id
      case Boot(_, _) => p.i + 1 == Size(p.data) ==> m.sn <= h.bootLast
      case Lib(_, _) => true
      case Resend(u, _) => m.sn <= Max(ColdAt(h, u), h.bootLast)
  }

  /** A stamp is what the datablock itself asked for, or what a pointer target lifted it to. */
  ghost predicate StampedBy(h: Host, m: FastMsg) {
    m.lift <= m.after <= Max(AfterFor(h, m.uuid), m.lift)
  }

  ghost predicate Stamps(h: Host) {
    && h.bootLast <= h.sn && h.linkLast <= h.sn && (forall u :: u in h.coldOf ==> h.coldOf[u] <= h.sn)
    && (forall m :: m in h.cold ==> Covered(h, m))
    && (forall m :: m in h.fast ==> StampedBy(h, m))
  }

  ghost predicate Fine(h: Host) {
    Numbered(h) && Queues(h) && AllKept(h) && Stamps(h)
  }

  /** What no operation takes back: what has left, and how far each datablock's stamp has come. */
  ghost predicate Onward(h: Host, g: Host) {
    && h.cold <= g.cold && h.fast <= g.fast && h.made <= g.made
    && forall u :: AfterFor(h, u) <= AfterFor(g, u)
  }

  lemma OnwardTrans(a: Host, b: Host, c: Host)
    requires Onward(a, b) && Onward(b, c)
    ensures Onward(a, c)
  {
    hide AfterFor;
    forall u ensures AfterFor(a, u) <= AfterFor(c, u) {
      assert AfterFor(a, u) <= AfterFor(b, u) <= AfterFor(c, u);
    }
  }

  lemma StartFine(verdicts: seq<bool>)
    ensures Fine(Start(verdicts))
  {
    var h := Start(verdicts);
    Emptied([]);
    assert Parts(h.cold) == [] && forall k :: 0 <= k < |Qs(h)| ==> Qs(h)[k] == [];
  }

  // ------------------------------------------------ one piece leaving ----

  lemma KindsApart(h: Host)
    requires Kinds(h)
    ensures Apart(Qs(h))
  {
    var qs := Qs(h);
    forall j, k, p: Piece | 0 <= j < |qs| && 0 <= k < |qs| && j != k && p in qs[j]
      ensures Absent(qs[k], p.id) {
      if j >= 2 { assert OwnSlot(h.t2[j - 2]); }
      if k >= 2 { assert OwnSlot(h.t2[k - 2]); }
    }
  }

  /** Queue `k` of `h` sent its head, and nothing else about the queues changed. */
  ghost predicate HeadSent(h: Host, g: Host, k: nat) {
    && k < |Qs(h)| && Qs(h)[k] != []
    && g.cold == h.cold + [ColdMsg(h.sn + 1, Part(Qs(h)[k][0]))] && g.sn == h.sn + 1
    && Qs(g) == Qs(h)[k := Qs(h)[k][1..]]
    && g.made == h.made && g.libs == h.libs && g.snFast == h.snFast && g.fast == h.fast
  }

  lemma HeadSentKeeps(h: Host, g: Host, k: nat)
    requires Fine(h) && HeadSent(h, g, k) && Kinds(g)
    ensures Numbered(g) && Queues(g) && AllKept(g)
  {
    hide AllOk, Kinds, Parts, Qs, Apart, AllKept, Stamps, Numbered, IdsUpTo;
    KindsApart(h);
    PartsSnoc(h.cold, ColdMsg(h.sn + 1, Part(Qs(h)[k][0])));
    HeadSentNumbered(h, g, k);
    HeadSentQueues(h, g, k);
    HeadSentKept(h, g, k);
  }

  lemma HeadSentNumbered(h: Host, g: Host, k: nat)
    requires Numbered(h) && HeadSent(h, g, k)
    ensures Numbered(g)
  {
    hide Qs;
  }

  lemma HeadSentQueues(h: Host, g: Host, k: nat)
    requires Queues(h) && HeadSent(h, g, k) && Kinds(g) && Apart(Qs(h))
    requires Parts(g.cold) == Parts(h.cold) + [Qs(h)[k][0]]
    ensures Queues(g)
  {
    hide AllOk, Kinds, Parts, Qs, Apart;
    var log, qs := Parts(h.cold), Qs(h);
    AllLeave(log, qs, k);
    IdsStay(qs, Qs(g), k, h.sn + 1);
    KeyedLeaves(h, log, qs, k);
  }

  lemma KeyOrderSnoc(log: seq<Piece>, p: Piece)
    requires KeyOrder(log) && forall r :: r in log ==> NotAfter(r.id, p.id)
    ensures KeyOrder(log + [p])
  {
    hide NotAfter;
  }

  lemma KeyedLeaves(h: Host, log: seq<Piece>, qs: seq<seq<Piece>>, k: nat)
    requires Kinds(h) && qs == Qs(h) && Keyed(log, qs) && k < |qs| && qs[k] != []
    ensures Keyed(log + [qs[k][0]], qs[k := qs[k][1..]])
  {
    hide Qs, Kinds;
    var p, ns := qs[k][0], qs[k := qs[k][1..]];
    assert p in qs[k] && OneBlob(log, qs[k]);
    KeyOrderSnoc(log, p);
    forall j | 0 <= j < |ns| ensures OneBlob(log + [p], ns[j]) {
      assert OneBlob(log, qs[j]);
      forall r: Piece, q: Piece | r in log + [p] && q in ns[j] ensures NotAfter(r.id, q.id) {
        assert q in qs[j];
        if r == p && j != k { KeysApart(h, k, j, p, q); }
      }
    }
  }

  /** Different queues hold blobs of different keys. */
  lemma KeysApart(h: Host, j: nat, k: nat, p: Piece, q: Piece)
    requires Kinds(h) && j < |Qs(h)| && k < |Qs(h)| && j != k && p in Qs(h)[j] && q in Qs(h)[k]
    ensures !SameKey(p.id, q.id)
  {
    if j >= 2 { assert OwnSlot(h.t2[j - 2]); }
    if k >= 2 { assert OwnSlot(h.t2[k - 2]); }
  }

  /** Ids stay within bounds when queue `k` loses its head. */
  lemma IdsStay(qs: seq<seq<Piece>>, ns: seq<seq<Piece>>, k: nat, n: nat)
    requires k < |qs| && qs[k] != [] && forall j :: 0 <= j < |qs| ==> IdsUpTo(qs[j], n)
    requires ns == qs[k := qs[k][1..]]
    ensures forall j :: 0 <= j < |ns| ==> IdsUpTo(ns[j], n + 1)
    ensures qs[k][0].id.at <= n
  {
    assert qs[k][0] in qs[k];
    forall j | 0 <= j < |ns| ensures IdsUpTo(ns[j], n + 1) {
      assert IdsUpTo(qs[j], n);
    }
  }

  lemma HeadSentKept(h: Host, g: Host, k: nat)
    requires Queues(h) && AllKept(h) && HeadSent(h, g, k) && Apart(Qs(h))
    requires Parts(g.cold) == Parts(h.cold) + [Qs(h)[k][0]]
    ensures AllKept(g)
  {
    hide AllOk, Kinds, Parts, Qs, Apart, Complete, Waiting, Superseded;
    forall i: nat | i < |g.made| ensures KeptAt(g, i) {
      assert KeptAt(h, i);
      if !Superseded(h.made, i) { NoneLost(Parts(h.cold), Qs(h), k, h.made[i]); }
    }
  }

  /** The stamps part, for a piece leaving: `coldOf` and `bootLast` changed as `g` says. */
  lemma StampsStep(h: Host, g: Host, m: ColdMsg)
    requires Stamps(h) && g.cold == h.cold + [m] && g.sn == h.sn + 1 && g.fast == h.fast
    requires g.linkLast <= g.sn && g.bootLast <= g.sn && forall u :: u in g.coldOf ==> g.coldOf[u] <= g.sn
    requires h.bootLast <= g.bootLast && h.linkLast <= g.linkLast
    requires forall u :: Max(ColdAt(h, u), h.bootLast) <= Max(ColdAt(g, u), g.bootLast)
    requires Covered(g, m)
    ensures Stamps(g) && forall u :: AfterFor(h, u) <= AfterFor(g, u)
  {
    forall c | c in g.cold ensures Covered(g, c) {
      if c in h.cold { assert Covered(h, c); }
    }
    forall f | f in g.fast ensures StampedBy(g, f) {
      assert StampedBy(h, f);
    }
  }

  lemma BootLeftSends(h: Host)
    requires Kinds(h) && h.boot != []
    ensures HeadSent(h, BootLeft(h), 0) && Kinds(BootLeft(h)) && |BootLeft(h).boot| < |h.boot|
    ensures h.cold <= BootLeft(h).cold && h.fast == BootLeft(h).fast && h.made == BootLeft(h).made
  {
    var g := BootLeft(h);
    assert Qs(g) == Qs(h)[0 := h.boot[1..]] && Qs(h)[0] == h.boot;
  }

  lemma BootLeftStamps(h: Host)
    requires Numbered(h) && Stamps(h) && h.boot != []
    requires Covered(BootLeft(h), ColdMsg(h.sn + 1, Part(h.boot[0])))
    ensures Stamps(BootLeft(h)) && forall u :: AfterFor(h, u) <= AfterFor(BootLeft(h), u)
  {
    StampsStep(h, BootLeft(h), ColdMsg(h.sn + 1, Part(h.boot[0])));
  }

  /** While a second chunk of the blob waits, the first is not its last. */
  lemma NotLastYet(log: seq<Piece>, p: Piece, q: Piece, rest: seq<Piece>)
    requires Sound(log + ([p, q] + rest)) && p.id == q.id
    ensures p.i + 1 < Size(p.data)
  {
    hide Sound, Size, Count;
    assert log + ([p, q] + rest) == ((log + [p]) + [q]) + rest;
    SoundPrefix((log + [p]) + [q], rest);
    SoundSnoc(log + [p], q);
    SoundSnoc(log, p);
    CountSnoc(log, p, p.id);
    assert p in log + [p];
  }

  /** The last chunk of the file is the one that empties its queue. */
  lemma BootLast(h: Host)
    requires Queues(h) && h.boot != []
    ensures Covered(BootLeft(h), ColdMsg(h.sn + 1, Part(h.boot[0])))
  {
    hide Sound, Size, Parts, Count, Keyed, IdsUpTo;
    var p, log := h.boot[0], Parts(h.cold);
    assert p.id.Boot? by { assert p in h.boot; }
    if |h.boot| > 1 {
      var q, rest := h.boot[1], h.boot[2..];
      assert Qs(h)[0] == h.boot && QueueOk(log, Qs(h)[0]);
      assert h.boot == [p, q] + rest && q in h.boot;
      NotLastYet(log, p, q, rest);
    }
  }

  lemma LibLeftSends(h: Host)
    requires Kinds(h) && h.lib != []
    ensures HeadSent(h, LibLeft(h), 1) && Kinds(LibLeft(h)) && |LibLeft(h).lib| < |h.lib|
    ensures h.cold <= LibLeft(h).cold && h.fast == LibLeft(h).fast && h.made == LibLeft(h).made
  {
    var g := LibLeft(h);
    assert Qs(g) == Qs(h)[1 := h.lib[1..]] && Qs(h)[1] == h.lib;
  }

  lemma LibLeftStamps(h: Host)
    requires Stamps(h) && Kinds(h) && h.lib != []
    ensures Stamps(LibLeft(h)) && forall u :: AfterFor(h, u) <= AfterFor(LibLeft(h), u)
  {
    assert h.lib[0] in h.lib;
    StampsStep(h, LibLeft(h), ColdMsg(h.sn + 1, Part(h.lib[0])));
  }

  lemma PieceLeftSends(h: Host, k: nat)
    requires Kinds(h) && k < |h.t2| && h.t2[k].pieces != []
    ensures HeadSent(h, PieceLeft(h, k), k + 2) && Kinds(PieceLeft(h, k))
    ensures |PieceLeft(h, k).t2| == |h.t2| && |PieceLeft(h, k).t2[k].pieces| < |h.t2[k].pieces|
    ensures h.cold <= PieceLeft(h, k).cold && h.fast == PieceLeft(h, k).fast && h.made == PieceLeft(h, k).made
  {
    var g := PieceLeft(h, k);
    assert Qs(g) == Qs(h)[k + 2 := h.t2[k].pieces[1..]] && Qs(h)[k + 2] == h.t2[k].pieces;
    assert OwnSlot(h.t2[k]);
    forall j | 0 <= j < |g.t2| ensures OwnSlot(g.t2[j]) {
      assert OwnSlot(h.t2[j]);
    }
  }

  lemma PieceLeftStamps(h: Host, k: nat)
    requires Stamps(h) && Kinds(h) && k < |h.t2| && h.t2[k].pieces != []
    ensures Stamps(PieceLeft(h, k)) && forall u :: AfterFor(h, u) <= AfterFor(PieceLeft(h, k), u)
  {
    assert OwnSlot(h.t2[k]) && h.t2[k].pieces[0] in h.t2[k].pieces;
    StampsStep(h, PieceLeft(h, k), ColdMsg(h.sn + 1, Part(h.t2[k].pieces[0])));
  }

  // ------------------------------------------- queues that do not send ----

  /** The lanes and stamps are as they were. */
  predicate SameLanes(h: Host, g: Host) {
    && g.cold == h.cold && g.fast == h.fast && g.sn == h.sn && g.snFast == h.snFast
    && g.coldOf == h.coldOf && g.bootLast == h.bootLast && g.linkLast == h.linkLast
  }

  lemma SameLanesStamps(h: Host, g: Host)
    requires Numbered(h) && Stamps(h) && SameLanes(h, g)
    ensures Numbered(g) && Stamps(g) && forall u :: AfterFor(h, u) == AfterFor(g, u)
  {
    forall m | m in g.cold ensures Covered(g, m) { assert Covered(h, m); }
    forall m | m in g.fast ensures StampedBy(g, m) { assert StampedBy(h, m); }
  }

  lemma AskedFine(h: Host)
    requires Fine(h)
    ensures Fine(Asked(h)) && Onward(h, Asked(h))
  {
    hide Numbered, Stamps, AfterFor, AllOk, IdsUpTo, Complete, Waiting, Superseded;
    var g := Asked(h);
    SameLanesStamps(h, g);
    assert Qs(g) == Qs(h);
    forall i: nat | i < |g.made| ensures KeptAt(g, i) { assert KeptAt(h, i); }
  }

  /** `b` joins queue `k` behind `keep`, which is all of that queue or (a replacement) none of it. */
  ghost predicate Refilled(h: Host, g: Host, k: nat, keep: seq<Piece>, b: Blob) {
    && k < |Qs(h)| && Absent(keep, b.id) && b.id.at == h.sn + 1
    && (keep == Qs(h)[k] || (keep == [] && forall p :: p in Qs(h)[k] ==> SameKey(p.id, b.id)))
    && (forall p :: p in keep ==> !SameKey(p.id, b.id))
    && Qs(g) == Qs(h)[k := keep + Pieces(b.id, b.data)]
    && g.made == h.made + [b] && SameLanes(h, g)
  }

  lemma RefilledFine(h: Host, g: Host, k: nat, keep: seq<Piece>, b: Blob)
    requires Fine(h) && Refilled(h, g, k, keep, b) && Kinds(g)
    ensures Fine(g) && Onward(h, g)
  {
    hide Numbered, Stamps, Qs, AllKept, AllOk, IdsUpTo, Kinds, AfterFor, SameLanes, SameKey;
    assert SameLanes(h, g);
    SameLanesStamps(h, g);
    RefilledQueues(h, g, k, keep, b);
    RefilledKept(h, g, k, keep, b);
    LanesOnward(h, g);
  }

  lemma LanesOnward(h: Host, g: Host)
    requires SameLanes(h, g) && h.made <= g.made && forall u :: AfterFor(h, u) == AfterFor(g, u)
    ensures Onward(h, g)
  {
  }

  lemma RefilledQueues(h: Host, g: Host, k: nat, keep: seq<Piece>, b: Blob)
    requires Queues(h) && Refilled(h, g, k, keep, b) && Kinds(g)
    ensures Queues(g)
  {
    hide Sound, Qs, Kinds, Pieces, Size, Parts, SameKey;
    var log := Parts(h.cold);
    assert QueueOk(log, Qs(h)[k]) && IdsUpTo(Qs(h)[k], h.sn + 1);
    Emptied(log);
    Refill(log, keep, b.id, b.data);
    PiecesNamed(b.id, b.data);
    forall j | 0 <= j < |Qs(g)| ensures QueueOk(log, Qs(g)[j]) && IdsUpTo(Qs(g)[j], g.sn + 1) {
      assert QueueOk(log, Qs(h)[j]) && IdsUpTo(Qs(h)[j], h.sn + 1);
    }
    RefilledKeyed(h, g, k, keep, b);
  }

  lemma RefilledKeyed(h: Host, g: Host, k: nat, keep: seq<Piece>, b: Blob)
    requires Queues(h) && Refilled(h, g, k, keep, b)
    ensures Keyed(Parts(g.cold), Qs(g))
  {
    hide Qs, Kinds, Pieces, Parts, AllOk;
    var log, o := Parts(h.cold), keep + Pieces(b.id, b.data);
    PiecesNamed(b.id, b.data);
    assert OneBlob(log, Qs(h)[k]);
    forall r: Piece, p: Piece | r in log && p in o ensures NotAfter(r.id, p.id) {
      assert r.id.at <= h.sn;
    }
    forall p: Piece, q: Piece | p in o && q in o && SameKey(p.id, q.id) ensures p.id == q.id {
      assert p in keep || p.id == b.id;
      assert q in keep || q.id == b.id;
    }
    assert OneBlob(log, o);
    forall j | 0 <= j < |Qs(g)| ensures OneBlob(log, Qs(g)[j]) {
      if j != k { assert OneBlob(log, Qs(h)[j]); }
    }
  }

  lemma PiecesNamed(id: BlobId, data: seq<Byte>)
    ensures forall p :: p in Pieces(id, data) ==> p.id == id && p.data == data
    ensures Pieces(id, data) != [] && Pieces(id, data)[0] == Piece(id, data, 0)
  {
  }

  lemma RefilledKept(h: Host, g: Host, k: nat, keep: seq<Piece>, b: Blob)
    requires AllKept(h) && Refilled(h, g, k, keep, b)
    ensures AllKept(g)
  {
    hide Qs, Pieces, Size, Parts, SameKey, Complete;
    PiecesNamed(b.id, b.data);
    var qs, n := Qs(h), Qs(g);
    assert Pieces(b.id, b.data)[0] in n[k];
    forall i: nat | i < |g.made| ensures KeptAt(g, i) {
      if i == |h.made| {
        assert Holds(n[k], b);
      } else {
        assert KeptAt(h, i) && g.made[i] == h.made[i];
        if Superseded(h.made, i) {
          var j :| i < j < |h.made| && SameKey(h.made[i].id, h.made[j].id);
          assert g.made[j] == h.made[j];
        } else if Waiting(qs, h.made[i]) {
          var j :| 0 <= j < |qs| && Holds(qs[j], h.made[i]);
          if j != k || keep == qs[k] {
            assert Holds(n[j], h.made[i]);
          } else {
            assert SameKey(h.made[i].id, g.made[|h.made|].id);
          }
        }
      }
    }
  }

  lemma QueueBootFine(h: Host, data: seq<Byte>, alive: set<Uuid>)
    requires Fine(h)
    ensures Fine(QueueBoot(h, data, alive)) && Onward(h, QueueBoot(h, data, alive))
  {
    hide Numbered, Stamps, AllKept, AllOk, IdsUpTo, AfterFor, Pieces;
    var g, b := QueueBoot(h, data, alive), Blob(BlobId.Boot(h.boots, h.sn + 1), data);
    PiecesNamed(b.id, data);
    assert [] + Pieces(b.id, data) == Pieces(b.id, data);
    assert Qs(g) == Qs(h)[0 := Pieces(b.id, data)];
    RefilledFine(h, g, 0, [], b);
  }

  lemma QueueLibFine(h: Host, data: seq<Byte>)
    requires Fine(h)
    ensures Fine(QueueLib(h, data)) && Onward(h, QueueLib(h, data))
  {
    hide Numbered, Stamps, AllKept, AllOk, IdsUpTo, AfterFor, Pieces;
    var g, b := QueueLib(h, data), Blob(BlobId.Lib(h.libs, h.sn + 1), data);
    PiecesNamed(b.id, data);
    assert Qs(g) == Qs(h)[1 := h.lib + Pieces(b.id, data)];
    RefilledFine(h, g, 1, h.lib, b);
  }

  lemma {:induction false} SlotFound(t2: seq<Outgoing>, u: Uuid)
    ensures match SlotOf(t2, u)
      case Some(k) => k < |t2| && t2[k].uuid == u
      case None => forall k :: 0 <= k < |t2| ==> t2[k].uuid != u
  {
    if t2 != [] { SlotFound(t2[..|t2| - 1], u); }
  }

  /** An empty queue, gone or new, changes nothing. */
  ghost predicate Pruned(h: Host, g: Host, k: nat) {
    && k + 2 < |Qs(h)| && Qs(h)[k + 2] == [] && Qs(g) == Qs(h)[..k + 2] + Qs(h)[k + 3..]
    && g.made == h.made && SameLanes(h, g)
  }

  lemma PrunedFine(h: Host, g: Host, k: nat)
    requires Fine(h) && Pruned(h, g, k) && Kinds(g)
    ensures Fine(g) && Onward(h, g)
  {
    hide Numbered, Stamps, Qs, AfterFor, Kinds, QueueOk, Complete, Superseded, Parts, IdsUpTo, OneBlob, KeyOrder;
    SameLanesStamps(h, g);
    var qs, n := Qs(h), Qs(g);
    forall j | 0 <= j < |n| ensures QueueOk(Parts(g.cold), n[j]) && IdsUpTo(n[j], g.sn + 1) && OneBlob(Parts(g.cold), n[j]) {
      var o := if j < k + 2 then j else j + 1;
      assert n[j] == qs[o] && QueueOk(Parts(h.cold), qs[o]) && IdsUpTo(qs[o], h.sn + 1) && OneBlob(Parts(h.cold), qs[o]);
    }
    forall i: nat | i < |g.made| ensures KeptAt(g, i) {
      assert KeptAt(h, i);
      if Waiting(qs, h.made[i]) {
        var j :| 0 <= j < |qs| && Holds(qs[j], h.made[i]);
        assert n[if j < k + 2 then j else j - 1] == qs[j];
      }
    }
  }

  lemma SlotDoneFine(h: Host, k: nat)
    requires Fine(h) && k < |h.t2| && h.t2[k].pieces == []
    ensures Fine(SlotDone(h, k)) && Onward(h, SlotDone(h, k))
  {
    hide Numbered, Stamps, AllKept, AllOk, IdsUpTo, AfterFor;
    var g := SlotDone(h, k);
    assert Qs(g) == Qs(h)[..k + 2] + Qs(h)[k + 3..];
    forall j | 0 <= j < |g.t2| ensures OwnSlot(g.t2[j]) {
      assert OwnSlot(h.t2[if j < k then j else j + 1]);
    }
    PrunedFine(h, g, k);
  }

  lemma SlotAddedFine(h: Host, u: Uuid)
    requires Fine(h) && SlotOf(h.t2, u).None?
    ensures Fine(h.(t2 := h.t2 + [Outgoing(u, [])]))
  {
    hide Numbered, Stamps, AfterFor, QueueOk, Complete, Superseded, Parts, Sound, KeyOrder, NotAfter, SameKey;
    var g := h.(t2 := h.t2 + [Outgoing(u, [])]);
    SlotFound(h.t2, u);
    SameLanesStamps(h, g);
    var qs, n := Qs(h), Qs(g);
    assert n == qs + [[]];
    Emptied(Parts(h.cold));
    forall j | 0 <= j < |qs| ensures QueueOk(Parts(g.cold), n[j]) && IdsUpTo(n[j], g.sn + 1) && OneBlob(Parts(g.cold), n[j]) {
      assert n[j] == qs[j] && QueueOk(Parts(h.cold), qs[j]) && IdsUpTo(qs[j], h.sn + 1) && OneBlob(Parts(h.cold), qs[j]);
    }
    forall j | 0 <= j < |h.t2| ensures OwnSlot(g.t2[j]) { assert OwnSlot(h.t2[j]); }
    forall i: nat | i < |g.made| ensures KeptAt(g, i) {
      assert KeptAt(h, i);
      if Waiting(qs, h.made[i]) {
        var j :| 0 <= j < |qs| && Holds(qs[j], h.made[i]);
        assert n[j] == qs[j];
      }
    }
  }

  lemma QueueT2Fine(h: Host, u: Uuid, data: seq<Byte>)
    requires Fine(h)
    ensures Fine(QueueT2(h, u, data)) && Onward(h, QueueT2(h, u, data))
  {
    SlotFound(h.t2, u);
    match SlotOf(h.t2, u) {
      case Some(k) => SlotRefilled(h, k, u, data);
      case None =>
        hide Fine, Onward, QueueT2;
        var h1 := h.(t2 := h.t2 + [Outgoing(u, [])]);
        SlotAddedFine(h, u);
        SlotRefilled(h1, |h.t2|, u, data);
        SlotAppended(h, u, data);
    }
  }

  lemma SlotAppended(h: Host, u: Uuid, data: seq<Byte>)
    requires SlotOf(h.t2, u).None?
    ensures var h1 := h.(t2 := h.t2 + [Outgoing(u, [])]);
      && QueueT2(h, u, data) == InSlot(h1, |h.t2|, u, Blob(BlobId.Resend(u, h.sn + 1), data))
      && forall g :: Onward(h1, g) ==> Onward(h, g)
  {
    hide Pieces;
    var h1 := h.(t2 := h.t2 + [Outgoing(u, [])]);
    assert forall v :: AfterFor(h, v) == AfterFor(h1, v);
  }

  /** The host once the blob `b` of datablock `u` has taken slot `k`. */
  function InSlot(h: Host, k: nat, u: Uuid, b: Blob): Host
    requires k < |h.t2|
  {
    h.(t2 := h.t2[k := Outgoing(u, Pieces(b.id, b.data))], made := h.made + [b])
  }

  lemma SlotRefilled(h: Host, k: nat, u: Uuid, data: seq<Byte>)
    requires Fine(h) && k < |h.t2| && h.t2[k].uuid == u
    ensures var g := InSlot(h, k, u, Blob(BlobId.Resend(u, h.sn + 1), data)); Fine(g) && Onward(h, g)
  {
    var b := Blob(BlobId.Resend(u, h.sn + 1), data);
    SlotKinds(h, k, u, b);
    SlotIsRefilled(h, k, u, b);
    hide *;
    RefilledFine(h, InSlot(h, k, u, b), k + 2, [], b);
  }

  lemma SlotIsRefilled(h: Host, k: nat, u: Uuid, b: Blob)
    requires k < |h.t2| && b.id.at == h.sn + 1 && forall p :: p in Qs(h)[k + 2] ==> SameKey(p.id, b.id)
    ensures Refilled(h, InSlot(h, k, u, b), k + 2, [], b)
  {
    hide Pieces, SameKey;
    var g := InSlot(h, k, u, b);
    assert [] + Pieces(b.id, b.data) == Pieces(b.id, b.data);
    assert Qs(g) == Qs(h)[k + 2 := Pieces(b.id, b.data)];
  }

  lemma SlotKinds(h: Host, k: nat, u: Uuid, b: Blob)
    requires Kinds(h) && k < |h.t2| && h.t2[k].uuid == u && b.id.Resend? && b.id.uuid == u
    ensures Kinds(InSlot(h, k, u, b))
    ensures forall p :: p in Qs(h)[k + 2] ==> SameKey(p.id, b.id)
  {
    hide Pieces;
    PiecesNamed(b.id, b.data);
    var g := InSlot(h, k, u, b);
    assert Qs(h)[k + 2] == h.t2[k].pieces && OwnSlot(h.t2[k]);
    forall j | 0 <= j < |g.t2| ensures OwnSlot(g.t2[j]) { assert OwnSlot(h.t2[j]); }
  }

  // ---------------------------------------------- single messages ----

  /** A cold message that is not a chunk. */
  lemma NoteFine(h: Host, g: Host, body: ColdBody)
    requires Fine(h) && !body.Part?
    requires g == PutCold(h, body).(linkLast := if body.Link? then h.sn + 1 else h.linkLast)
    ensures Fine(g) && Onward(h, g)
  {
    hide QueueOk, Complete, Superseded, Parts, Sound, Waiting;
    var m := ColdMsg(h.sn + 1, body);
    PartsSnoc(h.cold, m);
    assert Parts(h.cold) + [] == Parts(h.cold);
    assert Qs(g) == Qs(h);
    forall i: nat | i < |g.made| ensures KeptAt(g, i) { assert KeptAt(h, i); }
    StampsStep(h, g, m);
  }

  lemma SendFastFine(h: Host, u: Uuid, after: nat, lift: nat)
    requires Fine(h) && lift <= after <= Max(AfterFor(h, u), lift)
    ensures Fine(SendFast(h, u, after, lift).0) && Onward(h, SendFast(h, u, after, lift).0)
  {
    if !Accepts(h) {
      AskedFine(h);
    } else {
      hide QueueOk, Complete, Superseded, Parts, Sound, Waiting, AfterFor;
      var g := SendFast(h, u, after, lift).0;
      assert Qs(g) == Qs(h);
      forall i: nat | i < |g.made| ensures KeptAt(g, i) { assert KeptAt(h, i); }
      SameStamps(h, g);
    }
  }

  lemma SameStamps(h: Host, g: Host)
    requires Stamps(h)
    requires g.cold == h.cold && g.sn == h.sn && g.coldOf == h.coldOf && g.bootLast == h.bootLast && g.linkLast == h.linkLast
    requires forall m :: m in g.fast ==> m in h.fast || StampedBy(h, m)
    ensures Stamps(g) && forall u :: AfterFor(h, u) == AfterFor(g, u)
  {
    forall m | m in g.cold ensures Covered(g, m) { assert Covered(h, m); }
    forall m | m in g.fast ensures StampedBy(g, m) { assert m in h.fast ==> StampedBy(h, m); }
  }

  // ---------------------------------------------------- operations ----

  lemma {:induction false} DrainBootFine(h: Host)
    requires Fine(h)
    ensures Fine(DrainBoot(h).0) && Onward(h, DrainBoot(h).0)
    decreases |h.boot|
  {
    hide BootLeft, Numbered, AllOk, Kinds, IdsUpTo, AllKept, Stamps, HeadSent, AfterFor, Covered;
    if h.boot == [] {
      Stays(h);
    } else if !Accepts(h) {
      AskedFine(h);
    } else {
      var g := BootLeft(h);
      BootLeftSends(h);
      HeadSentKeeps(h, g, 0);
      BootLast(h);
      BootLeftStamps(h);
      DrainBootFine(g);
      OnwardTrans(h, g, DrainBoot(h).0);
    }
  }

  lemma Stays(h: Host)
    ensures Onward(h, h)
  {
  }

  lemma {:induction false} DrainLibFine(h: Host)
    requires Fine(h)
    ensures Fine(DrainLib(h).0) && Onward(h, DrainLib(h).0)
    decreases |h.lib|
  {
    hide LibLeft, Numbered, AllOk, Kinds, IdsUpTo, AllKept, Stamps, HeadSent, AfterFor, Covered;
    if h.lib == [] {
      Stays(h);
    } else if !Accepts(h) {
      AskedFine(h);
    } else {
      var g := LibLeft(h);
      LibLeftSends(h);
      HeadSentKeeps(h, g, 1);
      LibLeftStamps(h);
      DrainLibFine(g);
      OnwardTrans(h, g, DrainLib(h).0);
    }
  }

  lemma {:induction false} DrainSlotFine(h: Host, k: nat)
    requires Fine(h) && k < |h.t2|
    ensures Fine(DrainSlot(h, k).0) && Onward(h, DrainSlot(h, k).0)
    decreases |h.t2[k].pieces|
  {
    hide PieceLeft, Numbered, AllOk, Kinds, IdsUpTo, AllKept, Stamps, HeadSent, AfterFor, Covered;
    if h.t2[k].pieces == [] {
      SlotDoneFine(h, k);
    } else if !Accepts(h) {
      AskedFine(h);
    } else {
      var g := PieceLeft(h, k);
      PieceLeftSends(h, k);
      HeadSentKeeps(h, g, k + 2);
      PieceLeftStamps(h, k);
      DrainSlotFine(g, k);
      OnwardTrans(h, g, DrainSlot(h, k).0);
    }
  }

  lemma {:induction false} DrainFromFine(h: Host, k: nat, only: Option<Uuid>)
    requires Fine(h) && k <= |h.t2|
    ensures Fine(DrainFrom(h, k, only).0) && Onward(h, DrainFrom(h, k, only).0)
    decreases |h.t2| - k
  {
    hide Fine, Onward, DrainSlot;
    if k == |h.t2| {
      Stays(h);
    } else if only.Some? && h.t2[k].uuid != only.value {
      DrainFromFine(h, k + 1, only);
    } else {
      DrainSlotFine(h, k);
      var (g, ok) := DrainSlot(h, k);
      if ok {
        DrainFromFine(g, k, only);
        OnwardTrans(h, g, DrainFrom(h, k, only).0);
      }
    }
  }

  lemma FlushT2Fine(h: Host, u: Uuid, data: seq<Byte>)
    requires Fine(h)
    ensures Fine(FlushT2(h, u, data)) && Onward(h, FlushT2(h, u, data))
  {
    hide Fine, Onward, QueueT2, DrainFrom;
    var q := QueueT2(h, u, data);
    QueueT2Fine(h, u, data);
    DrainFromFine(q, 0, Some(u));
    OnwardTrans(h, q, FlushT2(h, u, data));
  }

  lemma ShippedFine(h: Host, t: Target)
    requires Fine(h)
    ensures Fine(Shipped(h, t)) && Onward(h, Shipped(h, t))
  {
    hide Fine, Onward, FlushT2;
    if t.uuid !in h.shipped && t.blob.Some? { FlushT2Fine(h, t.uuid, t.blob.value); } else { Stays(h); }
  }

  lemma {:induction false} AimFine(h: Host, u: Uuid, ts: seq<Target>, after: nat, lift: nat)
    requires Fine(h) && after <= AfterFor(h, u)
    ensures Fine(Aim(h, u, ts, after, lift).0) && Onward(h, Aim(h, u, ts, after, lift).0)
    decreases |ts|
  {
    hide Fine, AfterFor, Shipped, SendFast;
    if ts == [] {
      SendFastFine(h, u, Max(after, lift), lift);
    } else {
      var g := Shipped(h, ts[0]);
      ShippedFine(h, ts[0]);
      assert AfterFor(h, u) <= AfterFor(g, u);
      if SlotOf(g.t2, ts[0].uuid).None? {
        var lift1 := Max(lift, ColdAt(g, ts[0].uuid));
        AimFine(g, u, ts[1..], after, lift1);
        OnwardTrans(h, g, Aim(g, u, ts[1..], after, lift1).0);
      }
    }
  }

  lemma DidFine(h: Host, op: Op)
    requires Fine(h)
    ensures Fine(Did(h, op)) && Onward(h, Did(h, op))
  {
    match op {
      case DoQueueBoot(data, alive) => QueueBootFine(h, data, alive);
      case DoQueueLib(data) => QueueLibFine(h, data);
      case DoBoot => DrainBootFine(h);
      case DoLib => DrainLibFine(h);
      case DoT2 => DrainFromFine(h, 0, None);
      case DoBlob(u, data) => FlushT2Fine(h, u, data);
      case DoLink => if Accepts(h) { NoteFine(h, SendLink(h).0, Link); } else { AskedFine(h); }
      case DoEnd => if Accepts(h) { NoteFine(h, SendEnd(h).0, End); } else { AskedFine(h); }
      case DoT1(u, ts) => AimFine(h, u, ts, AfterFor(h, u), 0);
      case DoTomb(u) => SendFastFine(h, u, AfterFor(h, u), 0);
      case DoFastEnd => SendFastFine(h, "", 0, 0);
    }
  }

  /** Whatever the host does, in whatever order, and whichever sends are refused. */
  lemma {:induction false} RunFine(h: Host, ops: seq<Op>)
    requires Fine(h)
    ensures Fine(After(h, ops)) && Onward(h, After(h, ops))
  {
    hide Fine, Onward, Did;
    if ops == [] {
      Stays(h);
    } else {
      var g := After(h, ops[..|ops| - 1]);
      RunFine(h, ops[..|ops| - 1]);
      DidFine(g, ops[|ops| - 1]);
      OnwardTrans(h, g, After(h, ops));
    }
  }
}
