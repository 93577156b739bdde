/**
 * The host's shadow against what has really left it (qcbridge/ring0/host_handlers.py:
 * _flush_t1, _send_t1, _flush_t2; qcbridge/ring1/shadow.py).
 */
module ShadowFlush {
  import opened Wrappers
  import opened Wire
  import opened AtStates

  type Digest = string

  /** A serialised datablock: its digest, and the "@" registers it leaves out, as a fresh copy of it
      shows them. */
  datatype Blob = Blob(digest: Digest, at: Registers)

  /** A snapshot of a datablock: its registers and its structure signature (the "~" paths). */
  datatype Snap = Snap(regs: Registers, form: Value)

  datatype Sent =
    | Changed(uuid: Uuid, changes: Registers)
    | Whole(uuid: Uuid, cargo: Cargo)

  /** A peer that applies what leaves: its datablocks, and the "@" values it last received. */
  datatype Peer = Peer(scene: Scene, kept: map<Uuid, Registers>)

  function KeptOf(p: Peer, u: Uuid): Registers {
    if u in p.kept then p.kept[u] else map[]
  }

  function Applied(p: Peer, m: Sent): Peer {
    match m
    case Changed(u, ch) =>
      if u in p.scene
      then Peer(p.scene[u := p.scene[u] + ch], p.kept[u := KeptOf(p, u) + AtOf(ch)]) else p
    case Whole(u, c) => p.(scene := p.scene[u := Loaded(c, KeptOf(p, u))])
  }

  /** The shadows, which datablocks have left whole, the digests of their last blobs, and the
      peer that what has left amounts to. */
  datatype Host = Host(shadow: map<Uuid, Snap>, shipped: set<Uuid>, digests: map<Uuid, Digest>, peer: Peer)

  /** One flush of a ready datablock: what it holds now, its blob (none for a type that is
      never resent), whether anything uses it, and whether the fast lane takes a delta.
      `Left` is the last chunk of a queued blob leaving. */
  datatype Flush =
    | T1(uuid: Uuid, snap: Snap, blob: Option<Blob>, used: bool, accepted: bool)
    | T2(uuid: Uuid, snap: Snap, blob: Option<Blob>)
    | Left(uuid: Uuid)

  function Told(h: Host, m: Sent): Host {
    h.(peer := Applied(h.peer, m))
  }

  function Changes(was: Registers, now: Registers): Registers {
    map p | p in now && !(p in was && was[p] == now[p]) :: now[p]
  }

  predicate Structural(was: Snap, now: Snap) {
    was.regs.Keys != now.regs.Keys || was.form != now.form
  }

  /** The replica already holds exactly this blob. */
  predicate Skips(h: Host, u: Uuid, digest: Digest) {
    u in h.shipped && u in h.digests && h.digests[u] == digest
  }

  function Blobbed(h: Host, u: Uuid, snap: Snap, blob: Blob): Host {
    var h1 := h.(shadow := h.shadow[u := snap]);
    if Skips(h, u, blob.digest) then h1
    else Told(h1.(digests := h1.digests[u := blob.digest]), Whole(u, Cargo(snap.regs, blob.at)))
  }

  /** `fallback` leaves as a delta when there is no blob to carry it; its refusal restores nothing. */
  function FlushedT2(h: Host, u: Uuid, snap: Snap, blob: Option<Blob>, fallback: Registers, accepted: bool): Host {
    match blob
    case Some(b) => Blobbed(h, u, snap, b)
    case None => if fallback != map[] && accepted then Told(h, Changed(u, fallback)) else h
  }

  function FlushedT1(h: Host, u: Uuid, snap: Snap, blob: Option<Blob>, used: bool, accepted: bool): Host {
    var h1 := h.(shadow := h.shadow[u := snap]);
    if u !in h.shadow then
      if used then FlushedT2(h1, u, snap, blob, map[], accepted) else h1
    else
      var was := h.shadow[u];
      var changes := Changes(was.regs, snap.regs);
      if Structural(was, snap) then FlushedT2(h1, u, snap, blob, changes, accepted)
      else if changes == map[] then h1
      else if accepted then Told(h1, Changed(u, changes))
      else h  // the old shadow is put back
  }

  function Flushed(h: Host, f: Flush): Host {
    match f
    case T1(u, snap, blob, used, accepted) => FlushedT1(h, u, snap, blob, used, accepted)
    case T2(u, snap, blob) => FlushedT2(h, u, snap, blob, map[], true)
    case Left(u) => h.(shipped := h.shipped + {u})
  }

  function FlushedAll(h: Host, fs: seq<Flush>): Host {
    if fs == [] then h else Flushed(FlushedAll(h, fs[..|fs| - 1]), fs[|fs| - 1])
  }

  // ------------------------------- the shadow is what has really left ----

  /** Every shadow is what has left of its datablock. */
  predicate TrueOf(h: Host, u: Uuid) {
    if u in h.shadow then u in h.peer.scene && h.peer.scene[u] == h.shadow[u].regs else u !in h.peer.scene
  }

  ghost predicate True(h: Host) {
    forall u :: TrueOf(h, u)
  }

  predicate Differs(h: Host, u: Uuid, snap: Snap) {
    u !in h.shadow || h.shadow[u].regs != snap.regs
  }

  /** A blob that leaves, or is skipped because the last one was the same, does not bring the peer to
      the snapshot. */
  predicate FallsShort(h: Host, u: Uuid, snap: Snap, blob: Blob) {
    if Skips(h, u, blob.digest) then Differs(h, u, snap)
    else Hides(Cargo(snap.regs, blob.at), KeptOf(h.peer, u))
  }

  /** The branches that move a shadow and send nothing to match: an unused new datablock; a new
      one, or a changed path set, of a type without blob, whose delta is refused or cannot say
      which path went; a blob skipped, though a delta has moved the peer since; a blob that leaves
      while an "@" register differs from what the peer last received, or, if it never received one,
      from what a fresh copy shows. */
  predicate Silent(h: Host, f: Flush) {
    match f
    case T1(u, snap, blob, used, accepted) =>
      if u !in h.shadow then
        !used || blob.None? || FallsShort(h, u, snap, blob.value)
      else if Structural(h.shadow[u], snap) then
        match blob
        case Some(b) => FallsShort(h, u, snap, b)
        case None => !(h.shadow[u].regs.Keys <= snap.regs.Keys)
                     || (!accepted && Changes(h.shadow[u].regs, snap.regs) != map[])
      else false
    case T2(u, snap, blob) => blob.Some? && FallsShort(h, u, snap, blob.value)
    case Left(_) => false
  }

  lemma ChangesApplied(was: Registers, now: Registers)
    ensures was + Changes(was, now) == now <==> was.Keys <= now.Keys
    ensures Changes(was, now) == map[] && was.Keys <= now.Keys ==> was == now
    ensures was == now ==> Changes(was, now) == map[]
  {
    var ch := Changes(was, now);
    if was.Keys <= now.Keys {
      assert forall p :: p in now ==> p in was + ch && (was + ch)[p] == now[p];
      if ch == map[] { assert forall p :: p in now ==> p !in ch; }
    } else {
      var p :| p in was && p !in now;
      assert p in was + ch;
    }
  }

  lemma ShadowFrame(h: Host, u: Uuid, snap: Snap, v: Uuid)
    requires v != u
    ensures TrueOf(h.(shadow := h.shadow[u := snap]), v) <==> TrueOf(h, v)
  {
  }

  lemma ToldFrame(h: Host, m: Sent, v: Uuid)
    requires v != m.uuid
    ensures TrueOf(Told(h, m), v) <==> TrueOf(h, v)
  {
  }

  lemma T2Frame(h: Host, u: Uuid, snap: Snap, blob: Option<Blob>, fallback: Registers, accepted: bool, v: Uuid)
    requires v != u
    ensures TrueOf(FlushedT2(h, u, snap, blob, fallback, accepted), v) <==> TrueOf(h, v)
  {
    hide TrueOf, Told, Skips;
    ToldFrame(h, Changed(u, fallback), v);
    ShadowFrame(h, u, snap, v);
    if blob.Some? {
      var h1 := h.(shadow := h.shadow[u := snap]);
      var h2 := h1.(digests := h1.digests[u := blob.value.digest]);
      ToldFrame(h2, Whole(u, Cargo(snap.regs, blob.value.at)), v);
      SameTold(h1, h2, v);
    }
  }

  lemma SameTold(h: Host, n: Host, v: Uuid)
    requires n.shadow == h.shadow && n.peer == h.peer
    ensures TrueOf(n, v) <==> TrueOf(h, v)
  {
  }

  /** A flush touches its own datablock only. */
  lemma FlushFrame(h: Host, f: Flush, v: Uuid)
    requires v != f.uuid
    ensures TrueOf(Flushed(h, f), v) <==> TrueOf(h, v)
  {
    hide TrueOf, Told, FlushedT2, Changes, Structural;
    match f {
      case T1(u, snap, blob, used, accepted) =>
        var h1 := h.(shadow := h.shadow[u := snap]);
        ShadowFrame(h, u, snap, v);
        T2Frame(h1, u, snap, blob, map[], accepted, v);
        if u in h.shadow {
          var changes := Changes(h.shadow[u].regs, snap.regs);
          T2Frame(h1, u, snap, blob, changes, accepted, v);
          ToldFrame(h1, Changed(u, changes), v);
        }
      case T2(u, snap, blob) => T2Frame(h, u, snap, blob, map[], true, v);
      case Left(u) => SameTold(h, Flushed(h, f), v);
    }
  }

  lemma FirstExact(h: Host, u: Uuid, snap: Snap, blob: Option<Blob>, used: bool, accepted: bool)
    requires TrueOf(h, u) && u !in h.shadow
    ensures TrueOf(FlushedT1(h, u, snap, blob, used, accepted), u) <==> !Silent(h, T1(u, snap, blob, used, accepted))
  {
    hide Changes, Structural;
  }

  lemma StructuralExact(h: Host, u: Uuid, snap: Snap, blob: Option<Blob>, used: bool, accepted: bool)
    requires TrueOf(h, u) && u in h.shadow && Structural(h.shadow[u], snap)
    ensures TrueOf(FlushedT1(h, u, snap, blob, used, accepted), u) <==> !Silent(h, T1(u, snap, blob, used, accepted))
  {
    hide Changes, Structural;
    ChangesApplied(h.shadow[u].regs, snap.regs);
  }

  lemma PlainExact(h: Host, u: Uuid, snap: Snap, blob: Option<Blob>, used: bool, accepted: bool)
    requires TrueOf(h, u) && u in h.shadow && !Structural(h.shadow[u], snap)
    ensures TrueOf(FlushedT1(h, u, snap, blob, used, accepted), u) <==> !Silent(h, T1(u, snap, blob, used, accepted))
  {
    hide Changes, FlushedT2;
    ChangesApplied(h.shadow[u].regs, snap.regs);
  }

  lemma T1Exact(h: Host, u: Uuid, snap: Snap, blob: Option<Blob>, used: bool, accepted: bool)
    requires TrueOf(h, u)
    ensures TrueOf(FlushedT1(h, u, snap, blob, used, accepted), u) <==> !Silent(h, T1(u, snap, blob, used, accepted))
  {
    hide *;
    if u !in h.shadow {
      FirstExact(h, u, snap, blob, used, accepted);
    } else if Structural(h.shadow[u], snap) {
      StructuralExact(h, u, snap, blob, used, accepted);
    } else {
      PlainExact(h, u, snap, blob, used, accepted);
    }
  }

  /** A flush keeps the shadow equal to what has left iff it takes none of those branches. */
  lemma FlushExact(h: Host, f: Flush)
    requires True(h)
    ensures True(Flushed(h, f)) <==> !Silent(h, f)
  {
    hide Flushed, Silent, TrueOf;
    var u := f.uuid;
    assert TrueOf(h, u);
    FlushExactAt(h, f);
    if !Silent(h, f) {
      forall v ensures TrueOf(Flushed(h, f), v) {
        if v != u { FlushFrame(h, f, v); assert TrueOf(h, v); }
      }
    } else {
      assert !TrueOf(Flushed(h, f), u);
    }
  }

  lemma FlushExactAt(h: Host, f: Flush)
    requires TrueOf(h, f.uuid)
    ensures TrueOf(Flushed(h, f), f.uuid) <==> !Silent(h, f)
  {
    hide FlushedT1, Changes;
    match f {
      case T1(u, snap, blob, used, accepted) => T1Exact(h, u, snap, blob, used, accepted);
      case T2(_, _, _) =>
      case Left(_) =>
    }
  }

  /** For every run of flushes, refused or not: at each moment the shadows are exactly what the
      messages that left amount to, iff no flush took a silent branch. */
  lemma {:induction false} ShadowIsWhatLeft(h: Host, fs: seq<Flush>)
    requires True(h)
    ensures (forall n :: 0 <= n <= |fs| ==> True(FlushedAll(h, fs[..n])))
       <==> (forall n :: 0 <= n < |fs| ==> !Silent(FlushedAll(h, fs[..n]), fs[n]))
  {
    hide Flushed, Silent, True;
    if forall n :: 0 <= n <= |fs| ==> True(FlushedAll(h, fs[..n])) {
      forall n | 0 <= n < |fs| ensures !Silent(FlushedAll(h, fs[..n]), fs[n]) {
        assert True(FlushedAll(h, fs[..n]));
        FlushExact(FlushedAll(h, fs[..n]), fs[n]);
        OneMore(h, fs, n);
        assert True(FlushedAll(h, fs[..n + 1]));
      }
    }
    if forall n :: 0 <= n < |fs| ==> !Silent(FlushedAll(h, fs[..n]), fs[n]) {
      forall n | 0 <= n <= |fs| ensures True(FlushedAll(h, fs[..n])) {
        StaysTrue(h, fs, n);
      }
    }
  }

  lemma OneMore(h: Host, fs: seq<Flush>, n: nat)
    requires n < |fs|
    ensures FlushedAll(h, fs[..n + 1]) == Flushed(FlushedAll(h, fs[..n]), fs[n])
  {
    assert fs[..n + 1][..n] == fs[..n];
  }

  lemma {:induction false} StaysTrue(h: Host, fs: seq<Flush>, n: nat)
    requires True(h) && n <= |fs|
    requires forall i :: 0 <= i < n ==> !Silent(FlushedAll(h, fs[..i]), fs[i])
    ensures True(FlushedAll(h, fs[..n]))
  {
    hide Flushed, Silent, True;
    if n == 0 {
      assert fs[..0] == [];
    } else {
      StaysTrue(h, fs, n - 1);
      FlushExact(FlushedAll(h, fs[..n - 1]), fs[n - 1]);
      OneMore(h, fs, n - 1);
    }
  }

  /** Once a shadow holds a snapshot, flushing that snapshot again sends nothing. */
  lemma NothingToSend(h: Host, u: Uuid, snap: Snap, blob: Option<Blob>, used: bool, accepted: bool)
    requires u in h.shadow && h.shadow[u] == snap
    ensures Flushed(h, T1(u, snap, blob, used, accepted)) == h
  {
    ChangesApplied(snap.regs, snap.regs);
    assert h.shadow[u := snap] == h.shadow;
  }

  /** The refused half of a structural change of a type without blob: the shadow has moved on, so no
      later flush of the same state sends it, however often it comes. */
  lemma RefusedFallbackIsLost(u: Uuid, p: Path, one: Value, two: Value, was: Value, now: Value, used: bool, again: bool)
    requires one != two && was != now
    ensures var before, after := Snap(map[p := one], was), Snap(map[p := two], now);
      var h := Host(map[u := before], {}, map[], Peer(map[u := before.regs], map[]));
      var n := Flushed(h, T1(u, after, None, true, false));
      && True(h) && n.shadow[u] == after && n.peer == h.peer
      && Flushed(n, T1(u, after, None, used, again)) == n
  {
    var before, after := Snap(map[p := one], was), Snap(map[p := two], now);
    var h := Host(map[u := before], {}, map[], Peer(map[u := before.regs], map[]));
    var n := Flushed(h, T1(u, after, None, true, false));
    assert Structural(before, after);
    NothingToSend(n, u, after, None, used, again);
  }

  /** The eye toggled and the structure changed in one flush: the blob leaves without the eye, the
      peer writes back the value it last received, and no later flush of that state sends the new one. */
  lemma EyeToggledWithAModifier(u: Uuid, one: Value, two: Value, was: Value, now: Value, blob: Blob,
                                used: bool, accepted: bool, again: bool)
    requires one != two && was != now
    ensures var before, after := Snap(map["@hide" := one], was), Snap(map["@hide" := two], now);
      var h := Host(map[u := before], {}, map[], Peer(map[u := before.regs], map[u := before.regs]));
      var n := Flushed(h, T1(u, after, Some(blob), used, accepted));
      && True(h) && n.shadow[u] == after && n.peer.scene[u] == before.regs
      && Flushed(n, T1(u, after, Some(blob), used, again)) == n
  {
    var before, after := Snap(map["@hide" := one], was), Snap(map["@hide" := two], now);
    var h := Host(map[u := before], {}, map[], Peer(map[u := before.regs], map[u := before.regs]));
    assert Structural(before, after);
    assert Loaded(Cargo(after.regs, blob.at), before.regs) == before.regs;
    var n := Flushed(h, T1(u, after, Some(blob), used, accepted));
    NothingToSend(n, u, after, Some(blob), used, again);
  }

  /** A datablock made hidden: the first blob shows a fresh copy's eye. */
  lemma HiddenNewcomer(u: Uuid, one: Value, two: Value, form: Value, digest: Digest)
    requires one != two
    ensures var snap := Snap(map["@hide" := two], form);
      var n := Flushed(Host(map[], {}, map[], Peer(map[], map[])), T1(u, snap, Some(Blob(digest, map["@hide" := one])), true, true));
      n.shadow[u] == snap && n.peer.scene[u] == map["@hide" := one]
  {
    var snap := Snap(map["@hide" := two], form);
    assert Loaded(Cargo(snap.regs, map["@hide" := one]), map[]) == map["@hide" := one];
  }

  /** A skipped blob: shipped at one state, changed by a delta, marked for a blob when back in that
      state. The digest is the last one, so nothing leaves, and the peer keeps the delta. */
  lemma SkippedBlobLeavesTheDelta(u: Uuid, p: Path, one: Value, two: Value, form: Value, digest: Digest)
    requires one != two
    ensures var a, b, blob := Snap(map[p := one], form), Snap(map[p := two], form), Some(Blob(digest, map[]));
      var h := FlushedAll(Host(map[], {}, map[], Peer(map[], map[])),
        [T2(u, a, blob), Left(u), T1(u, b, blob, true, true), T2(u, a, blob)]);
      h.shadow == map[u := a] && h.peer.scene == map[u := b.regs]
  {
    hide Flushed;
    var a, b, blob := Snap(map[p := one], form), Snap(map[p := two], form), Some(Blob(digest, map[]));
    var h0 := Host(map[], {}, map[], Peer(map[], map[]));
    var fs := [T2(u, a, blob), Left(u), T1(u, b, blob, true, true), T2(u, a, blob)];
    assert fs[..4] == fs && fs[..0] == [];
    ShipThenLeave(u, a, digest);
    DeltaThenSkip(u, p, one, two, form, digest);
    OneMore(h0, fs, 0);
    OneMore(h0, fs, 1);
    OneMore(h0, fs, 2);
    OneMore(h0, fs, 3);
  }

  lemma ShipThenLeave(u: Uuid, a: Snap, digest: Digest)
    ensures var h1 := Host(map[u := a], {}, map[u := digest], Peer(map[u := a.regs], map[]));
      && Flushed(Host(map[], {}, map[], Peer(map[], map[])), T2(u, a, Some(Blob(digest, map[])))) == h1
      && Flushed(h1, Left(u)) == h1.(shipped := {u})
  {
    assert Loaded(Cargo(a.regs, map[]), map[]) == a.regs;
  }

  lemma DeltaThenSkip(u: Uuid, p: Path, one: Value, two: Value, form: Value, digest: Digest)
    requires one != two
    ensures var a, b, blob := Snap(map[p := one], form), Snap(map[p := two], form), Some(Blob(digest, map[]));
      var h2 := Host(map[u := a], {u}, map[u := digest], Peer(map[u := a.regs], map[]));
      var h3 := Flushed(h2, T1(u, b, blob, true, true));
      && h3.shadow == map[u := b] && h3.peer.scene == map[u := b.regs]
      && Flushed(h3, T2(u, a, blob)) == h3.(shadow := map[u := a])
  {
    var a, b := Snap(map[p := one], form), Snap(map[p := two], form);
    assert Changes(a.regs, b.regs) == map[p := two];
    assert map[p := one] + map[p := two] == map[p := two];
  }

  // ------------------------------------------------------ what gets through ----

  /** Neither a refusal nor a datablock that is not flushed at all stands in the way. */
  predicate Tried(f: Flush) {
    match f
    case T1(_, _, _, used, accepted) => used && accepted
    case T2(_, _, blob) => blob.Some?
    case Left(_) => false
  }

  /** A flush that is not refused and takes no silent branch brings the peer to the snapshot. */
  lemma FlushBringsUp(h: Host, f: Flush)
    requires True(h) && !Silent(h, f) && Tried(f)
    ensures var n := Flushed(h, f);
      f.uuid in n.shadow && n.shadow[f.uuid] == f.snap && f.uuid in n.peer.scene && n.peer.scene[f.uuid] == f.snap.regs
  {
    FlushExact(h, f);
    hide Flushed, Silent, TrueOf;
    assert TrueOf(Flushed(h, f), f.uuid);
    ShadowIsSnap(h, f);
    TrueIs(Flushed(h, f), f.uuid);
  }

  lemma TrueIs(h: Host, u: Uuid)
    requires TrueOf(h, u) && u in h.shadow
    ensures u in h.peer.scene && h.peer.scene[u] == h.shadow[u].regs
  {
  }

  lemma ShadowIsSnap(h: Host, f: Flush)
    requires Tried(f)
    ensures f.uuid in Flushed(h, f).shadow && Flushed(h, f).shadow[f.uuid] == f.snap
  {
    hide Applied, Skips;
  }

  /** A refused delta leaves no trace, so the next flush finds the same changes. */
  lemma RefusedDeltaIsSentLater(h: Host, u: Uuid, snap: Snap, blob: Option<Blob>, used: bool, accepted: bool)
    requires u in h.shadow && !Structural(h.shadow[u], snap) && Changes(h.shadow[u].regs, snap.regs) != map[]
    ensures Flushed(h, T1(u, snap, blob, used, false)) == h
    ensures Flushed(Flushed(h, T1(u, snap, blob, used, false)), T1(u, snap, blob, used, accepted))
         == Flushed(h, T1(u, snap, blob, used, accepted))
  {
  }
}
