/**
 * The shared-memory frame ring: the seqlock writer of qcbridge/ring0/frame_ring.py and the
 * reader loop of agent/encode-mac/qcb-encode-mac.swift, interleaved one memory word at a time
 * under sequential consistency. The writer may pick any slot.
 */
module FrameRings {
  type Word = nat

  // Descriptor words, after the seqlock.
  const WIDTH: nat := 0
  const HEIGHT: nat := 1
  const ROW: nat := 2            // bytes per row, counted in pixel words
  const PIXEL_FORMAT: nat := 3
  const FRAME_SEQ: nat := 9
  const DESC_WORDS: nat := 12
  const PF_RGBA32F: Word := 4

  type Desc = d: seq<Word> | |d| == DESC_WORDS witness seq(DESC_WORDS, i => 0)

  datatype Frame = Frame(desc: Desc, pix: seq<Word>)

  function Area(d: Desc): nat {
    d[HEIGHT] * d[ROW]
  }

  /** `last` is the number (from 0) of the newest publish completed in the slot, -1 for none. */
  datatype Slot = Slot(seqlock: nat, desc: Desc, pix: seq<Word>, last: int)

  datatype WriterPc = WIdle | WOdd | WPix(i: nat) | WDesc(i: nat) | WEven | WLatest
  datatype Writer = Writer(pc: WriterPc, slot: nat, lock: nat, frame: Frame)

  datatype ReaderPc = RIdle | RClaim | RBefore | RDesc | RPix | RAfter
  /** `word` is the `latest` word being followed, `number` the publish found under `before`. */
  datatype Reader = Reader(pc: ReaderPc, lastLatest: nat, word: nat, before: nat,
                           desc: seq<Word>, pix: seq<Word>, number: int)

  /** A frame the reader passed on to the encoder. */
  datatype Taken = Taken(word: nat, number: int, desc: seq<Word>, pix: seq<Word>)

  /** A word turned away for its descriptor: the publish found when the copy began, and whether the
      slot had been written to by the time its descriptor was judged. */
  datatype Refused = Refused(word: nat, number: int, torn: bool)

  datatype Ring = Ring(
    slots: seq<Slot>, cap: nat, latest: nat, claim: nat,
    w: Writer, r: Reader,
    published: seq<Frame>, taken: seq<Taken>, rejected: seq<Refused>)

  datatype Action = Begin(slot: nat, frame: Frame) | Stamp(i: nat, v: Word) | WriterStep | ReaderStep

  function PackLatest(n: nat, slot: nat): nat {
    n * 256 + slot % 256
  }

  function SlotOf(word: nat): nat {
    word % 256
  }

  function NumberOf(word: nat): nat {
    word / 256
  }

  lemma LatestRoundTrip(n: nat, slot: nat)
    requires slot < 256
    ensures SlotOf(PackLatest(n, slot)) == slot && NumberOf(PackLatest(n, slot)) == n
    ensures n > 0 ==> PackLatest(n, slot) != 0
  {
  }

  predicate BadDesc(d: seq<Word>, cap: nat)
    requires |d| == DESC_WORDS
  {
    d[PIXEL_FORMAT] != PF_RGBA32F || d[WIDTH] < 16 || d[HEIGHT] < 16
    || d[WIDTH] % 2 != 0 || d[HEIGHT] % 2 != 0 || Area(d) > cap
  }

  /** Only word stores to one slot happen between two even seqlocks. */
  predicate Enabled(s: Ring, a: Action) {
    match a
    case Begin(slot, frame) =>
      s.w.pc == WIdle && slot < |s.slots| && |frame.pix| == Area(frame.desc) <= s.cap
    case Stamp(i, v) => s.w.pc == WDesc(0) && i < |s.w.frame.pix|
    case WriterStep => s.w.pc != WIdle
    case ReaderStep => true
  }

  function WithSlot(s: Ring, i: nat, slot: Slot): Ring
    requires i < |s.slots|
  {
    s.(slots := s.slots[i := slot])
  }

  /** `publish`, one store at a time: odd seqlock, pixels, descriptor, even seqlock, latest. */
  function Wrote(s: Ring): Ring
    requires s.w.slot < |s.slots|
  {
    var w, m := s.w, s.slots[s.w.slot];
    match w.pc
    case WIdle => s
    case WOdd => WithSlot(s, w.slot, m.(seqlock := w.lock)).(w := w.(pc := WPix(0)))
    case WPix(i) =>
      if i < |w.frame.pix| && i < |m.pix| then
        WithSlot(s, w.slot, m.(pix := m.pix[i := w.frame.pix[i]])).(w := w.(pc := WPix(i + 1)))
      else s.(w := w.(pc := WDesc(0)))
    case WDesc(i) =>
      if i < DESC_WORDS then
        WithSlot(s, w.slot, m.(desc := m.desc[i := w.frame.desc[i]])).(w := w.(pc := WDesc(i + 1)))
      else s.(w := w.(pc := WEven))
    case WEven =>
      WithSlot(s, w.slot, m.(seqlock := w.lock + 1, last := |s.published|))
      .(w := w.(pc := WLatest), published := s.published + [w.frame])
    case WLatest =>
      s.(latest := PackLatest(|s.published|, w.slot), w := w.(pc := WIdle))
  }

  /** Let go of the slot and look at `latest` again; `lastLatest` is the cursor kept. */
  function Back(s: Ring, lastLatest: nat): Ring {
    s.(claim := 0, r := s.r.(pc := RIdle, lastLatest := lastLatest, desc := [], pix := []))
  }

  /** One load or store of the reader loop. */
  function Read(s: Ring): Ring {
    var r := s.r;
    var slot := SlotOf(r.word);
    if r.pc == RIdle then
      if s.latest == r.lastLatest then s
      else if SlotOf(s.latest) >= |s.slots| then
        s.(r := r.(lastLatest := s.latest), rejected := s.rejected + [Refused(s.latest, -1, false)])
      else s.(r := r.(pc := RClaim, word := s.latest))
    else if slot >= |s.slots| then s
    else
      var m := s.slots[slot];
      match r.pc
      case RIdle => s
      case RClaim => s.(claim := slot + 1, r := r.(pc := RBefore))
      case RBefore =>
        if m.seqlock % 2 == 1 then Back(s, r.lastLatest)
        else s.(r := r.(pc := RDesc, before := m.seqlock, desc := [], pix := [], number := m.last))
      case RDesc =>
        if |r.desc| < DESC_WORDS then s.(r := r.(desc := r.desc + [m.desc[|r.desc|]]))
        else if |r.desc| > DESC_WORDS then s
        else if BadDesc(r.desc, s.cap) then Back(s, r.word).(rejected := s.rejected + [Refused(r.word, r.number, m.seqlock != r.before)])
        else s.(r := r.(pc := RPix))
      case RPix =>
        if |r.desc| == DESC_WORDS && |r.pix| < Area(r.desc) && |r.pix| < |m.pix|
        then s.(r := r.(pix := r.pix + [m.pix[|r.pix|]]))
        else s.(r := r.(pc := RAfter))
      case RAfter =>
        if m.seqlock != r.before then Back(s, r.lastLatest)
        else Back(s, r.word).(taken := s.taken + [Taken(r.word, r.number, r.desc, r.pix)])
  }

  function Step(s: Ring, a: Action): Ring
    requires Enabled(s, a) && s.w.slot < |s.slots|
  {
    match a
    case Begin(slot, frame) =>
      var cur := s.slots[slot].seqlock;
      s.(w := Writer(WOdd, slot, if cur % 2 == 0 then cur + 1 else cur,
                     frame.(desc := frame.desc[FRAME_SEQ := |s.published| + 1])))
    case Stamp(i, v) =>
      // The probe strip is written over pixels already copied.
      var m := s.slots[s.w.slot];
      if i < |m.pix| then
        WithSlot(s, s.w.slot, m.(pix := m.pix[i := v])).(w := s.w.(frame := s.w.frame.(pix := s.w.frame.pix[i := v])))
      else s
    case WriterStep => Wrote(s)
    case ReaderStep => Read(s)
  }

  function Fresh(slots: nat, cap: nat): Ring {
    var zero: Desc := seq(DESC_WORDS, i => 0);
    Ring(seq(slots, i => Slot(0, zero, seq(cap, j => 0), -1)), cap, 0, 0,
         Writer(WIdle, 0, 0, Frame(zero, [])), Reader(RIdle, 0, 0, 0, [], [], -1), [], [], [])
  }

  // ---------------------------------------------------------- invariant ----

  predicate Inside(w: Writer, i: nat) {
    w.slot == i && (w.pc.WPix? || w.pc.WDesc? || w.pc.WEven?)
  }

  predicate Shows(m: Slot, f: Frame) {
    |f.pix| <= |m.pix| && m.desc == f.desc && m.pix[..|f.pix|] == f.pix
  }

  predicate SlotSound(s: Ring, i: nat)
    requires i < |s.slots|
  {
    var m := s.slots[i];
    && |m.pix| == s.cap && -1 <= m.last < |s.published|
    && (Inside(s.w, i) ==> m.seqlock == s.w.lock)
    && (!Inside(s.w, i) ==> m.seqlock % 2 == 0 && (m.last >= 0 ==> Shows(m, s.published[m.last])))
  }

  predicate FrameSound(s: Ring, k: nat)
    requires k < |s.published|
  {
    var f := s.published[k];
    && f.desc[FRAME_SEQ] == k + 1 && |f.pix| == Area(f.desc)
  }

  predicate WriterSound(s: Ring) {
    var w := s.w;
    && w.slot < |s.slots|
    && (w.pc != WIdle && w.pc != WLatest ==>
          && w.lock % 2 == 1 && |w.frame.pix| == Area(w.frame.desc) <= s.cap
          && w.frame.desc[FRAME_SEQ] == |s.published| + 1)
    && (w.pc == WOdd ==> s.slots[w.slot].seqlock + 1 == w.lock)
    && (w.pc.WPix? ==> w.pc.i <= |w.frame.pix| && Prefix(s.slots[w.slot].pix, w.frame.pix, w.pc.i))
    && (w.pc.WDesc? || w.pc.WEven? ==> Prefix(s.slots[w.slot].pix, w.frame.pix, |w.frame.pix|))
    && (w.pc.WDesc? ==> w.pc.i <= DESC_WORDS && Prefix(s.slots[w.slot].desc, w.frame.desc, w.pc.i))
    && (w.pc.WEven? ==> s.slots[w.slot].desc == w.frame.desc)
    && (w.pc == WLatest ==> s.published != [] && s.slots[w.slot].last == |s.published| - 1)
  }

  predicate Prefix(a: seq<Word>, b: seq<Word>, n: nat) {
    n <= |a| && n <= |b| && forall j :: 0 <= j < n ==> a[j] == b[j]
  }

  /** The slot a `latest` word names holds that publish or a newer one. */
  predicate WordSound(s: Ring, word: nat) {
    word != 0 && SlotOf(word) < |s.slots| && 1 <= NumberOf(word) <= s.slots[SlotOf(word)].last + 1
  }

  predicate ReaderSound(s: Ring) {
    var r := s.r;
    && (r.pc != RIdle ==> WordSound(s, r.word))
    && (r.pc == RDesc || r.pc == RPix || r.pc == RAfter ==> CopySound(s))
  }

  /** While the seqlock is unchanged the copy so far is of one frame; once changed it never returns. */
  predicate CopySound(s: Ring)
    requires SlotOf(s.r.word) < |s.slots|
  {
    var r, m := s.r, s.slots[SlotOf(s.r.word)];
    && r.before % 2 == 0 && m.seqlock >= r.before
    && |r.desc| <= DESC_WORDS && (r.pc != RDesc ==> |r.desc| == DESC_WORDS && !BadDesc(r.desc, s.cap))
    && (m.seqlock == r.before ==>
          && r.number == m.last && 0 <= m.last < |s.published|
          && Prefix(r.desc, s.published[m.last].desc, |r.desc|)
          && Prefix(r.pix, s.published[m.last].pix, |r.pix|)
          && (r.pc == RAfter ==> |r.pix| == |s.published[m.last].pix|))
  }

  /** What was taken is one publish, whole, and not older than the word that led to it. */
  predicate TakenSound(s: Ring, t: Taken) {
    && 0 <= t.number < |s.published|
    && t.desc == s.published[t.number].desc && t.pix == s.published[t.number].pix
    && t.number + 1 >= NumberOf(t.word) && !BadDesc(s.published[t.number].desc, s.cap)
  }

  /** What was turned away was overwritten under the reader, or is a whole publish that is really
      malformed, and not older than the word that led to it. */
  predicate RefusedSound(s: Ring, x: Refused) {
    x.torn || (0 <= x.number < |s.published| && BadDesc(s.published[x.number].desc, s.cap)
               && x.number + 1 >= NumberOf(x.word))
  }

  /** The cursor only passes a word once its frame was taken or turned away. */
  ghost predicate CursorSound(s: Ring) {
    || s.r.lastLatest == 0
    || (exists i :: 0 <= i < |s.rejected| && s.rejected[i].word == s.r.lastLatest)
    || (exists i :: 0 <= i < |s.taken| && s.taken[i].word == s.r.lastLatest)
  }

  /** The claim names the slot the reader is in, from its first look at it until it lets go. */
  predicate ClaimSound(s: Ring) {
    s.claim == if s.r.pc == RIdle || s.r.pc == RClaim then 0 else SlotOf(s.r.word) + 1
  }

  ghost predicate Inv(s: Ring) {
    && |s.slots| <= 256
    && ClaimSound(s)
    && (forall i: nat :: i < |s.slots| ==> SlotSound(s, i))
    && (forall k: nat :: k < |s.published| ==> FrameSound(s, k))
    && WriterSound(s)
    && (s.latest != 0 ==> WordSound(s, s.latest))
    && (s.latest == 0 ==> s.r.pc == RIdle && s.r.lastLatest == 0)
    && ReaderSound(s)
    && (forall i :: 0 <= i < |s.taken| ==> TakenSound(s, s.taken[i]))
    && (forall i :: 0 <= i < |s.rejected| ==> RefusedSound(s, s.rejected[i]))
    && CursorSound(s)
  }

  lemma FreshInv(slots: nat, cap: nat)
    requires 1 <= slots <= 256
    ensures Inv(Fresh(slots, cap))
  {
  }

  /** What one store to slot `k` may do to the rest: other slots, words and frames keep. */
  predicate Grows(s: Ring, n: Ring, k: nat) {
    && k < |s.slots| == |n.slots| && n.cap == s.cap
    && (forall i :: 0 <= i < |s.slots| && i != k ==> n.slots[i] == s.slots[i])
    && n.slots[k].last >= s.slots[k].last && n.slots[k].seqlock >= s.slots[k].seqlock
    && s.published <= n.published
    && n.r == s.r && n.taken == s.taken && n.rejected == s.rejected
  }

  /** A store the seqlock guards: if the seqlock kept its even value nothing in the slot changed. */
  predicate Guarded(s: Ring, n: Ring, k: nat)
    requires k < |s.slots| == |n.slots|
  {
    n.slots[k].seqlock % 2 == 0 && n.slots[k].seqlock == s.slots[k].seqlock ==> n.slots[k] == s.slots[k]
  }

  lemma WordGrows(s: Ring, n: Ring, k: nat, word: nat)
    requires Grows(s, n, k) && WordSound(s, word)
    ensures WordSound(n, word)
  {
  }

  /** Any guarded store by the writer leaves the reader's side sound. */
  lemma ReaderUndisturbed(s: Ring, n: Ring, k: nat)
    requires Inv(s) && Grows(s, n, k) && Guarded(s, n, k)
    ensures ReaderSound(n) && CursorSound(n)
    ensures forall i :: 0 <= i < |n.taken| ==> TakenSound(n, n.taken[i])
    ensures forall i :: 0 <= i < |n.rejected| ==> RefusedSound(n, n.rejected[i])
  {
    hide Area, BadDesc;
    if s.r.pc != RIdle { WordGrows(s, n, k, s.r.word); }
    assert forall j :: 0 <= j < |s.published| ==> n.published[j] == s.published[j];
    forall i | 0 <= i < |n.taken| ensures TakenSound(n, n.taken[i]) { assert TakenSound(s, s.taken[i]); }
    forall i | 0 <= i < |n.rejected| ensures RefusedSound(n, n.rejected[i]) { assert RefusedSound(s, s.rejected[i]); }
  }

  lemma FramesKept(s: Ring, n: Ring)
    requires (forall k: nat :: k < |s.published| ==> FrameSound(s, k)) && n.published == s.published
    ensures forall k: nat :: k < |n.published| ==> FrameSound(n, k)
  {
    forall k: nat | k < |n.published| ensures FrameSound(n, k) { assert FrameSound(s, k); }
  }

  lemma SlotsKept(s: Ring, n: Ring, k: nat)
    requires Inv(s) && Grows(s, n, k) && n.w.slot == k
    requires s.w.slot == k || s.w.pc == WIdle
    requires SlotSound(n, k)
    ensures forall i: nat :: i < |n.slots| ==> SlotSound(n, i)
  {
    hide Area;
    forall i: nat | i < |n.slots| ensures SlotSound(n, i) {
      assert SlotSound(s, i);
      assert forall j :: 0 <= j < |s.published| ==> n.published[j] == s.published[j];
    }
  }

  lemma BeginInv(s: Ring, slot: nat, frame: Frame)
    requires Inv(s) && Enabled(s, Begin(slot, frame))
    ensures Inv(Step(s, Begin(slot, frame)))
  {
    hide Area;
    var n := Step(s, Begin(slot, frame));
    assert SlotSound(s, slot) && SlotSound(n, slot);
    SlotsKept(s, n, slot);
    FramesKept(s, n);
    ReaderUndisturbed(s, n, slot);
    AreaIgnoresSeq(frame.desc, |s.published| + 1);
    if s.latest != 0 { WordGrows(s, n, slot, s.latest); }
  }

  lemma AreaIgnoresSeq(d: Desc, n: nat)
    ensures Area(d[FRAME_SEQ := n]) == Area(d)
  {
  }

  lemma StampInv(s: Ring, i: nat, v: Word)
    requires Inv(s) && Enabled(s, Stamp(i, v))
    ensures Inv(Step(s, Stamp(i, v)))
  {
    hide Area;
    var n, k := Step(s, Stamp(i, v)), s.w.slot;
    assert SlotSound(s, k) && SlotSound(n, k);
    SlotsKept(s, n, k);
    FramesKept(s, n);
    ReaderUndisturbed(s, n, k);
    if s.latest != 0 { WordGrows(s, n, k, s.latest); }
  }

  lemma WriteInv(s: Ring)
    requires Inv(s) && s.w.pc != WIdle && s.w.pc != WEven && s.w.pc != WLatest
    ensures Inv(Wrote(s))
  {
    hide Area, BadDesc, SlotOf, NumberOf, TakenSound, RefusedSound, CursorSound, CopySound, ReaderSound, WordSound;
    var n, k := Wrote(s), s.w.slot;
    assert SlotSound(s, k) && SlotSound(n, k);
    SlotsKept(s, n, k);
    FramesKept(s, n);
    ReaderUndisturbed(s, n, k);
    if s.latest != 0 { WordGrows(s, n, k, s.latest); }
  }

  lemma EvenInv(s: Ring)
    requires Inv(s) && s.w.pc == WEven
    ensures Inv(Wrote(s))
  {
    hide Area;
    var n, k := Wrote(s), s.w.slot;
    assert SlotSound(s, k);
    assert n.published[|s.published|] == s.w.frame;
    assert n.slots[k].pix[..|s.w.frame.pix|] == s.w.frame.pix;
    assert SlotSound(n, k);
    SlotsKept(s, n, k);
    forall j: nat | j < |n.published| ensures FrameSound(n, j) {
      if j < |s.published| { assert FrameSound(s, j); }
    }
    ReaderUndisturbed(s, n, k);
    if s.latest != 0 { WordGrows(s, n, k, s.latest); }
  }

  lemma LatestInv(s: Ring)
    requires Inv(s) && s.w.pc == WLatest
    ensures Inv(Wrote(s))
  {
    hide Area;
    var n, k := Wrote(s), s.w.slot;
    LatestRoundTrip(|s.published|, k);
    assert SlotSound(s, k) && SlotSound(n, k);
    SlotsKept(s, n, k);
    FramesKept(s, n);
    ReaderUndisturbed(s, n, k);
  }

  /** The reader only reads the slots: everything but its own state stays as it was. */
  lemma WriterUndisturbed(s: Ring, n: Ring)
    requires Inv(s)
    requires n.slots == s.slots && n.cap == s.cap && n.latest == s.latest && n.w == s.w && n.published == s.published
    ensures |n.slots| <= 256 && WriterSound(n) && (n.latest != 0 ==> WordSound(n, n.latest))
    ensures forall i: nat :: i < |n.slots| ==> SlotSound(n, i)
    ensures forall k: nat :: k < |n.published| ==> FrameSound(n, k)
    ensures forall i :: 0 <= i < |s.taken| ==> TakenSound(n, s.taken[i])
    ensures forall i :: 0 <= i < |s.rejected| ==> RefusedSound(n, s.rejected[i])
  {
    hide Area;
    forall i: nat | i < |n.slots| ensures SlotSound(n, i) { assert SlotSound(s, i); }
    forall i | 0 <= i < |s.taken| ensures TakenSound(n, s.taken[i]) { assert TakenSound(s, s.taken[i]); }
    forall i | 0 <= i < |s.rejected| ensures RefusedSound(n, s.rejected[i]) { assert RefusedSound(s, s.rejected[i]); }
    FramesKept(s, n);
  }

  lemma CursorKept(s: Ring, n: Ring)
    requires CursorSound(s) && n.r.lastLatest == s.r.lastLatest
    requires s.rejected <= n.rejected && s.taken <= n.taken
    ensures CursorSound(n)
  {
    if i :| 0 <= i < |s.taken| && s.taken[i].word == s.r.lastLatest {
      assert n.taken[i].word == n.r.lastLatest;
    }
    if i :| 0 <= i < |s.rejected| && s.rejected[i].word == s.r.lastLatest {
      assert n.rejected[i].word == n.r.lastLatest;
    }
  }

  lemma PrefixAll(a: seq<Word>, b: seq<Word>)
    requires |a| == |b| && Prefix(a, b, |a|)
    ensures a == b
  {
  }

  /** What the reader's slot shows while the seqlock is the one it started from. */
  lemma SlotUnderReader(s: Ring)
    requires Inv(s) && s.r.pc != RIdle
    ensures SlotOf(s.r.word) < |s.slots|
    ensures var m := s.slots[SlotOf(s.r.word)];
      && |m.pix| == s.cap && 0 <= m.last < |s.published|
      && NumberOf(s.r.word) <= m.last + 1
      && |s.published[m.last].pix| == Area(s.published[m.last].desc)
      && (m.seqlock % 2 == 0 ==> Shows(m, s.published[m.last]))
  {
    hide Area;
    assert SlotSound(s, SlotOf(s.r.word));
    assert FrameSound(s, s.slots[SlotOf(s.r.word)].last);
  }

  lemma LookInv(s: Ring)
    requires Inv(s) && (s.r.pc == RIdle || s.r.pc == RClaim || s.r.pc == RBefore)
    ensures Inv(Read(s))
  {
    hide Area, BadDesc, SlotOf, NumberOf, SlotSound, FrameSound, WriterSound, TakenSound;
    var n := Read(s);
    if s.r.pc != RIdle { SlotUnderReader(s); }
    WriterUndisturbed(s, n);
    if n.r.lastLatest == s.r.lastLatest { CursorKept(s, n); }
  }

  lemma DescInv(s: Ring)
    requires Inv(s) && s.r.pc == RDesc
    ensures Inv(Read(s))
  {
    hide Area, BadDesc, SlotOf, NumberOf, SlotSound, FrameSound, WriterSound, TakenSound;
    var n := Read(s);
    SlotUnderReader(s);
    WriterUndisturbed(s, n);
    if n.r.lastLatest == s.r.lastLatest { CursorKept(s, n); }
    var m := s.slots[SlotOf(s.r.word)];
    if |s.r.desc| == DESC_WORDS && BadDesc(s.r.desc, s.cap) {
      if m.seqlock == s.r.before { PrefixAll(s.r.desc, s.published[m.last].desc); }
      assert n.rejected[|s.rejected|].word == n.r.lastLatest;
    }
  }

  lemma PixInv(s: Ring)
    requires Inv(s) && s.r.pc == RPix
    ensures Inv(Read(s))
  {
    hide Area, BadDesc, SlotOf, NumberOf, SlotSound, FrameSound, WriterSound, TakenSound, RefusedSound;
    var n := Read(s);
    SlotUnderReader(s);
    WriterUndisturbed(s, n);
    CursorKept(s, n);
    var m := s.slots[SlotOf(s.r.word)];
    if m.seqlock == s.r.before {
      PrefixAll(s.r.desc, s.published[m.last].desc);
      assert m.pix[..|s.published[m.last].pix|] == s.published[m.last].pix;
    }
  }

  lemma AcceptInv(s: Ring)
    requires Inv(s) && s.r.pc == RAfter
    ensures Inv(Read(s))
  {
    hide Area, BadDesc, SlotOf, NumberOf, SlotSound, FrameSound, WriterSound;
    var n := Read(s);
    SlotUnderReader(s);
    WriterUndisturbed(s, n);
    var m := s.slots[SlotOf(s.r.word)];
    if m.seqlock == s.r.before {
      PrefixAll(s.r.desc, s.published[m.last].desc);
      PrefixAll(s.r.pix, s.published[m.last].pix);
      assert n.taken[|s.taken|].word == n.r.lastLatest;
    } else {
      CursorKept(s, n);
    }
  }

  lemma StepInv(s: Ring, a: Action)
    requires Inv(s) && Enabled(s, a)
    ensures s.w.slot < |s.slots| && Inv(Step(s, a))
  {
    hide Inv, Wrote, Read;
    InvSlot(s);
    match a {
      case Begin(slot, frame) => BeginInv(s, slot, frame);
      case Stamp(i, v) => StampInv(s, i, v);
      case WriterStep =>
        if s.w.pc == WEven { EvenInv(s); } else if s.w.pc == WLatest { LatestInv(s); } else { WriteInv(s); }
      case ReaderStep =>
        if s.r.pc == RAfter { AcceptInv(s); }
        else if s.r.pc == RDesc { DescInv(s); }
        else if s.r.pc == RPix { PixInv(s); }
        else { LookInv(s); }
    }
  }

  lemma InvSlot(s: Ring)
    requires Inv(s)
    ensures s.w.slot < |s.slots|
  {
  }

  // --------------------------------------------------------------- runs ----

  ghost predicate Legal(s: Ring, acts: seq<Action>)
    decreases acts, 0
  {
    acts != [] ==>
      && Legal(s, acts[..|acts| - 1])
      && var q := Run(s, acts[..|acts| - 1]);
         Enabled(q, acts[|acts| - 1]) && q.w.slot < |q.slots|
  }

  ghost function Run(s: Ring, acts: seq<Action>): Ring
    requires Legal(s, acts)
    decreases acts, 1
  {
    if acts == [] then s else Step(Run(s, acts[..|acts| - 1]), acts[|acts| - 1])
  }

  lemma {:induction false} RunInv(s: Ring, acts: seq<Action>)
    requires Inv(s) && Legal(s, acts)
    ensures Inv(Run(s, acts))
  {
    hide Inv, Step, Enabled;
    if acts != [] {
      RunInv(s, acts[..|acts| - 1]);
      StepInv(Run(s, acts[..|acts| - 1]), acts[|acts| - 1]);
    }
  }

  /** For every interleaving of writer and reader and every choice of slots: a frame handed to
      the encoder has the descriptor and the pixels of one single publish, and is never older
      than the `latest` word that led to it. */
  lemma NoTornFrame(slots: nat, cap: nat, acts: seq<Action>, i: nat)
    requires 1 <= slots <= 256 && Legal(Fresh(slots, cap), acts)
    requires i < |Run(Fresh(slots, cap), acts).taken|
    ensures var s := Run(Fresh(slots, cap), acts);
      var t := s.taken[i];
      && (exists k :: 0 <= k < |s.published| && t.desc == s.published[k].desc && t.pix == s.published[k].pix)
      && |t.desc| == 12 && t.desc[9] >= NumberOf(t.word)
  {
    hide Step, Enabled, Area, BadDesc;
    FreshInv(slots, cap);
    RunInv(Fresh(slots, cap), acts);
    var s := Run(Fresh(slots, cap), acts);
    var t := s.taken[i];
    assert TakenSound(s, t);
    assert FrameSound(s, t.number);
  }

  /** What the encoder can use: 32-bit float RGBA, even sides of at least 16, and rows that fit. */
  predicate Usable(d: seq<Word>, cap: nat) {
    && |d| == 12 && d[0] >= 16 && d[1] >= 16 && d[0] % 2 == 0 && d[1] % 2 == 0 && d[3] == 4
    && d[1] * d[2] <= cap
  }

  lemma UsableIsNotBad(d: Desc, cap: nat)
    ensures Usable(d, cap) <==> !BadDesc(d, cap)
  {
  }

  lemma {:induction false} RunCap(s: Ring, acts: seq<Action>)
    requires Legal(s, acts)
    ensures Run(s, acts).cap == s.cap
  {
    hide Area, BadDesc;
    if acts != [] { RunCap(s, acts[..|acts| - 1]); }
  }

  /** Only frames the encoder can use are handed to it, with all their pixels; and a whole publish
      is turned away only if it is not one of those. */
  lemma OnlyUsableFrames(slots: nat, cap: nat, acts: seq<Action>, i: nat)
    requires 1 <= slots <= 256 && Legal(Fresh(slots, cap), acts)
    ensures var s := Run(Fresh(slots, cap), acts);
      && (i < |s.taken| ==>
            Usable(s.taken[i].desc, cap) && |s.taken[i].pix| == s.taken[i].desc[1] * s.taken[i].desc[2])
      && (i < |s.rejected| && !s.rejected[i].torn ==>
            var k := s.rejected[i].number;
            0 <= k < |s.published| && !Usable(s.published[k].desc, cap) && k + 1 >= NumberOf(s.rejected[i].word))
  {
    hide Step, Enabled, Run, Legal, NumberOf, BadDesc, Usable;
    FreshInv(slots, cap);
    RunInv(Fresh(slots, cap), acts);
    RunCap(Fresh(slots, cap), acts);
    var s := Run(Fresh(slots, cap), acts);
    if i < |s.taken| {
      assert TakenSound(s, s.taken[i]);
      assert FrameSound(s, s.taken[i].number);
      UsableIsNotBad(s.published[s.taken[i].number].desc, cap);
    }
    if i < |s.rejected| && !s.rejected[i].torn {
      assert RefusedSound(s, s.rejected[i]);
      UsableIsNotBad(s.published[s.rejected[i].number].desc, cap);
    }
  }

  /** The newest frame is not lost to a retry: whenever the reader has caught up with `latest`,
      that word's frame, or a newer one from its slot, was taken, or turned away because it really
      is malformed, or overwritten while it was read. */
  lemma NewestFrameHandled(slots: nat, cap: nat, acts: seq<Action>)
    requires 1 <= slots <= 256 && Legal(Fresh(slots, cap), acts)
    ensures var s := Run(Fresh(slots, cap), acts);
      s.latest != 0 && s.r.lastLatest == s.latest ==>
        || (exists i :: 0 <= i < |s.rejected| && s.rejected[i].word == s.latest && RefusedSound(s, s.rejected[i]))
        || (exists i :: 0 <= i < |s.taken| && s.taken[i].word == s.latest && s.taken[i].number + 1 >= NumberOf(s.latest))
  {
    hide Step, Enabled, Area, BadDesc;
    FreshInv(slots, cap);
    RunInv(Fresh(slots, cap), acts);
    var s := Run(Fresh(slots, cap), acts);
    if s.latest != 0 && s.r.lastLatest == s.latest {
      if i :| 0 <= i < |s.rejected| && s.rejected[i].word == s.r.lastLatest {
        assert RefusedSound(s, s.rejected[i]);
      } else {
        var i :| 0 <= i < |s.taken| && s.taken[i].word == s.r.lastLatest;
        assert TakenSound(s, s.taken[i]);
      }
    }
  }

  // ------------------------------------------------------- slot choice ----

  /** `next_slot`: the slot after the last one, stepping over the one the reader holds. */
  function NextSlot(lastSlot: int, claim: nat, count: nat): nat
    requires count > 0 && -1 <= lastSlot < count
  {
    var slot := (lastSlot + 1) % count;
    if claim > 0 && slot == claim - 1 then (slot + 1) % count else slot
  }

  /** With at least two slots the writer never takes the claimed one; with three, nor the one
      it published last. It skips none but the claimed one. */
  lemma NextSlotSteersClear(lastSlot: int, claim: nat, count: nat)
    requires count >= 2 && -1 <= lastSlot < count
    ensures var slot := NextSlot(lastSlot, claim, count);
      && slot < count && (claim > 0 ==> slot != claim - 1) && (count >= 3 ==> slot != lastSlot)
      && ((lastSlot + 1) % count != claim - 1 ==> slot == (lastSlot + 1) % count)
      && ((lastSlot + 1) % count == claim - 1 ==> slot == (lastSlot + 2) % count)
  {
    WrapOnce(lastSlot + 1, count);
    WrapOnce((lastSlot + 1) % count + 1, count);
    if lastSlot + 2 > count { assert lastSlot + 2 == count + 1; }
    else { WrapOnce(lastSlot + 2, count); }
  }

  lemma WrapOnce(x: nat, count: nat)
    requires 0 < count && x <= count
    ensures x % count == if x == count then 0 else x
  {
  }

  /** Every publish begins in the slot `next_slot` gives for the claim it finds. */
  ghost predicate Steered(s: Ring, acts: seq<Action>)
    requires Legal(s, acts)
  {
    acts != [] ==> Steered(s, acts[..|acts| - 1]) && Steers(Run(s, acts[..|acts| - 1]), acts[|acts| - 1])
  }

  ghost predicate Steers(s: Ring, a: Action) {
    a.Begin? ==> |s.slots| > 0 && exists last :: -1 <= last < |s.slots| && a.slot == NextSlot(last, s.claim, |s.slots|)
  }

  /** The reader has looked at its slot and not let go of it. */
  predicate Holds(s: Ring, k: nat) {
    s.r.pc != RIdle && s.r.pc != RClaim && k == SlotOf(s.r.word)
  }

  /** No publish begins in the slot under the reader. */
  lemma NoBeginUnderReader(s: Ring, a: Action)
    requires Inv(s) && |s.slots| >= 2 && Steers(s, a) && a.Begin?
    ensures !Holds(s, a.slot)
  {
    hide NextSlot;
    var last :| -1 <= last < |s.slots| && a.slot == NextSlot(last, s.claim, |s.slots|);
    NextSlotSteersClear(last, s.claim, |s.slots|);
    ClaimIs(s);
  }

  lemma ClaimIs(s: Ring)
    requires Inv(s)
    ensures ClaimSound(s)
  {
  }

  /** The writer is in the slot, or about to be: it has looked at the claim and not published yet. */
  predicate Entering(w: Writer, k: nat) {
    w.slot == k && w.pc != WIdle && w.pc != WLatest
  }

  /** A pass under way that nothing disturbs: the seqlock is the one it began with, and no writer is
      in its slot. */
  predicate Undisturbed(s: Ring) {
    && (s.r.pc == RDesc || s.r.pc == RPix || s.r.pc == RAfter)
    && SlotOf(s.r.word) < |s.slots| && s.slots[SlotOf(s.r.word)].seqlock == s.r.before
    && !Entering(s.w, SlotOf(s.r.word))
  }

  /** How a pass ends well: the frame is handed over, or turned away for what it is. */
  predicate EndsWell(s: Ring, n: Ring) {
    && n.r.pc == RIdle && n.r.lastLatest == s.r.word
    && ((n.rejected == s.rejected && |n.taken| == |s.taken| + 1 && n.taken[..|s.taken|] == s.taken
           && n.taken[|s.taken|].word == s.r.word)
        || (n.taken == s.taken && n.rejected == s.rejected + [Refused(s.r.word, s.r.number, false)]))
  }

  lemma StepUndisturbed(s: Ring, a: Action)
    requires Inv(s) && Enabled(s, a) && |s.slots| >= 2 && Steers(s, a) && Undisturbed(s)
    ensures s.w.slot < |s.slots|
    ensures var n := Step(s, a);
      && |n.slots| == |s.slots|
      && (if n.r.pc == RIdle then EndsWell(s, n)
          else Undisturbed(n) && n.r.word == s.r.word && n.r.number == s.r.number
               && n.taken == s.taken && n.rejected == s.rejected)
  {
    hide Inv, Area, BadDesc, SlotOf;
    InvSlot(s);
    ReaderCopy(s);
    if a.Begin? { NoBeginUnderReader(s, a); }
  }

  /** From the look at an even seqlock on, with no writer in the slot, to the end of the pass: whatever
      the writer does meanwhile, it ends well. */
  lemma {:induction false} PassEndsWell(s: Ring, acts: seq<Action>)
    requires Inv(s) && |s.slots| >= 2 && Undisturbed(s) && Legal(s, acts) && Steered(s, acts)
    requires forall i :: 0 <= i < |acts| ==> Legal(s, acts[..i]) && Run(s, acts[..i]).r.pc != RIdle
    ensures var n := Run(s, acts);
      && |n.slots| == |s.slots|
      && (if n.r.pc == RIdle then EndsWell(s, n)
          else Undisturbed(n) && n.r.word == s.r.word && n.r.number == s.r.number
               && n.taken == s.taken && n.rejected == s.rejected)
  {
    hide Inv, Step, Enabled, Undisturbed, Steers;
    if acts == [] {
      UnderWay(s);
    } else {
      var front := acts[..|acts| - 1];
      assert forall i :: 0 <= i < |front| ==> front[..i] == acts[..i];
      assert Run(s, acts[..|front|]).r.pc != RIdle;
      PassEndsWell(s, front);
      RunInv(s, front);
      StepUndisturbed(Run(s, front), acts[|front|]);
    }
  }

  lemma UnderWay(s: Ring)
    requires Undisturbed(s)
    ensures s.r.pc != RIdle
  {
  }

  /** That look: the claim stands, the seqlock is even, the writer is elsewhere. */
  lemma LooksUndisturbed(s: Ring)
    requires Inv(s) && s.r.pc == RBefore && !Entering(s.w, SlotOf(s.r.word))
    ensures Undisturbed(Read(s)) && Read(s).claim == SlotOf(s.r.word) + 1
  {
    ReaderCopy(s);
    assert SlotSound(s, SlotOf(s.r.word));
  }

  // ------------------------------------------------ one side at a time ----

  /** How many steps the writer still takes in this publish. */
  function WriterLeft(w: Writer): nat {
    match w.pc
    case WIdle => 0
    case WLatest => 1
    case WEven => 2
    case WDesc(i) => 3 + if i < DESC_WORDS then DESC_WORDS - i else 0
    case WPix(i) => 4 + DESC_WORDS + if i < |w.frame.pix| then |w.frame.pix| - i else 0
    case WOdd => 5 + DESC_WORDS + |w.frame.pix|
  }

  lemma WriterAdvances(s: Ring)
    requires Inv(s) && s.w.pc != WIdle
    ensures var n := Wrote(s);
      && WriterLeft(n.w) < WriterLeft(s.w)
      && n.r == s.r && n.w.slot == s.w.slot && n.w.frame == s.w.frame && |n.slots| == |s.slots|
      && n.published == (if s.w.pc == WEven then s.published + [s.w.frame] else s.published)
      && (s.w.pc == WEven <==> n.w.pc == WLatest)
      && (n.w.pc == WIdle <==> s.w.pc == WLatest)
      && (n.w.pc == WIdle ==> n.latest == PackLatest(|n.published|, n.w.slot))
  {
    hide Area;
    assert SlotSound(s, s.w.slot);
  }

  /** `publish` run through: the frame becomes the newest publish, whole in its slot, and
      `latest` names it. */
  method Publish(s: Ring, slot: nat, frame: Frame) returns (n: Ring)
    requires Inv(s) && Enabled(s, Begin(slot, frame))
    ensures Inv(n) && n.w.pc == WIdle && n.r == s.r && |n.slots| == |s.slots|
    ensures n.published == s.published + [frame.(desc := frame.desc[FRAME_SEQ := |s.published| + 1])]
    ensures n.latest == PackLatest(|n.published|, slot)
    ensures n.slots[slot].last == |n.published| - 1 && Shows(n.slots[slot], n.published[|n.published| - 1])
  {
    hide Inv, Wrote, Area, WriterLeft;
    InvSlot(s);
    BeginInv(s, slot, frame);
    n := Step(s, Begin(slot, frame));
    ghost var f := n.w.frame;
    while n.w.pc != WIdle
      invariant Inv(n) && n.w.slot == slot && n.w.frame == f && n.r == s.r && |n.slots| == |s.slots|
      invariant n.published == if n.w.pc == WLatest || n.w.pc == WIdle then s.published + [f] else s.published
      invariant n.w.pc == WIdle ==> n.latest == PackLatest(|n.published|, slot) && n.slots[slot].last == |n.published| - 1
      decreases WriterLeft(n.w)
    {
      StepInv(n, WriterStep);
      WriterAdvances(n);
      LastSlot(n);
      n := Wrote(n);
    }
    LastShown(n, slot);
  }

  lemma LastSlot(s: Ring)
    requires Inv(s)
    ensures s.w.slot < |s.slots|
    ensures s.w.pc == WLatest ==> Wrote(s).slots == s.slots && s.slots[s.w.slot].last == |s.published| - 1
  {
  }

  lemma LastShown(s: Ring, slot: nat)
    requires Inv(s) && s.w.pc == WIdle && slot < |s.slots| && s.slots[slot].last >= 0
    ensures s.slots[slot].last < |s.published| && Shows(s.slots[slot], s.published[s.slots[slot].last])
  {
    assert SlotSound(s, slot);
  }

  function ReaderLeft(s: Ring): nat {
    var area := if |s.r.desc| == DESC_WORDS then Area(s.r.desc) else 0;
    match s.r.pc
    case RIdle => 0
    case RAfter => 1
    case RPix => 2 + if |s.r.pix| < area then area - |s.r.pix| else 0
    case RDesc => s.cap + 4 + if |s.r.desc| < DESC_WORDS then DESC_WORDS - |s.r.desc| else 0
    case RBefore => s.cap + 5 + DESC_WORDS
    case RClaim => s.cap + 6 + DESC_WORDS
  }

  /** With the writer idle and a good frame, each step of the reader goes forward. */
  lemma ReaderAdvances(s: Ring, k: nat)
    requires Inv(s) && s.w.pc == WIdle && s.r.pc != RIdle
    requires k < |s.published| && !BadDesc(s.published[k].desc, s.cap)
    requires s.slots[SlotOf(s.r.word)].last == k
    requires s.r.pc != RClaim && s.r.pc != RBefore ==> s.r.before == s.slots[SlotOf(s.r.word)].seqlock
    ensures var n := Read(s);
      && n.slots == s.slots && n.w == s.w && n.published == s.published && n.cap == s.cap && n.latest == s.latest
      && ReaderLeft(n) < ReaderLeft(s)
      && (n.r.pc != RIdle ==>
            && n.r.word == s.r.word && n.taken == s.taken
            && (n.r.pc != RBefore ==> n.r.before == n.slots[SlotOf(n.r.word)].seqlock))
      && (n.r.pc == RIdle ==>
            && n.taken == s.taken + [Taken(s.r.word, k, s.published[k].desc, s.published[k].pix)]
            && n.r.lastLatest == s.r.word)
  {
    hide Inv, Area, BadDesc, SlotOf, NumberOf;
    SlotUnderReader(s);
    ReaderCopy(s);
    SlotEven(s, SlotOf(s.r.word));
    var f := s.published[k];
    FitsCap(f.desc, s.cap);
    if s.r.pc == RDesc || s.r.pc == RPix || s.r.pc == RAfter {
      if |s.r.desc| == DESC_WORDS { PrefixAll(s.r.desc, f.desc); }
      if s.r.pc == RAfter { PrefixAll(s.r.pix, f.pix); }
    }
  }

  lemma ReaderCopy(s: Ring)
    requires Inv(s) && s.r.pc != RIdle
    ensures SlotOf(s.r.word) < |s.slots|
    ensures s.r.pc == RDesc || s.r.pc == RPix || s.r.pc == RAfter ==> CopySound(s)
  {
  }

  lemma SlotEven(s: Ring, i: nat)
    requires Inv(s) && s.w.pc == WIdle && i < |s.slots|
    ensures s.slots[i].seqlock % 2 == 0
  {
    assert SlotSound(s, i);
  }

  lemma FitsCap(d: Desc, cap: nat)
    requires !BadDesc(d, cap)
    ensures Area(d) <= cap
  {
  }

  /** One pass of the reader loop with the writer idle hands over exactly the newest frame of
      the slot `latest` names, and the cursor passes that word. */
  method Follow(s: Ring) returns (n: Ring)
    requires Inv(s) && s.w.pc == WIdle && s.r.pc == RIdle && s.latest != 0 && s.latest != s.r.lastLatest
    requires SlotOf(s.latest) < |s.slots| && 0 <= s.slots[SlotOf(s.latest)].last < |s.published|
    requires Usable(s.published[s.slots[SlotOf(s.latest)].last].desc, s.cap)
    ensures Inv(n) && n.published == s.published && n.latest == s.latest
    ensures var k := s.slots[SlotOf(s.latest)].last;
      n.taken == s.taken + [Taken(s.latest, k, s.published[k].desc, s.published[k].pix)]
    ensures n.r.pc == RIdle && n.r.lastLatest == s.latest
  {
    hide Inv, Read, ReaderLeft, SlotOf, BadDesc;
    ghost var k := s.slots[SlotOf(s.latest)].last;
    UsableIsNotBad(s.published[k].desc, s.cap);
    StepInv(s, ReaderStep);
    FirstLook(s);
    n := Read(s);
    while n.r.pc != RIdle
      invariant Inv(n) && n.slots == s.slots && n.w == s.w && n.published == s.published && n.cap == s.cap
      invariant n.latest == s.latest
      invariant n.r.pc != RIdle ==> n.r.word == s.latest && n.taken == s.taken
      invariant n.r.pc != RIdle && n.r.pc != RClaim && n.r.pc != RBefore ==> n.r.before == n.slots[SlotOf(n.r.word)].seqlock
      invariant n.r.pc == RIdle ==> n.taken == s.taken + [Taken(s.latest, k, s.published[k].desc, s.published[k].pix)]
      invariant n.r.pc == RIdle ==> n.r.lastLatest == s.latest
      decreases ReaderLeft(n)
    {
      StepInv(n, ReaderStep);
      ReaderAdvances(n, k);
      n := Read(n);
    }
  }

  lemma FirstLook(s: Ring)
    requires s.r.pc == RIdle && s.latest != s.r.lastLatest && SlotOf(s.latest) < |s.slots|
    ensures Read(s) == s.(r := s.r.(pc := RClaim, word := s.latest))
  {
  }
}
