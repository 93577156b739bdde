/**
 * How far the host's loops get (qcbridge/ring0/host_handlers.py: the bootstrap and library loops of
 * _flush_tick_inner, _drain_t2_outbox): a queue empties up to the first refusal, and all of it
 * when there is none.
 */
module HostDrains {
  import opened Wire
  import opened Wrappers
  import opened Reassembly
  import opened Outbox
  import opened HostSend
  import opened HostLanes

  // ------------------------------------------------ up to a refusal ----

  /** Of `most` sends, `n` are accepted and, if that is not all, the next is refused or unanswered. */
  predicate Goes(verdicts: seq<bool>, most: nat, n: nat) {
    && n <= most && n <= |verdicts| && (forall i :: 0 <= i < n ==> verdicts[i])
    && (n < most ==> n == |verdicts| || !verdicts[n])
  }

  /** The transport accepts each of the next `n` sends. */
  predicate AcceptsAll(verdicts: seq<bool>, n: nat) {
    n <= |verdicts| && forall i :: 0 <= i < n ==> verdicts[i]
  }

  /** The answers still to come, once `n` were accepted and, unless all went, one more was asked for. */
  function Unheard(verdicts: seq<bool>, n: nat, all: bool): seq<bool>
    requires n <= |verdicts|
  {
    if all || n == |verdicts| then verdicts[n..] else verdicts[n + 1..]
  }

  /** Chunks as the cold lane carries them, numbered on from `sn`. */
  function Stamped(ps: seq<Piece>, sn: nat): seq<ColdMsg> {
    seq(|ps|, i requires 0 <= i < |ps| => ColdMsg(sn + 1 + i, Part(ps[i])))
  }

  /** From `h` to `g` the first `n` chunks of `q` left, in order, and no send touched anything but
      what the queues and marks below say; all of them iff `ok`. */
  ghost predicate Sent(h: Host, g: Host, ok: bool, q: seq<Piece>, n: nat) {
    && Goes(h.verdicts, |q|, n) && (ok <==> n == |q|)
    && g.cold == h.cold + Stamped(q[..n], h.sn) && g.sn == h.sn + n
    && g.verdicts == Unheard(h.verdicts, n, ok)
    && g.fast == h.fast && g.snFast == h.snFast && g.made == h.made
    && g.boots == h.boots && g.libs == h.libs && g.linkLast == h.linkLast
  }

  lemma NoneSent(h: Host, g: Host, q: seq<Piece>)
    requires if q == [] then g == h else !Accepts(h) && g == Asked(h)
    ensures Sent(h, g, q == [], q, 0)
  {
    assert Stamped(q[..0], h.sn) == [] && h.cold + [] == h.cold;
  }

  lemma OneSent(h: Host, g: Host, f: Host, ok: bool, q: seq<Piece>, n: nat)
    requires q != [] && Accepts(h) && Sent(g, f, ok, q[1..], n)
    requires var m := PutCold(h, Part(q[0]));
      && g.cold == m.cold && g.sn == m.sn && g.verdicts == m.verdicts && g.fast == m.fast && g.snFast == m.snFast
      && g.made == m.made && g.boots == m.boots && g.libs == m.libs && g.linkLast == m.linkLast
    ensures Sent(h, f, ok, q, n + 1)
  {
    hide Unheard;
    GoesOne(h.verdicts, |q|, n);
    assert q[..n + 1] == [q[0]] + q[1..][..n];
    assert Stamped(q[..n + 1], h.sn) == [ColdMsg(h.sn + 1, Part(q[0]))] + Stamped(q[1..][..n], h.sn + 1);
    UnheardOne(h.verdicts, n, ok);
  }

  lemma GoesOne(verdicts: seq<bool>, most: nat, n: nat)
    requires verdicts != [] && verdicts[0] && most > 0 && Goes(verdicts[1..], most - 1, n)
    ensures Goes(verdicts, most, n + 1)
  {
    forall i | 0 <= i < n + 1 ensures verdicts[i] { if i > 0 { assert verdicts[1..][i - 1]; } }
  }

  lemma UnheardOne(verdicts: seq<bool>, n: nat, all: bool)
    requires verdicts != [] && n <= |verdicts| - 1
    ensures Unheard(verdicts, n + 1, all) == Unheard(verdicts[1..], n, all)
  {
  }

  // ------------------------------------------------------- each loop ----

  ghost predicate BootDrained(h: Host, g: Host, ok: bool) {
    var n := |h.boot| - |g.boot|;
    && n >= 0 && g.boot == h.boot[n..] && Sent(h, g, ok, h.boot, n)
    && g.lib == h.lib && g.t2 == h.t2 && g.shipped == h.shipped
    && (if ok && h.boot != [] then g.bootLast == g.sn && g.coldOf == map[]
        else g.bootLast == h.bootLast && g.coldOf == h.coldOf)
  }

  lemma BootStep(h: Host, f: Host, ok: bool)
    requires h.boot != [] && Accepts(h) && BootDrained(BootLeft(h), f, ok)
    ensures BootDrained(h, f, ok)
  {
    hide Sent;
    var g := BootLeft(h);
    var n := |g.boot| - |f.boot|;
    Dropped(h.boot, n);
    OneSent(h, g, f, ok, h.boot, n);
    SentOn(g, f, ok, g.boot, n);
  }

  lemma Dropped<T>(q: seq<T>, n: nat)
    requires q != [] && n < |q|
    ensures q[1..][n..] == q[n + 1..]
  {
  }

  /** The bootstrap loop: what left is the front of the queue, up to a refusal; true comes back iff
      nothing is left; and the stamp base moves exactly when the last chunk leaves. */
  lemma {:induction false} DrainBootExact(h: Host)
    ensures BootDrained(h, DrainBoot(h).0, DrainBoot(h).1)
    decreases |h.boot|
  {
    hide BootLeft, Accepts, Asked, BootDrained;
    if h.boot == [] || !Accepts(h) {
      BootStays(h);
    } else {
      BootShorter(h);
      DrainBootExact(BootLeft(h));
      BootStep(h, DrainBoot(BootLeft(h)).0, DrainBoot(BootLeft(h)).1);
    }
  }

  lemma BootShorter(h: Host)
    requires h.boot != []
    ensures |BootLeft(h).boot| < |h.boot|
  {
  }

  lemma BootStays(h: Host)
    ensures h.boot == [] ==> BootDrained(h, h, true)
    ensures h.boot != [] && !Accepts(h) ==> BootDrained(h, Asked(h), false)
  {
    hide Sent;
    if h.boot == [] { NoneSent(h, h, h.boot); } else if !Accepts(h) { NoneSent(h, Asked(h), h.boot); }
  }

  ghost predicate LibDrained(h: Host, g: Host, ok: bool) {
    var n := |h.lib| - |g.lib|;
    && n >= 0 && g.lib == h.lib[n..] && Sent(h, g, ok, h.lib, n)
    && g.boot == h.boot && g.t2 == h.t2 && g.shipped == h.shipped
    && g.bootLast == h.bootLast && g.coldOf == h.coldOf
  }

  lemma LibStep(h: Host, f: Host, ok: bool)
    requires h.lib != [] && Accepts(h) && LibDrained(LibLeft(h), f, ok)
    ensures LibDrained(h, f, ok)
  {
    hide Sent;
    var g := LibLeft(h);
    var n := |g.lib| - |f.lib|;
    Dropped(h.lib, n);
    OneSent(h, g, f, ok, h.lib, n);
  }

  /** The library loop, likewise. */
  lemma {:induction false} DrainLibExact(h: Host)
    ensures LibDrained(h, DrainLib(h).0, DrainLib(h).1)
    decreases |h.lib|
  {
    hide LibLeft, Accepts, Asked, LibDrained;
    if h.lib == [] || !Accepts(h) {
      LibStays(h);
    } else {
      LibShorter(h);
      DrainLibExact(LibLeft(h));
      LibStep(h, DrainLib(LibLeft(h)).0, DrainLib(LibLeft(h)).1);
    }
  }

  lemma LibShorter(h: Host)
    requires h.lib != []
    ensures |LibLeft(h).lib| < |h.lib|
  {
  }

  lemma LibStays(h: Host)
    ensures h.lib == [] ==> LibDrained(h, h, true)
    ensures h.lib != [] && !Accepts(h) ==> LibDrained(h, Asked(h), false)
  {
    hide Sent;
    if h.lib == [] { NoneSent(h, h, h.lib); } else if !Accepts(h) { NoneSent(h, Asked(h), h.lib); }
  }

  ghost predicate SlotDrained(h: Host, k: nat, g: Host, ok: bool)
    requires k < |h.t2|
  {
    var u, q := h.t2[k].uuid, h.t2[k].pieces;
    && (!ok ==> |g.t2| == |h.t2| && |g.t2[k].pieces| <= |q|)
    && var n := if ok then |q| else |q| - |g.t2[k].pieces|;
    && Sent(h, g, ok, q, n)
    && (if ok then g.t2 == h.t2[..k] + h.t2[k + 1..] && g.shipped == h.shipped + {u}
        else g.t2 == h.t2[k := Outgoing(u, q[n..])] && g.shipped == h.shipped)
    && g.coldOf == (if n == 0 then h.coldOf else h.coldOf[u := g.sn])
    && g.boot == h.boot && g.lib == h.lib && g.bootLast == h.bootLast
  }

  lemma SlotStep(h: Host, k: nat, f: Host, ok: bool)
    requires k < |h.t2| && h.t2[k].pieces != [] && Accepts(h) && SlotDrained(PieceLeft(h, k), k, f, ok)
    ensures SlotDrained(h, k, f, ok)
  {
    hide Sent;
    var g := PieceLeft(h, k);
    var q := h.t2[k].pieces;
    var n := if ok then |q| - 1 else |q| - 1 - |f.t2[k].pieces|;
    if !ok { Dropped(q, n); }
    OneSent(h, g, f, ok, q, n);
    SentOn(g, f, ok, q[1..], n);
    assert g.t2[..k] == h.t2[..k] && g.t2[k + 1..] == h.t2[k + 1..];
  }

  /** One datablock's loop: its slot goes, and it counts as shipped, iff all its chunks left. */
  lemma {:induction false} DrainSlotExact(h: Host, k: nat)
    requires k < |h.t2|
    ensures SlotDrained(h, k, DrainSlot(h, k).0, DrainSlot(h, k).1)
    decreases |h.t2[k].pieces|
  {
    hide PieceLeft, Accepts, Asked, SlotDrained, SlotDone;
    if h.t2[k].pieces == [] || !Accepts(h) {
      SlotStays(h, k);
    } else {
      SlotShorter(h, k);
      DrainSlotExact(PieceLeft(h, k), k);
      SlotStep(h, k, DrainSlot(PieceLeft(h, k), k).0, DrainSlot(PieceLeft(h, k), k).1);
    }
  }

  lemma SlotShorter(h: Host, k: nat)
    requires k < |h.t2| && h.t2[k].pieces != []
    ensures var g := PieceLeft(h, k); |g.t2| == |h.t2| && |g.t2[k].pieces| < |h.t2[k].pieces|
  {
  }

  lemma SlotStays(h: Host, k: nat)
    requires k < |h.t2|
    ensures h.t2[k].pieces == [] ==> SlotDrained(h, k, SlotDone(h, k), true)
    ensures h.t2[k].pieces != [] && !Accepts(h) ==> SlotDrained(h, k, Asked(h), false)
  {
    hide Sent;
    if h.t2[k].pieces == [] { SlotEmpty(h, k); } else if !Accepts(h) { NoneSent(h, Asked(h), h.t2[k].pieces); }
  }

  lemma SlotEmpty(h: Host, k: nat)
    requires k < |h.t2| && h.t2[k].pieces == []
    ensures Sent(h, SlotDone(h, k), true, [], 0)
  {
    NoneSent(h, h, []);
  }

  lemma SentOn(h: Host, g: Host, ok: bool, q: seq<Piece>, n: nat)
    requires Sent(h, g, ok, q, n)
    ensures n <= |q| && g.sn == h.sn + n && (ok <==> n == |q|)
  {
  }

  // --------------------------------------------------- all the slots ----

  predicate Selected(s: Outgoing, only: Option<Uuid>) {
    only.None? || s.uuid == only.value
  }

  /** The chunks of the selected slots, in order. */
  function Flat(t2: seq<Outgoing>, only: Option<Uuid>): seq<Piece> {
    if t2 == [] then []
    else (if Selected(t2[0], only) then t2[0].pieces else []) + Flat(t2[1..], only)
  }

  /** The slots a drain with `only` passes over. */
  function Others(t2: seq<Outgoing>, only: Option<Uuid>): seq<Outgoing> {
    if t2 == [] then []
    else (if Selected(t2[0], only) then [] else [t2[0]]) + Others(t2[1..], only)
  }

  predicate NoneSelected(t2: seq<Outgoing>, only: Option<Uuid>) {
    forall s :: s in t2 ==> !Selected(s, only)
  }

  lemma Joined(h: Host, g: Host, f: Host, ok: bool, p: seq<Piece>, q: seq<Piece>, n: nat)
    requires Sent(h, g, true, p, |p|) && Sent(g, f, ok, q, n)
    ensures Sent(h, f, ok, p + q, |p| + n)
  {
    var a := p + q;
    assert a[..|p| + n] == p + q[..n] && p[..|p|] == p;
    assert Stamped(p + q[..n], h.sn) == Stamped(p, h.sn) + Stamped(q[..n], g.sn);
    var v := h.verdicts;
    forall i | 0 <= i < |p| + n ensures v[i] { if i >= |p| { assert v[|p|..][i - |p|]; } }
    assert (h.cold + Stamped(p, h.sn)) + Stamped(q[..n], g.sn) == h.cold + (Stamped(p, h.sn) + Stamped(q[..n], g.sn));
  }

  lemma Stopped(h: Host, g: Host, p: seq<Piece>, q: seq<Piece>, n: nat)
    requires Sent(h, g, false, p, n)
    ensures n < |p| && Sent(h, g, false, p + q, n)
  {
    assert (p + q)[..n] == p[..n];
  }

  ghost predicate FromDrained(h: Host, k: nat, only: Option<Uuid>, g: Host, ok: bool) {
    && k <= |h.t2| && k <= |g.t2| && g.t2[..k] == h.t2[..k]
    && var q, rest := Flat(h.t2[k..], only), Flat(g.t2[k..], only);
    && |rest| <= |q| && var n := |q| - |rest|;
    && rest == q[n..] && Sent(h, g, ok, q, n)
    && (ok <==> NoneSelected(g.t2[k..], only)) && Others(g.t2[k..], only) == Others(h.t2[k..], only)
    && g.boot == h.boot && g.lib == h.lib && g.bootLast == h.bootLast
  }

  /** `_drain_t2_outbox`: of the selected slots' chunks the front left, up to a refusal; true comes
      back iff no selected slot is left; the other slots are as they were. */
  lemma {:induction false} DrainFromExact(h: Host, k: nat, only: Option<Uuid>)
    requires k <= |h.t2|
    ensures FromDrained(h, k, only, DrainFrom(h, k, only).0, DrainFrom(h, k, only).1)
    decreases |h.t2| - k
  {
    hide FromDrained, DrainSlot, Selected, SlotDrained;
    if k == |h.t2| {
      FromEnd(h, k, only);
    } else if !Selected(h.t2[k], only) {
      Skips(h, k, only);
      DrainFromExact(h, k + 1, only);
      FromSkipped(h, k, only, DrainFrom(h, k + 1, only).0, DrainFrom(h, k + 1, only).1);
    } else {
      Takes(h, k, only);
      DrainSlotExact(h, k);
      var (g, ok) := DrainSlot(h, k);
      if ok {
        SlotGone(h, k, g);
        DrainFromExact(g, k, only);
        FromTaken(h, k, only, g, DrainFrom(g, k, only).0, DrainFrom(g, k, only).1);
      } else {
        SlotStopped(h, g, k, only);
      }
    }
  }

  lemma FromEnd(h: Host, k: nat, only: Option<Uuid>)
    requires k == |h.t2|
    ensures FromDrained(h, k, only, h, true)
  {
    hide Sent;
    NoneSent(h, h, []);
  }

  lemma SlotGone(h: Host, k: nat, g: Host)
    requires k < |h.t2| && SlotDrained(h, k, g, true)
    ensures |g.t2| == |h.t2| - 1 && g.t2[..k] == h.t2[..k] && g.t2[k..] == h.t2[k + 1..]
    ensures g.boot == h.boot && g.lib == h.lib && g.bootLast == h.bootLast
  {
    hide Sent;
  }

  lemma FlatOne(s: Outgoing, rest: seq<Outgoing>, only: Option<Uuid>)
    ensures Flat([s] + rest, only) == (if Selected(s, only) then s.pieces else []) + Flat(rest, only)
    ensures Others([s] + rest, only) == (if Selected(s, only) then [] else [s]) + Others(rest, only)
    ensures NoneSelected([s] + rest, only) <==> !Selected(s, only) && NoneSelected(rest, only)
  {
    hide Selected;
    assert ([s] + rest)[1..] == rest;
  }

  lemma FromSkipped(h: Host, k: nat, only: Option<Uuid>, g: Host, ok: bool)
    requires k < |h.t2| && !Selected(h.t2[k], only) && FromDrained(h, k + 1, only, g, ok)
    ensures FromDrained(h, k, only, g, ok)
  {
    hide Sent, Flat, Others, NoneSelected, Selected;
    var s := h.t2[k];
    assert g.t2[k] == g.t2[..k + 1][k] && s == h.t2[..k + 1][k];
    assert h.t2[k..] == [s] + h.t2[k + 1..] && g.t2[k..] == [s] + g.t2[k + 1..];
    assert g.t2[..k] == g.t2[..k + 1][..k] && h.t2[..k] == h.t2[..k + 1][..k];
    FlatOne(s, h.t2[k + 1..], only);
    FlatOne(s, g.t2[k + 1..], only);
    assert [] + Flat(h.t2[k + 1..], only) == Flat(h.t2[k + 1..], only);
    assert [] + Flat(g.t2[k + 1..], only) == Flat(g.t2[k + 1..], only);
  }

  lemma FromTaken(h: Host, k: nat, only: Option<Uuid>, g: Host, f: Host, ok: bool)
    requires k < |h.t2| && Selected(h.t2[k], only) && SlotDrained(h, k, g, true) && FromDrained(g, k, only, f, ok)
    ensures FromDrained(h, k, only, f, ok)
  {
    hide Sent, Flat, Others, NoneSelected, Selected;
    SlotGone(h, k, g);
    var s, rest := h.t2[k], h.t2[k + 1..];
    assert h.t2[k..] == [s] + rest;
    FlatOne(s, rest, only);
    var p, q := s.pieces, Flat(rest, only);
    var n := |q| - |Flat(f.t2[k..], only)|;
    Joined(h, g, f, ok, p, q, n);
    assert (p + q)[|p| + n..] == q[n..];
    assert [] + Others(rest, only) == Others(rest, only);
  }

  lemma Skips(h: Host, k: nat, only: Option<Uuid>)
    requires k < |h.t2| && !Selected(h.t2[k], only)
    ensures DrainFrom(h, k, only) == DrainFrom(h, k + 1, only)
  {
  }

  lemma Takes(h: Host, k: nat, only: Option<Uuid>)
    requires k < |h.t2| && Selected(h.t2[k], only)
    ensures var (g, ok) := DrainSlot(h, k);
      DrainFrom(h, k, only) == if ok then DrainFrom(g, k, only) else (g, false)
  {
    hide DrainSlot;
  }

  lemma SlotStopped(h: Host, g: Host, k: nat, only: Option<Uuid>)
    requires k < |h.t2| && Selected(h.t2[k], only) && SlotDrained(h, k, g, false)
    ensures FromDrained(h, k, only, g, false)
  {
    hide Sent, Flat, Others, NoneSelected, Selected;
    var s, t, rest := h.t2[k], g.t2[k], h.t2[k + 1..];
    var p, n := s.pieces, |s.pieces| - |t.pieces|;
    SameSelected(s, t, only);
    assert h.t2[k..] == [s] + rest && g.t2[k..] == [t] + rest && g.t2[..k] == h.t2[..k];
    FlatOne(s, rest, only);
    FlatOne(t, rest, only);
    var q := Flat(rest, only);
    Stopped(h, g, p, q, n);
    assert (p + q)[n..] == p[n..] + q;
  }

  lemma SameSelected(s: Outgoing, t: Outgoing, only: Option<Uuid>)
    requires s.uuid == t.uuid
    ensures Selected(s, only) == Selected(t, only)
  {
  }

  // ------------------------------------------- when nothing is refused ----

  lemma GoesAll(verdicts: seq<bool>, most: nat, n: nat)
    requires Goes(verdicts, most, n) && AcceptsAll(verdicts, most)
    ensures n == most
  {
  }

  lemma RestAccepts(verdicts: seq<bool>, n: nat, more: nat)
    requires AcceptsAll(verdicts, n + more)
    ensures AcceptsAll(verdicts, n) && AcceptsAll(Unheard(verdicts, n, true), more)
  {
  }

  lemma AllSent(h: Host, g: Host, ok: bool, q: seq<Piece>, n: nat, more: nat)
    requires Sent(h, g, ok, q, n) && AcceptsAll(h.verdicts, |q| + more)
    ensures ok && n == |q| && AcceptsAll(g.verdicts, more)
  {
    RestAccepts(h.verdicts, |q|, more);
    GoesAll(h.verdicts, |q|, n);
  }

  /** Everything the host has queued. */
  function Queued(h: Host): nat {
    |h.boot| + |h.lib| + |Flat(h.t2, None)|
  }

  function Drained(h: Host): Host {
    Did(Did(Did(h, DoBoot), DoLib), DoT2)
  }

  lemma BootEmpties(h: Host, g: Host, ok: bool, more: nat)
    requires BootDrained(h, g, ok) && AcceptsAll(h.verdicts, |h.boot| + more)
    ensures g.boot == [] && AcceptsAll(g.verdicts, more) && g.made == h.made && g.lib == h.lib && g.t2 == h.t2
  {
    hide Sent, AcceptsAll;
    AllSent(h, g, ok, h.boot, |h.boot| - |g.boot|, more);
    SentMade(h, g, ok, h.boot, |h.boot| - |g.boot|);
  }

  lemma LibEmpties(h: Host, g: Host, ok: bool, more: nat)
    requires LibDrained(h, g, ok) && AcceptsAll(h.verdicts, |h.lib| + more)
    ensures g.lib == [] && AcceptsAll(g.verdicts, more) && g.made == h.made && g.boot == h.boot && g.t2 == h.t2
  {
    hide Sent, AcceptsAll;
    AllSent(h, g, ok, h.lib, |h.lib| - |g.lib|, more);
    SentMade(h, g, ok, h.lib, |h.lib| - |g.lib|);
  }

  lemma SlotsEmpty(h: Host, g: Host, ok: bool)
    requires FromDrained(h, 0, None, g, ok) && AcceptsAll(h.verdicts, |Flat(h.t2, None)|)
    ensures g.t2 == [] && g.made == h.made && g.boot == h.boot && g.lib == h.lib
  {
    hide Sent, AcceptsAll, Flat, Others;
    assert h.t2[0..] == h.t2 && g.t2[0..] == g.t2;
    var q, n := Flat(h.t2, None), |Flat(h.t2, None)| - |Flat(g.t2, None)|;
    AllSent(h, g, ok, q, n, 0);
    SentMade(h, g, ok, q, n);
    NoSlots(g.t2);
  }

  lemma NoSlots(t2: seq<Outgoing>)
    ensures NoneSelected(t2, None) <==> t2 == []
  {
    if t2 != [] { assert Selected(t2[0], None); }
  }

  lemma DrainedEmpty(h: Host)
    requires AcceptsAll(h.verdicts, Queued(h))
    ensures var g := Drained(h); g.boot == [] && g.lib == [] && g.t2 == [] && g.made == h.made
  {
    hide BootDrained, LibDrained, FromDrained, Flat, AcceptsAll, DrainBoot, DrainLib, DrainFrom;
    DrainBootExact(h);
    var a := DrainBoot(h).0;
    BootEmpties(h, a, DrainBoot(h).1, |h.lib| + |Flat(h.t2, None)|);
    DrainLibExact(a);
    var b := DrainLib(a).0;
    LibEmpties(a, b, DrainLib(a).1, |Flat(h.t2, None)|);
    DrainFromExact(b, 0, None);
    SlotsEmpty(b, DrainFrom(b, 0, None).0, DrainFrom(b, 0, None).1);
  }

  lemma SentMade(h: Host, g: Host, ok: bool, q: seq<Piece>, n: nat)
    requires Sent(h, g, ok, q, n)
    ensures g.made == h.made && g.fast == h.fast && g.snFast == h.snFast
  {
  }

  /** Whatever was refused before: once the transport accepts what is queued, one flush of the three
      queues leaves every blob ever queued complete on the lane, or superseded by a newer one. */
  lemma FlushLeavesNothing(verdicts: seq<bool>, ops: seq<Op>, i: nat)
    requires AcceptsAll(After(Start(verdicts), ops).verdicts, Queued(After(Start(verdicts), ops)))
    ensures var h := After(Start(verdicts), ops);
      i < |h.made| ==>
        var g := After(Start(verdicts), ops + [DoBoot] + [DoLib] + [DoT2]);
        g.made == h.made && (Complete(Parts(g.cold), h.made[i]) || Superseded(h.made, i))
  {
    hide *;
    var h := After(Start(verdicts), ops);
    ThreeMore(Start(verdicts), ops);
    DrainedEmpty(h);
    StartFine(verdicts);
    RunFine(Start(verdicts), ops + [DoBoot] + [DoLib] + [DoT2]);
    if i < |h.made| { NoneWaits(After(Start(verdicts), ops + [DoBoot] + [DoLib] + [DoT2]), i); }
  }

  lemma ThreeMore(s: Host, ops: seq<Op>)
    ensures After(s, ops + [DoBoot] + [DoLib] + [DoT2]) == Drained(After(s, ops))
  {
    hide DrainBoot, DrainLib, DrainFrom;
    OneOp(s, ops, DoBoot);
    OneOp(s, ops + [DoBoot], DoLib);
    OneOp(s, ops + [DoBoot] + [DoLib], DoT2);
  }

  lemma OneOp(s: Host, ops: seq<Op>, op: Op)
    ensures After(s, ops + [op]) == Did(After(s, ops), op)
  {
    assert (ops + [op])[..|ops|] == ops;
  }

  lemma NoneWaits(g: Host, i: nat)
    requires Fine(g) && i < |g.made| && g.boot == [] && g.lib == [] && g.t2 == []
    ensures Complete(Parts(g.cold), g.made[i]) || Superseded(g.made, i)
  {
    hide Numbered, Queues, Stamps, Complete;
    assert KeptAt(g, i);
    assert forall k :: 0 <= k < |Qs(g)| ==> Qs(g)[k] == [];
  }

  // ----------------------------------------------------- single messages ----

  /** A message of its own: it leaves as the next of its lane iff the transport accepts it, and a refusal
      changes nothing but what the transport has been asked. */
  lemma SingleSends(h: Host, u: Uuid)
    ensures var (g, ok) := SendLink(h);
      (ok <==> Accepts(h)) && g == if ok then Asked(h).(sn := h.sn + 1, cold := h.cold + [ColdMsg(h.sn + 1, Link)], linkLast := h.sn + 1)
                                   else Asked(h)
    ensures var (g, ok) := SendEnd(h);
      (ok <==> Accepts(h)) && g == if ok then Asked(h).(sn := h.sn + 1, cold := h.cold + [ColdMsg(h.sn + 1, End)]) else Asked(h)
    ensures var (g, ok) := SendTomb(h, u);
      (ok <==> Accepts(h)) && g == if ok then Asked(h).(snFast := h.snFast + 1, fast := g.fast) else Asked(h)
    ensures var (g, ok) := SendTomb(h, u);
      ok ==> |g.fast| == |h.fast| + 1 && g.fast[..|h.fast|] == h.fast && g.fast[|h.fast|].uuid == u
    ensures var (g, ok) := SendFastEnd(h);
      (ok <==> Accepts(h)) && (ok ==> g.fast == h.fast + [FastMsg(h.snFast + 1, "", 0, 0)]) && (!ok ==> g == Asked(h))
  {
  }

  /** The chunks a delta's pointer targets may need. */
  function Needed(ts: seq<Target>): nat {
    if ts == [] then 0
    else (match ts[0].blob case Some(data) => Size(data) case None => 0) + Needed(ts[1..])
  }

  lemma OneSlot(h: Host, u: Uuid, data: seq<Byte>, more: nat)
    requires h.t2 == [] && AcceptsAll(h.verdicts, Size(data) + more)
    ensures var g := FlushT2(h, u, data);
      g.t2 == [] && AcceptsAll(g.verdicts, more) && g.fast == h.fast && g.snFast == h.snFast
  {
    hide Sent, AcceptsAll, Size, DrainFrom, Selected;
    var q := QueueT2(h, u, data);
    var ps := Pieces(BlobId.Resend(u, h.sn + 1), data);
    assert q.t2 == [Outgoing(u, ps)] && q.verdicts == h.verdicts;
    assert q.t2[0..] == q.t2 && q.t2[1..] == [];
    OnlyMine(u, ps);
    DrainFromExact(q, 0, Some(u));
    var (g, ok) := DrainFrom(q, 0, Some(u));
    var n := |Flat(q.t2, Some(u))| - |Flat(g.t2[0..], Some(u))|;
    assert g.t2[0..] == g.t2;
    AllSent(q, g, ok, ps, n, more);
    SentMade(q, g, ok, ps, n);
    NoOthers(g.t2, Some(u));
  }

  lemma OnlyMine(u: Uuid, ps: seq<Piece>)
    ensures var t2 := [Outgoing(u, ps)]; Flat(t2, Some(u)) == ps && Others(t2, Some(u)) == []
  {
    var t2 := [Outgoing(u, ps)];
    assert t2[1..] == [];
    assert Flat(t2, Some(u)) == ps + [] && Others(t2, Some(u)) == [] + [];
  }

  lemma {:induction false} NoOthers(t2: seq<Outgoing>, only: Option<Uuid>)
    requires NoneSelected(t2, only)
    ensures Others(t2, only) == t2
  {
    hide Selected;
    if t2 != [] {
      assert !Selected(t2[0], only);
      assert forall s :: s in t2[1..] ==> s in t2;
      NoOthers(t2[1..], only);
      assert t2 == [t2[0]] + t2[1..];
    }
  }

  lemma {:induction false} AimLeaves(h: Host, u: Uuid, ts: seq<Target>, after: nat, lift: nat)
    requires h.t2 == [] && AcceptsAll(h.verdicts, Needed(ts) + 1)
    ensures var (g, ok) := Aim(h, u, ts, after, lift);
      && ok && g.t2 == [] && |g.fast| == |h.fast| + 1 && g.fast[..|h.fast|] == h.fast
      && g.fast[|h.fast|].uuid == u && g.fast[|h.fast|].sn == h.snFast + 1
    decreases |ts|
  {
    hide FlushT2;
    if ts != [] {
      var g := Shipped(h, ts[0]);
      if ts[0].uuid !in h.shipped && ts[0].blob.Some? {
        OneSlot(h, ts[0].uuid, ts[0].blob.value, Needed(ts[1..]) + 1);
      } else {
        assert AcceptsAll(h.verdicts, Needed(ts[1..]) + 1);
      }
      AimLeaves(g, u, ts[1..], after, Max(lift, ColdAt(g, ts[0].uuid)));
    }
  }

  /** With no blob under way and enough accepted for its targets' chunks and itself, a delta leaves: it is
      the next of its lane, and its targets have left whole before it. */
  lemma DeltaLeaves(h: Host, u: Uuid, ts: seq<Target>)
    requires h.t2 == [] && AcceptsAll(h.verdicts, Needed(ts) + 1)
    ensures var (g, ok) := SendT1(h, u, ts);
      && ok && g.t2 == [] && |g.fast| == |h.fast| + 1 && g.fast[..|h.fast|] == h.fast
      && g.fast[|h.fast|].uuid == u && g.fast[|h.fast|].sn == h.snFast + 1
  {
    AimLeaves(h, u, ts, AfterFor(h, u), 0);
  }
}
