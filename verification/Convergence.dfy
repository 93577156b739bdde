/**
 * Where the two lanes leave one datablock: the replica's registers after a run of
 * `ReplicaApply`, against what the host sent (qcbridge/ring0/replica_apply.py: _apply_t1,
 * _apply_tombstone, _apply_one).
 */
module Convergence {
  import opened Wrappers
  import opened Wire
  import opened AtStates
  import opened LaneMerge
  import opened ReplicaApply
  import ReplicaGate
  import opened TwoLanes

  /** What leaves the host, in the order it leaves. A blob carries the number of its last chunk. */
  datatype Out =
    | Said(m: Message)   // a delta or a tombstone, on the fast lane
    | Again(m: Message)  // an entry of a re-assert: it says what the host has, and changes nothing there
    | Shipped(uuid: Uuid, cargo: Cargo, sn: int)

  /** A datablock's registers, or none: a delta needs the datablock, a tombstone removes it. */
  function Wrote(v: Option<Registers>, m: Message): Option<Registers> {
    match m.body
    case Delta(ch) => if v.Some? then Some(v.value + ch) else None
    case Tombstone => None
    case _ => v
  }

  function WroteAll(v: Option<Registers>, ms: seq<Message>): Option<Registers> {
    if ms == [] then v else Wrote(WroteAll(v, ms[..|ms| - 1]), ms[|ms| - 1])
  }

  /** What the replica has of a datablock: its registers, or none, and the "@" values it last
      received, which outlive the datablock. */
  datatype Held = Held(regs: Option<Registers>, kept: Registers)

  function Got(v: Held, m: Message): Held {
    Held(Wrote(v.regs, m), if m.body.Delta? && v.regs.Some? then v.kept + AtOf(m.body.changes) else v.kept)
  }

  function GotAll(v: Held, ms: seq<Message>): Held {
    if ms == [] then v else Got(GotAll(v, ms[..|ms| - 1]), ms[|ms| - 1])
  }

  /** A blob applied, and the "@" values written back. */
  function Landed(v: Held, c: Cargo): Held {
    v.(regs := Some(Loaded(c, v.kept)))
  }

  /** What the host believes of `u` after sending `h`. */
  function HostReg(v: Option<Registers>, h: seq<Out>, u: Uuid): Option<Registers> {
    if h == [] then v
    else
      var w := HostReg(v, h[..|h| - 1], u);
      match h[|h| - 1]
      case Said(m) => if m.uuid == u then Wrote(w, m) else w
      case Again(_) => w
      case Shipped(x, c, _) => if x == u then Some(c.regs) else w
  }

  predicate Arrives(o: Out, lost: set<int>) {
    !o.Shipped? && !(o.m.sn.Some? && o.m.sn.value in lost)
  }

  function Arrivals(h: seq<Out>, lost: set<int>): seq<Message> {
    if h == [] then []
    else
      var rest, o := Arrivals(h[..|h| - 1], lost), h[|h| - 1];
      if Arrives(o, lost) then rest + [o.m] else rest
  }

  function Ships(h: seq<Out>): seq<int> {
    if h == [] then []
    else
      var rest, o := Ships(h[..|h| - 1]), h[|h| - 1];
      if o.Shipped? then rest + [o.sn] else rest
  }

  /** The yardstick: what arrives, applied in the order it was sent, each blob bringing all its
      datablock has. The replica itself is `Reg` below. */
  function SentOrder(v: Option<Registers>, h: seq<Out>, lost: set<int>, u: Uuid): Option<Registers> {
    if h == [] then v
    else
      var w, o := SentOrder(v, h[..|h| - 1], lost, u), h[|h| - 1];
      if o.Shipped? then (if o.uuid == u then Some(o.cargo.regs) else w)
      else if Arrives(o, lost) && o.m.uuid == u then Wrote(w, o.m) else w
  }

  /** What the blob numbered `sn` holds for `u`. */
  function CargoOf(h: seq<Out>, sn: int, u: Uuid): Option<Cargo> {
    if h == [] then None
    else
      var o := h[|h| - 1];
      if o.Shipped? && o.sn == sn && o.uuid == u then Some(o.cargo) else CargoOf(h[..|h| - 1], sn, u)
  }

  /** What the replica has of `u` after applying `log`. */
  function Reg(v: Held, log: seq<Act>, h: seq<Out>, u: Uuid): Held {
    if log == [] then v
    else
      var w := Reg(v, log[..|log| - 1], h, u);
      match log[|log| - 1]
      case DidFast(m) => if m.uuid == u then Got(w, m) else w
      case DidBlob(sn) => match CargoOf(h, sn, u) case Some(c) => Landed(w, c) case None => w
  }

  // --------------------------------------- values in closed form ----

  predicate Kills(ms: seq<Message>) {
    exists i :: 0 <= i < |ms| && ms[i].body.Tombstone?
  }

  function Writes(ms: seq<Message>): Registers {
    if ms == [] then map[]
    else
      var w, m := Writes(ms[..|ms| - 1]), ms[|ms| - 1];
      if m.body.Delta? then w + m.body.changes else w
  }

  lemma {:induction false} KillsFront(ms: seq<Message>)
    requires ms != []
    ensures Kills(ms) <==> Kills(ms[..|ms| - 1]) || ms[|ms| - 1].body.Tombstone?
  {
    var front := ms[..|ms| - 1];
    if Kills(front) {
      var i :| 0 <= i < |front| && front[i].body.Tombstone?;
      assert ms[i].body.Tombstone?;
    }
    if Kills(ms) && !ms[|ms| - 1].body.Tombstone? {
      var i :| 0 <= i < |ms| && ms[i].body.Tombstone?;
      assert front[i].body.Tombstone?;
    }
  }

  lemma {:induction false} WroteAllClosed(regs: Registers, ms: seq<Message>)
    ensures WroteAll(Some(regs), ms) == if Kills(ms) then None else Some(regs + Writes(ms))
  {
    if ms == [] {
      assert regs + map[] == regs;
    } else {
      hide Kills;
      KillsFront(ms);
      WroteAllClosed(regs, ms[..|ms| - 1]);
      var m := ms[|ms| - 1];
      if m.body.Delta? {
        var w := Writes(ms[..|ms| - 1]);
        assert (regs + w) + m.body.changes == regs + (w + m.body.changes);
      }
    }
  }

  lemma {:induction false} WritesAppend(a: seq<Message>, b: seq<Message>)
    ensures Writes(a + b) == Writes(a) + Writes(b) && (Kills(a + b) <==> Kills(a) || Kills(b))
  {
    hide Kills;
    if b == [] {
      assert a + b == a;
      NothingSaid();
    } else {
      assert (a + b)[..|a + b| - 1] == a + b[..|b| - 1];
      KillsFront(a + b);
      KillsFront(b);
      WritesAppend(a, b[..|b| - 1]);
    }
  }

  lemma NothingSaid()
    ensures !Kills([]) && Writes([]) == map[]
  {
  }

  /** The registers do not hang on what is kept. */
  lemma {:induction false} GotRegs(v: Held, ms: seq<Message>)
    ensures GotAll(v, ms).regs == WroteAll(v.regs, ms)
  {
    if ms != [] { GotRegs(v, ms[..|ms| - 1]); }
  }

  /** While the datablock is there, every "@" value received is kept. */
  lemma {:induction false} GotKept(v: Held, ms: seq<Message>)
    requires v.regs.Some? && !Kills(ms)
    ensures GotAll(v, ms).kept == v.kept + AtOf(Writes(ms))
  {
    hide Kills;
    if ms == [] {
      assert v.kept + AtOf(map[]) == v.kept;
    } else {
      var front, m := ms[..|ms| - 1], ms[|ms| - 1];
      KillsFront(ms);
      GotKept(v, front);
      GotRegs(v, front);
      WroteAllClosed(v.regs.value, front);
      if m.body.Delta? { AtAppend(v.kept, Writes(front), m.body.changes); }
    }
  }

  lemma AtAppend(kept: Registers, w: Registers, ch: Registers)
    ensures (kept + AtOf(w)) + AtOf(ch) == kept + AtOf(w + ch)
  {
  }

  /** Messages that changed sides of a blob leave no mark: a later message deletes the datablock; or
      each path they write is written again, or is one of the blob's and, unless it is an "@"
      register, has that value there. */
  predicate Harmless(regs: Registers, strays: seq<Message>, rest: seq<Message>) {
    Kills(rest) || (!Kills(strays) && Covers(regs, Writes(strays), Writes(rest)))
  }

  predicate Covers(regs: Registers, x: Registers, r: Registers) {
    forall p :: p in x ==> p in r || (p in regs && (IsAt(p) || regs[p] == x[p]))
  }

  /** Each "@" register of a blob that nothing writes afterwards shows what was last sent of it: the
      value the replica last received, or a fresh copy's if it never received one. */
  predicate Current(c: Cargo, kept: Registers, sent: seq<Message>, rest: seq<Message>) {
    Kills(rest) || AtCurrent(c, kept, Writes(sent), Writes(rest))
  }

  predicate AtCurrent(c: Cargo, kept: Registers, w: Registers, r: Registers) {
    forall p :: p in c.regs && IsAt(p) && p !in r ==> Shown(c, kept, p) == (c.regs + w)[p]
  }

  /** One path: what the replica shows of it against what was sent of it. `w` is what the replica
      wrote over the blob, `s` what the host did. */
  lemma OnePath(c: Cargo, kept: Registers, w: Registers, s: Registers, p: Path)
    requires p in c.regs && (p in w ==> p in s || IsAt(p) || c.regs[p] == w[p])
    requires p in w && p in s ==> w[p] == s[p]
    requires p in s && p !in w ==> IsAt(p) || c.regs[p] == s[p]
    ensures (Loaded(c, kept) + w)[p] == (c.regs + s)[p] <==>
      (IsAt(p) && (p !in w || p !in s) ==> Shown(c, kept + AtOf(w), p) == (c.regs + s)[p])
  {
  }

  lemma OverlayOvertaken(c: Cargo, kept: Registers, x: Registers, r: Registers)
    ensures Loaded(c, kept) + (x + r) == c.regs + r <==>
      Covers(c.regs, x, r) && AtCurrent(c, kept + AtOf(x + r), r, r)
  {
    hide Loaded, Shown, AtOf;
    var a, b := Loaded(c, kept) + (x + r), c.regs + r;
    LoadedKeys(c, kept);
    if Covers(c.regs, x, r) {
      assert a.Keys == b.Keys;
      forall p | p in c.regs ensures a[p] == b[p] <==>
        (IsAt(p) && p !in r ==> Shown(c, kept + AtOf(x + r), p) == b[p])
      {
        OnePath(c, kept, x + r, r, p);
      }
      assert forall p :: p in a && p !in c.regs ==> p in r && a[p] == b[p];
    } else {
      var p :| p in x && p !in r && !(p in c.regs && (IsAt(p) || c.regs[p] == x[p]));
      assert p in a && a[p] == x[p];
    }
  }

  lemma LoadedKeys(c: Cargo, kept: Registers)
    ensures Loaded(c, kept).Keys == c.regs.Keys
  {
  }

  lemma OverlayEarly(c: Cargo, kept: Registers, x: Registers, r: Registers)
    ensures Loaded(c, kept) + r == c.regs + (x + r) <==>
      Covers(c.regs, x, r) && AtCurrent(c, kept + AtOf(r), x + r, r)
  {
    hide Shown, AtOf;
    var a, b := Loaded(c, kept) + r, c.regs + (x + r);
    if Covers(c.regs, x, r) {
      assert a.Keys == b.Keys;
      forall p | p in c.regs ensures a[p] == b[p] <==>
        (IsAt(p) && p !in r ==> Shown(c, kept + AtOf(r), p) == b[p])
      {
        OnePath(c, kept, r, x + r, p);
      }
      assert forall p :: p in a && p !in c.regs ==> p in r && a[p] == b[p];
    } else {
      var p :| p in x && p !in r && !(p in c.regs && (IsAt(p) || c.regs[p] == x[p]));
      assert p in b && b[p] == x[p];
      if p in c.regs { PlainShown(c, kept, p); }
    }
  }

  lemma PlainShown(c: Cargo, kept: Registers, p: Path)
    requires p in c.regs
    ensures !IsAt(p) ==> Loaded(c, kept)[p] == c.regs[p]
  {
  }

  /** From a blob on: what the replica that applied `done` shows is what a blob bringing everything
      and `sent` give, iff the messages that changed sides leave no mark and the "@" registers are
      current. */
  lemma BlobExact(c: Cargo, kept: Registers, done: seq<Message>, sent: seq<Message>,
                  strays: seq<Message>, rest: seq<Message>)
    requires (done == strays + rest && sent == rest) || (done == rest && sent == strays + rest)
    ensures var n := GotAll(Held(Some(Loaded(c, kept)), kept), done);
      n.regs == WroteAll(Some(c.regs), sent) <==>
        Harmless(c.regs, strays, rest) && Current(c, n.kept, sent, rest)
  {
    hide Writes, Kills, WroteAll, GotAll, Covers, AtCurrent, Loaded;
    var v := Held(Some(Loaded(c, kept)), kept);
    GotRegs(v, done);
    WroteAllClosed(Loaded(c, kept), done);
    WroteAllClosed(c.regs, sent);
    WritesAppend(strays, rest);
    if !Kills(rest) && !Kills(strays) {
      GotKept(v, done);
      OverlayOvertaken(c, kept, Writes(strays), Writes(rest));
      OverlayEarly(c, kept, Writes(strays), Writes(rest));
    }
  }

  // ------------------------------------- from the last blob onward ----

  /** Where `u` was last shipped, or -1. */
  function LastShip(h: seq<Out>, u: Uuid): (k: int)
    ensures -1 <= k < |h|
    ensures k >= 0 ==> h[k].Shipped? && h[k].uuid == u
  {
    if h == [] then -1
    else if h[|h| - 1].Shipped? && h[|h| - 1].uuid == u then |h| - 1
    else LastShip(h[..|h| - 1], u)
  }

  lemma OfArrivals(h: seq<Out>, lost: set<int>, u: Uuid)
    requires h != []
    ensures var rest, o := Of(Arrivals(h[..|h| - 1], lost), u), h[|h| - 1];
      Of(Arrivals(h, lost), u) == if Arrives(o, lost) && o.m.uuid == u then rest + [o.m] else rest
  {
    hide Of;
    var rest, o := Arrivals(h[..|h| - 1], lost), h[|h| - 1];
    if Arrives(o, lost) {
      OfSnoc(rest, o.m, u);
      assert Of(rest, u) + [] == Of(rest, u);
    }
  }

  /** A tail that ships no blob of `u` only writes. */
  lemma {:induction false} TailInSentOrder(v: Option<Registers>, a: seq<Out>, b: seq<Out>, lost: set<int>, u: Uuid)
    requires forall i :: 0 <= i < |b| && b[i].Shipped? ==> b[i].uuid != u
    ensures SentOrder(v, a + b, lost, u) == WroteAll(SentOrder(v, a, lost, u), Of(Arrivals(b, lost), u))
  {
    hide Of, Wrote, Arrivals, WroteAll;
    if b == [] {
      assert a + b == a;
      NoArrivals(lost, u);
      NothingWritten(SentOrder(v, a, lost, u));
    } else {
      var front, o := b[..|b| - 1], b[|b| - 1];
      assert (a + b)[..|a + b| - 1] == a + front && (a + b)[|a + b| - 1] == o;
      TailInSentOrder(v, a, front, lost, u);
      OfArrivals(b, lost, u);
      if Arrives(o, lost) { WroteAllSnoc(SentOrder(v, a, lost, u), Of(Arrivals(front, lost), u), o.m); }
    }
  }

  lemma NoArrivals(lost: set<int>, u: Uuid)
    ensures Of(Arrivals([], lost), u) == []
  {
  }

  lemma NothingWritten(v: Option<Registers>)
    ensures WroteAll(v, []) == v
  {
  }

  lemma Cut<T>(s: seq<T>, n: nat)
    requires n <= |s|
    ensures s[..n] + s[n..] == s
  {
  }

  lemma SentOrderSplit(v: Option<Registers>, h: seq<Out>, lost: set<int>, u: Uuid)
    ensures var k := LastShip(h, u);
      SentOrder(v, h, lost, u)
      == WroteAll(if k < 0 then v else Some(h[k].cargo.regs), Of(Arrivals(h[k + 1..], lost), u))
  {
    hide *;
    TailAfterShip(v, h, lost, u, LastShip(h, u));
    EndsInShip(v, h, lost, u, LastShip(h, u));
  }

  lemma TailAfterShip(v: Option<Registers>, h: seq<Out>, lost: set<int>, u: Uuid, k: int)
    requires k == LastShip(h, u)
    ensures SentOrder(v, h, lost, u) == WroteAll(SentOrder(v, h[..k + 1], lost, u), Of(Arrivals(h[k + 1..], lost), u))
  {
    hide *;
    LastShipIsLast(h, u);
    TailShipsNone(h[k + 1..], h, u, k + 1);
    Cut(h, k + 1);
    TailInSentOrder(v, h[..k + 1], h[k + 1..], lost, u);
  }

  lemma {:induction false} LastShipIsLast(h: seq<Out>, u: Uuid)
    ensures forall j :: LastShip(h, u) < j < |h| && h[j].Shipped? ==> h[j].uuid != u
  {
    if h != [] {
      var front := h[..|h| - 1];
      LastShipIsLast(front, u);
      forall j | LastShip(h, u) < j < |h| && h[j].Shipped? ensures h[j].uuid != u {
        if j < |front| { assert front[j] == h[j]; }
      }
    }
  }

  lemma TailShipsNone(b: seq<Out>, h: seq<Out>, u: Uuid, n: nat)
    requires n <= |h| && b == h[n..]
    requires forall j :: n <= j < |h| && h[j].Shipped? ==> h[j].uuid != u
    ensures forall i :: 0 <= i < |b| && b[i].Shipped? ==> b[i].uuid != u
  {
    forall i | 0 <= i < |b| && b[i].Shipped? ensures b[i].uuid != u {
      assert b[i] == h[n + i];
    }
  }

  lemma EndsInShip(v: Option<Registers>, h: seq<Out>, lost: set<int>, u: Uuid, k: int)
    requires -1 <= k < |h| && (k >= 0 ==> h[k].Shipped? && h[k].uuid == u)
    ensures SentOrder(v, h[..k + 1], lost, u) == if k < 0 then v else Some(h[k].cargo.regs)
  {
    if k >= 0 { assert h[..k + 1][k] == h[k]; }
  }

  lemma WroteAllSnoc(v: Option<Registers>, ms: seq<Message>, m: Message)
    ensures WroteAll(v, ms + [m]) == Wrote(WroteAll(v, ms), m)
  {
    assert (ms + [m])[..|ms + [m]| - 1] == ms;
  }

  /** Where the replica last applied a blob of `u`, or -1. */
  function LastBlob(log: seq<Act>, h: seq<Out>, u: Uuid): (q: int)
    ensures -1 <= q < |log|
    ensures q >= 0 ==> log[q].DidBlob? && CargoOf(h, log[q].sn, u).Some?
  {
    if log == [] then -1
    else if log[|log| - 1].DidBlob? && CargoOf(h, log[|log| - 1].sn, u).Some? then |log| - 1
    else LastBlob(log[..|log| - 1], h, u)
  }

  /** What the replica had when that blob landed, or at the start. */
  function Since(v: Held, log: seq<Act>, h: seq<Out>, u: Uuid): Held {
    var q := LastBlob(log, h, u);
    if q < 0 then v else Landed(Reg(v, log[..q], h, u), CargoOf(h, log[q].sn, u).value)
  }

  lemma GotAllSnoc(v: Held, ms: seq<Message>, m: Message)
    ensures GotAll(v, ms + [m]) == Got(GotAll(v, ms), m)
  {
    assert (ms + [m])[..|ms + [m]| - 1] == ms;
  }

  lemma OfFasts(log: seq<Act>, u: Uuid)
    requires log != []
    ensures var rest, x := Of(FastsIn(log[..|log| - 1]), u), log[|log| - 1];
      Of(FastsIn(log), u) == if x.DidFast? && x.msg.uuid == u then rest + [x.msg] else rest
  {
    hide Of;
    var rest, x := FastsIn(log[..|log| - 1]), log[|log| - 1];
    if x.DidFast? {
      OfSnoc(rest, x.msg, u);
      assert Of(rest, u) + [] == Of(rest, u);
    }
  }

  /** A stretch of the log that lands no blob of `u` only writes. */
  lemma {:induction false} TailReg(v: Held, a: seq<Act>, b: seq<Act>, h: seq<Out>, u: Uuid)
    requires forall i :: 0 <= i < |b| && b[i].DidBlob? ==> CargoOf(h, b[i].sn, u).None?
    ensures Reg(v, a + b, h, u) == GotAll(Reg(v, a, h, u), Of(FastsIn(b), u))
  {
    hide Of, Got, FastsIn, GotAll, CargoOf, Landed;
    if b == [] {
      assert a + b == a;
      NothingDone(Reg(v, a, h, u), u);
    } else {
      var front, x := b[..|b| - 1], b[|b| - 1];
      assert (a + b)[..|a + b| - 1] == a + front && (a + b)[|a + b| - 1] == x;
      TailReg(v, a, front, h, u);
      OfFasts(b, u);
      if x.DidFast? { GotAllSnoc(Reg(v, a, h, u), Of(FastsIn(front), u), x.msg); }
    }
  }

  lemma NothingDone(v: Held, u: Uuid)
    ensures GotAll(v, Of(FastsIn([]), u)) == v
  {
  }

  lemma {:induction false} LastBlobIsLast(log: seq<Act>, h: seq<Out>, u: Uuid)
    ensures forall j :: LastBlob(log, h, u) < j < |log| && log[j].DidBlob? ==> CargoOf(h, log[j].sn, u).None?
  {
    hide CargoOf;
    if log != [] {
      var front := log[..|log| - 1];
      LastBlobIsLast(front, h, u);
      forall j | LastBlob(log, h, u) < j < |log| && log[j].DidBlob? ensures CargoOf(h, log[j].sn, u).None? {
        if j < |front| { assert front[j] == log[j]; }
      }
    }
  }

  lemma RestLandsNone(b: seq<Act>, log: seq<Act>, h: seq<Out>, u: Uuid, n: nat)
    requires n <= |log| && b == log[n..]
    requires forall j :: n <= j < |log| && log[j].DidBlob? ==> CargoOf(h, log[j].sn, u).None?
    ensures forall i :: 0 <= i < |b| && b[i].DidBlob? ==> CargoOf(h, b[i].sn, u).None?
  {
    hide CargoOf;
    forall i | 0 <= i < |b| && b[i].DidBlob? ensures CargoOf(h, b[i].sn, u).None? {
      assert b[i] == log[n + i];
    }
  }

  lemma EndsInBlob(v: Held, log: seq<Act>, h: seq<Out>, u: Uuid)
    ensures Reg(v, log[..LastBlob(log, h, u) + 1], h, u) == Since(v, log, h, u)
  {
    hide CargoOf, Landed;
    var q := LastBlob(log, h, u);
    if q >= 0 {
      var a := log[..q + 1];
      assert a[..|a| - 1] == log[..q] && a[|a| - 1] == log[q];
    }
  }

  lemma RegSplit(v: Held, log: seq<Act>, h: seq<Out>, u: Uuid)
    ensures Reg(v, log, h, u) == GotAll(Since(v, log, h, u), Of(FastsIn(log[LastBlob(log, h, u) + 1..]), u))
  {
    hide *;
    var q := LastBlob(log, h, u) + 1;
    LastBlobIsLast(log, h, u);
    RestLandsNone(log[q..], log, h, u, q);
    Cut(log, q);
    TailReg(v, log[..q], log[q..], h, u);
    EndsInBlob(v, log, h, u);
  }

  // --------------------------------------------- blobs keep their order ----

  predicate Climbs(sns: seq<int>) {
    forall i, j :: 0 <= i < j < |sns| ==> sns[i] < sns[j]
  }

  lemma ClimbsFront(front: seq<int>, last: int)
    requires Climbs(front + [last])
    ensures Climbs(front) && forall s :: s in front ==> s < last
  {
    var sns := front + [last];
    assert sns[|front|] == last && forall i :: 0 <= i < |front| ==> sns[i] == front[i];
  }

  lemma ClimbsSnoc(front: seq<int>, last: int)
    requires Climbs(front) && forall s :: s in front ==> s < last
    ensures Climbs(front + [last])
  {
    var sns := front + [last];
    forall i, j | 0 <= i < j < |sns| ensures sns[i] < sns[j] {
      if j == |front| { assert front[i] in front; }
    }
  }

  lemma {:induction false} ShipsHold(h: seq<Out>, i: nat)
    requires i < |h| && h[i].Shipped?
    ensures h[i].sn in Ships(h)
    ensures Climbs(Ships(h)) ==> forall j :: i < j < |h| && h[j].Shipped? ==> h[i].sn < h[j].sn
  {
    var front := h[..|h| - 1];
    if i < |front| {
      ShipsHold(front, i);
      if Climbs(Ships(h)) {
        if h[|h| - 1].Shipped? {
          ClimbsFront(Ships(front), h[|h| - 1].sn);
        }
        forall j | i < j < |h| && h[j].Shipped? ensures h[i].sn < h[j].sn {
          if j < |front| { assert front[j] == h[j]; }
        }
      }
    }
  }

  lemma {:induction false} BlobsHold(log: seq<Act>, i: nat, j: nat)
    requires i <= j < |log| && log[i].DidBlob? && log[j].DidBlob? && Climbs(BlobsIn(log))
    ensures log[i].sn in BlobsIn(log) && log[i].sn <= log[j].sn
  {
    var front := log[..|log| - 1];
    if i < |front| {
      if log[|log| - 1].DidBlob? {
        ClimbsFront(BlobsIn(front), log[|log| - 1].sn);
      }
      BlobsHold(front, i, if j < |front| then j else i);
    }
  }

  lemma {:induction false} BlobAt(log: seq<Act>, sn: int) returns (j: nat)
    requires sn in BlobsIn(log)
    ensures j < |log| && log[j] == DidBlob(sn)
  {
    if log[|log| - 1] == DidBlob(sn) { j := |log| - 1; } else { j := BlobAt(log[..|log| - 1], sn); }
  }

  lemma {:induction false} CargoFound(h: seq<Out>, sn: int, u: Uuid)
    ensures CargoOf(h, sn, u).Some? <==> exists i :: 0 <= i < |h| && h[i].Shipped? && h[i].sn == sn && h[i].uuid == u
    ensures var k := LastShip(h, u); k >= 0 && h[k].sn == sn ==> CargoOf(h, sn, u) == Some(h[k].cargo)
  {
    if h != [] {
      var front := h[..|h| - 1];
      CargoFound(front, sn, u);
      if i :| 0 <= i < |front| && front[i].Shipped? && front[i].sn == sn && front[i].uuid == u {
        assert h[i] == front[i];
      }
      if i :| 0 <= i < |h| && h[i].Shipped? && h[i].sn == sn && h[i].uuid == u {
        assert i == |front| || h[i] == front[i];
      }
    }
  }

  /** The last blob of `u` the replica applied is the last one the host shipped. */
  lemma LastBlobIsLastShip(log: seq<Act>, h: seq<Out>, u: Uuid)
    requires BlobsIn(log) == Ships(h) && Climbs(Ships(h))
    ensures var k, q := LastShip(h, u), LastBlob(log, h, u);
      && (q < 0 <==> k < 0)
      && (k >= 0 ==> log[q].sn == h[k].sn && CargoOf(h, log[q].sn, u) == Some(h[k].cargo))
  {
    hide Ships, BlobsIn, CargoOf, Climbs;
    var k, q := LastShip(h, u), LastBlob(log, h, u);
    if q >= 0 { CargoFound(h, log[q].sn, u); }
    LastBlobIsLast(log, h, u);
    LastShipIsLast(h, u);
    if k >= 0 {
      ShipsHold(h, k);
      var j := BlobAt(log, h[k].sn);
      CargoFound(h, h[k].sn, u);
      assert q >= j;
      var i :| 0 <= i < |h| && h[i].Shipped? && h[i].sn == log[q].sn && h[i].uuid == u;
      ShipsHold(h, i);
      BlobsHold(log, j, q);
      assert i <= k;
    }
  }

  // ------------------------------------------------ the exact condition ----

  /** The messages of `u` applied before its last blob. */
  function Earlier(log: seq<Act>, h: seq<Out>, u: Uuid): seq<Message> {
    Of(FastsIn(log[..LastBlob(log, h, u) + 1]), u)
  }

  /** Those sent before it, and those sent after it, of the ones that arrive. */
  function SentBefore(h: seq<Out>, lost: set<int>, u: Uuid): seq<Message> {
    Of(Arrivals(h[..LastShip(h, u) + 1], lost), u)
  }

  function SentAfter(h: seq<Out>, lost: set<int>, u: Uuid): seq<Message> {
    Of(Arrivals(h[LastShip(h, u) + 1..], lost), u)
  }

  /** The messages of `u` that were sent on one side of its last blob and applied on the other:
      overtaken by the blob, or let through ahead of it. */
  function Strays(log: seq<Act>, h: seq<Out>, lost: set<int>, u: Uuid): seq<Message> {
    var n, b, a := |Earlier(log, h, u)|, SentBefore(h, lost, u), SentAfter(h, lost, u);
    if n <= |b| then b[n..] else if n - |b| <= |a| then a[..n - |b|] else []
  }

  /** Those sent and applied after it. */
  function Later(log: seq<Act>, h: seq<Out>, lost: set<int>, u: Uuid): seq<Message> {
    var n, b, a := |Earlier(log, h, u)|, SentBefore(h, lost, u), SentAfter(h, lost, u);
    if n <= |b| then a else if n - |b| <= |a| then a[n - |b|..] else []
  }

  /** No message that changed sides of the last blob leaves a mark, and the "@" registers of that
      blob are current. */
  predicate Undisturbed(v: Held, log: seq<Act>, h: seq<Out>, lost: set<int>, u: Uuid) {
    var k := LastShip(h, u);
    k >= 0 ==>
      && Harmless(h[k].cargo.regs, Strays(log, h, lost, u), Later(log, h, lost, u))
      && Current(h[k].cargo, Reg(v, log, h, u).kept, SentAfter(h, lost, u), Later(log, h, lost, u))
  }

  lemma {:induction false} ArrivalsAppend(a: seq<Out>, b: seq<Out>, lost: set<int>)
    ensures Arrivals(a + b, lost) == Arrivals(a, lost) + Arrivals(b, lost)
  {
    if b == [] {
      assert a + b == a;
    } else {
      assert (a + b)[..|a + b| - 1] == a + b[..|b| - 1];
      ArrivalsAppend(a, b[..|b| - 1], lost);
    }
  }

  /** Applied before and after the last blob, or sent before and after it: the same messages. */
  lemma BothSplits(log: seq<Act>, h: seq<Out>, lost: set<int>, u: Uuid)
    requires Of(FastsIn(log), u) == Of(Arrivals(h, lost), u)
    ensures Earlier(log, h, u) + Of(FastsIn(log[LastBlob(log, h, u) + 1..]), u)
         == SentBefore(h, lost, u) + SentAfter(h, lost, u)
  {
    hide Of, FastsIn, Arrivals, LastBlob, LastShip;
    var q, k := LastBlob(log, h, u) + 1, LastShip(h, u) + 1;
    assert log == log[..q] + log[q..] && h == h[..k] + h[k..];
    InAppend(log[..q], log[q..]);
    ArrivalsAppend(h[..k], h[k..], lost);
    OfAppend(FastsIn(log[..q]), FastsIn(log[q..]), u);
    OfAppend(Arrivals(h[..k], lost), Arrivals(h[k..], lost), u);
  }

  lemma TwoCuts<T>(p: seq<T>, d: seq<T>, b: seq<T>, a: seq<T>)
    requires p + d == b + a
    ensures |p| <= |b| ==> d == b[|p|..] + a
    ensures |p| > |b| ==> |p| - |b| <= |a| && d == a[|p| - |b|..] && a == a[..|p| - |b|] + d
  {
    assert d == (p + d)[|p|..];
    if |p| <= |b| {
      assert (b + a)[|p|..] == b[|p|..] + a;
    } else {
      assert (b + a)[|p|..] == a[|p| - |b|..];
    }
  }

  /** The replica that applied `log` has of `u` what send order and whole blobs would give, iff no
      message that changed sides of the last blob leaves a mark and its "@" registers are current. */
  lemma LogExact(v: Held, log: seq<Act>, h: seq<Out>, lost: set<int>, u: Uuid)
    requires BlobsIn(log) == Ships(h) && Climbs(Ships(h))
    requires Of(FastsIn(log), u) == Of(Arrivals(h, lost), u)
    ensures Reg(v, log, h, u).regs == SentOrder(v.regs, h, lost, u) <==> Undisturbed(v, log, h, lost, u)
  {
    hide Of, FastsIn, BlobsIn, Ships, Climbs, Arrivals, Harmless, Current, WroteAll, GotAll, LastBlob, LastShip,
         CargoOf, Reg, SentOrder, Loaded;
    RegSplit(v, log, h, u);
    SentOrderSplit(v.regs, h, lost, u);
    LastBlobIsLastShip(log, h, u);
    BothSplits(log, h, lost, u);
    var k, q := LastShip(h, u), LastBlob(log, h, u);
    var p, d := Earlier(log, h, u), Of(FastsIn(log[q + 1..]), u);
    var b, a := SentBefore(h, lost, u), SentAfter(h, lost, u);
    TwoCuts(p, d, b, a);
    if k < 0 {
      NothingBefore(log, h, lost, u);
      GotRegs(v, d);
      assert d == a;
    } else {
      BlobExact(h[k].cargo, Reg(v, log[..q], h, u).kept, d, a, Strays(log, h, lost, u), Later(log, h, lost, u));
    }
  }

  lemma NothingBefore(log: seq<Act>, h: seq<Out>, lost: set<int>, u: Uuid)
    requires LastBlob(log, h, u) < 0 && LastShip(h, u) < 0
    ensures Earlier(log, h, u) == [] && SentBefore(h, lost, u) == []
  {
    assert log[..LastBlob(log, h, u) + 1] == [] && h[..LastShip(h, u) + 1] == [];
  }

  // --------------------------------------------- over the step system ----

  /** The run has brought the replica everything of `h` that was not lost, and is at rest. */
  ghost predicate Brought(coldBase: int, fastBase: int, es: seq<Event>, h: seq<Out>, lost: set<int>) {
    && Legal(Start(coldBase, fastBase), es) && NoBoots(es)
    && Completed(es) == Ships(h)
    && var r := Run(Start(coldBase, fastBase), es);
       r.arrived == Arrivals(h, lost) && r.pending == [] && r.m.parked == []
  }

  /** The whole order in which that run applied things. */
  ghost function Applied(coldBase: int, fastBase: int, es: seq<Event>): seq<Act>
    requires Legal(Start(coldBase, fastBase), es)
  {
    LogOf(Start(coldBase, fastBase), es)
  }

  lemma {:induction false} BatchSeen(r: Replica, k: nat)
    requires k <= |r.pending|
    ensures AppliedSome(r, k).0.m.cold.lastSeen == r.m.cold.lastSeen
  {
    if k > 0 { BatchSeen(r, k - 1); }
  }

  lemma StepSeen(r: Replica, e: Event)
    requires Enabled(r, e) && r.m.cold.lastSeen.Some?
    ensures Step(r, e).m.cold.lastSeen == if e.Cold? then Some(e.sn) else r.m.cold.lastSeen
  {
    hide FastDone, Outruns, ReleasedAll, Kept, Due, AppliedSome;
    match e {
      case Fast(msg) =>
        FastDoneFrame(ObservedOn(r.m, msg), msg.sn);
        FastDoneFrame(FastGapCleared(ObservedOn(r.m, msg)), msg.sn);
      case Cold(sn, kind) =>
        ColdInSplit(r, sn, kind);
        if kind.Immediate? || kind.BlobPart? {
          var r2 := Taken(r, sn, kind.Immediate? && kind.resyncEnd);
          ReleaseFrame(DoneWith(r2, sn), Released(r2.m, Some(sn)));
        }
      case Batch(k) =>
        BatchSeen(r, k);
        var (r1, due) := AppliedSome(r, k);
        ReleaseFrame(r1, due);
    }
  }

  /** An ordered cold lane: blobs complete in the order of their numbers. */
  lemma {:induction false} CompletedClimbs(r: Replica, es: seq<Event>)
    requires Legal(r, es) && r.m.cold.lastSeen.Some?
    ensures Climbs(Completed(es)) && Run(r, es).m.cold.lastSeen.Some?
    ensures forall s :: s in Completed(es) ==> s <= Run(r, es).m.cold.lastSeen.value
  {
    hide Step, Climbs;
    if es == [] {
      NothingClimbs();
    } else {
      var front, e := es[..|es| - 1], es[|es| - 1];
      CompletedClimbs(r, front);
      StepSeen(Run(r, front), e);
      if e.Cold? && e.kind.BlobDone? {
        ClimbsSnoc(Completed(front), e.sn);
      } else {
        assert Completed(front) + [] == Completed(front);
      }
    }
  }

  lemma NothingClimbs()
    ensures Climbs([])
  {
  }

  /** The log of such a run holds the host's blobs and, of `u`, what arrives, in send order. */
  lemma LogMatches(coldBase: int, fastBase: int, es: seq<Event>, h: seq<Out>, lost: set<int>, u: Uuid)
    requires Brought(coldBase, fastBase, es, h, lost) && StampsRise(Of(Arrivals(h, lost), u))
    ensures var log := Applied(coldBase, fastBase, es);
      && BlobsIn(log) == Ships(h) && Climbs(Ships(h)) && Of(FastsIn(log), u) == Of(Arrivals(h, lost), u)
    ensures Legal(Start(coldBase, fastBase), es) && NoBoots(es)
  {
    hide Of, FastsIn, BlobsIn, Ships, Climbs, Arrivals, StampsRise, LogOf, Run, Completed;
    var s := Start(coldBase, fastBase);
    CompletedClimbs(s, es);
    LogIsRun(s, es);
    SendOrderKept(coldBase, fastBase, es, u);
    OfEmpty(u);
    var log := Applied(coldBase, fastBase, es);
    assert Of(FastsIn(log), u) + [] == Of(FastsIn(log), u);
    assert [] + FastsIn(log) == FastsIn(log) && BlobsIn(log) + [] == BlobsIn(log);
    assert Run(s, es).dispatched == FastsIn(log);
    assert BlobsIn(log) == [] + Completed(es);
  }

  /** However the lanes interleave and however the blobs are batched, the replica ends with the
      registers of `u` that send order and whole blobs give, iff no message that changed sides of
      the last blob of `u` leaves a mark and the "@" registers of that blob are current. */
  lemma ReplicaExact(coldBase: int, fastBase: int, es: seq<Event>, v: Held,
                     h: seq<Out>, lost: set<int>, u: Uuid)
    requires Brought(coldBase, fastBase, es, h, lost)
    requires StampsRise(Of(Arrivals(h, lost), u))
    ensures Reg(v, Applied(coldBase, fastBase, es), h, u).regs == SentOrder(v.regs, h, lost, u)
       <==> Undisturbed(v, Applied(coldBase, fastBase, es), h, lost, u)
  {
    hide *;
    LogMatches(coldBase, fastBase, es, h, lost, u);
    LogExact(v, Applied(coldBase, fastBase, es), h, lost, u);
  }
}
