/**
 * Sequence bookkeeping of one lane (qcbridge/ring1/protocol.py, SeqTracker): gaps are
 * detected and remembered, never replayed.
 */
module SeqTracking {
  import opened Wrappers

  datatype Track = Track(lastSeen: Option<int>, gaps: nat, firstMissing: Option<int>)

  predicate Follows(t: Track, sn: int) {
    t.lastSeen.None? || sn == t.lastSeen.value + 1
  }

  function Observed(t: Track, sn: int): Track {
    Track(
      if t.lastSeen.None? || sn > t.lastSeen.value then Some(sn) else t.lastSeen,
      if Follows(t, sn) then t.gaps else t.gaps + 1,
      if t.firstMissing.None? && t.lastSeen.Some? && sn > t.lastSeen.value + 1
      then Some(t.lastSeen.value + 1) else t.firstMissing)
  }

  function Cleared(t: Track): Track {
    t.(firstMissing := None)
  }

  class SeqTracker {
    var lastSeen: Option<int>
    var gaps: nat
    var firstMissing: Option<int>

    function State(): Track
      reads this
    {
      Track(lastSeen, gaps, firstMissing)
    }

    constructor ()
      ensures State() == Track(None, 0, None)
    {
      lastSeen, gaps, firstMissing := None, 0, None;
    }

    method Observe(sn: int) returns (contiguous: bool)
      modifies this
      ensures State() == Observed(old(State()), sn) && contiguous == Follows(old(State()), sn)
    {
      contiguous := lastSeen.None? || sn == lastSeen.value + 1;
      if !contiguous {
        gaps := gaps + 1;
        if firstMissing.None? && lastSeen.Some? && sn > lastSeen.value + 1 {
          firstMissing := Some(lastSeen.value + 1);
        }
      }
      if lastSeen.None? || sn > lastSeen.value {
        lastSeen := Some(sn);
      }
    }

    method ClearGap()
      modifies this
      ensures State() == Cleared(old(State()))
    {
      firstMissing := None;
    }
  }

  // -------------------------------------------------------------- runs ----

  datatype Op = Saw(sn: int) | Repaired

  function After(t: Track, ops: seq<Op>): Track {
    if ops == [] then t
    else
      var u := After(t, ops[..|ops| - 1]);
      match ops[|ops| - 1]
      case Saw(n) => Observed(u, n)
      case Repaired => Cleared(u)
  }

  /** The newest seq seen, counting the primed baseline. */
  function Newest(base: int, ops: seq<Op>): int {
    if ops == [] then base
    else
      match ops[|ops| - 1]
      case Saw(n) => n
      case Repaired => Newest(base, ops[..|ops| - 1])
  }

  /** An ordered lane: every seq is above all earlier ones. */
  predicate Increasing(base: int, ops: seq<Op>) {
    ops != [] ==>
      && Increasing(base, ops[..|ops| - 1])
      && (ops[|ops| - 1].Saw? ==> ops[|ops| - 1].sn > Newest(base, ops[..|ops| - 1]))
  }

  /** Where the newest seq stood when the last hole was closed. */
  function Settled(base: int, ops: seq<Op>): int {
    if ops == [] then base
    else if ops[|ops| - 1].Repaired? then Newest(base, ops)
    else Settled(base, ops[..|ops| - 1])
  }

  function Seen(ops: seq<Op>): set<int> {
    if ops == [] then {}
    else Seen(ops[..|ops| - 1]) + match ops[|ops| - 1] case Saw(n) => {n} case Repaired => {}
  }

  /** On an ordered lane primed by the hello, `first_missing` is exactly the least seq since
      the last repair that never arrived; there is none iff nothing is missing. */
  lemma {:induction false} FirstMissingExact(base: int, ops: seq<Op>)
    requires Increasing(base, ops)
    ensures var t := After(Track(Some(base), 0, None), ops);
      && t.lastSeen == Some(Newest(base, ops))
      && base <= Settled(base, ops) <= Newest(base, ops)
      && (forall i :: i in Seen(ops) ==> base < i <= Newest(base, ops))
      && match t.firstMissing
         case None => forall i :: Settled(base, ops) < i <= Newest(base, ops) ==> i in Seen(ops)
         case Some(m) =>
           && Settled(base, ops) < m < Newest(base, ops) && m !in Seen(ops)
           && forall i :: Settled(base, ops) < i < m ==> i in Seen(ops)
  {
    if ops != [] {
      FirstMissingExact(base, ops[..|ops| - 1]);
    }
  }

  /** A stretch that never arrived ends with `m`. */
  predicate EndsHole(ops: seq<Op>, m: int) {
    m !in Seen(ops) && m + 1 in Seen(ops)
  }

  function Holes(base: int, ops: seq<Op>): set<int> {
    set m | base < m < Newest(base, ops) && EndsHole(ops, m)
  }

  /** All seen lies above the baseline, up to the newest. */
  predicate Spans(base: int, ops: seq<Op>) {
    && (Newest(base, ops) == base || Newest(base, ops) in Seen(ops))
    && forall i :: i in Seen(ops) ==> base < i <= Newest(base, ops)
  }

  lemma OneHole(base: int, front: seq<Op>, op: Op, m: int)
    requires Increasing(base, front + [op]) && Spans(base, front)
    ensures var jump := op.Saw? && op.sn != Newest(base, front) + 1;
      m in Holes(base, front + [op]) <==> m in Holes(base, front) || (jump && m == op.sn - 1)
  {
    assert (front + [op])[..|front|] == front;
    if op.Saw? {
      assert Seen(front + [op]) == Seen(front) + {op.sn};
      hide Seen, Increasing;
      assert m in Seen(front) ==> m <= Newest(base, front);
      assert m + 1 in Seen(front) ==> m + 1 <= Newest(base, front);
    }
  }

  lemma HolesGrow(base: int, front: seq<Op>, op: Op)
    requires Increasing(base, front + [op]) && Spans(base, front)
    ensures Holes(base, front + [op]) ==
      Holes(base, front) + if op.Saw? && op.sn != Newest(base, front) + 1 then {op.sn - 1} else {}
    ensures op.Saw? ==> op.sn - 1 !in Holes(base, front)
  {
    assert (front + [op])[..|front|] == front;
    forall m ensures
      m in Holes(base, front + [op]) <==>
        m in Holes(base, front) || (op.Saw? && op.sn != Newest(base, front) + 1 && m == op.sn - 1)
    {
      OneHole(base, front, op, m);
    }
    hide EndsHole, Seen, Newest;
  }

  /** On an ordered lane the gap count is the number of stretches missing, repaired or not: 0 iff nothing
      up to the newest ever failed to arrive. */
  lemma {:induction false} GapsCountHoles(base: int, ops: seq<Op>)
    requires Increasing(base, ops)
    ensures After(Track(Some(base), 0, None), ops).gaps == |Holes(base, ops)|
    ensures Spans(base, ops)
  {
    FirstMissingExact(base, ops);
    if ops != [] {
      var front, op := ops[..|ops| - 1], ops[|ops| - 1];
      assert ops == front + [op];
      GapsCountHoles(base, front);
      FirstMissingExact(base, front);
      HolesGrow(base, front, op);
    }
  }

  /** The ordered lane is needed: a late arrival fills the hole but does not close it. */
  lemma LateArrivalLeavesTheHole()
    ensures var ops := [Saw(1), Saw(3), Saw(2)];
      var t := After(Track(Some(0), 0, None), ops);
      !Increasing(0, ops) && 2 in Seen(ops) && t.firstMissing == Some(2)
  {
    var a := [Saw(1)];
    var b := [Saw(1), Saw(3)];
    var c := [Saw(1), Saw(3), Saw(2)];
    assert c[..2] == b && b[..1] == a && a[..0] == [];
    assert After(Track(Some(0), 0, None), a) == Track(Some(1), 0, None);
    assert After(Track(Some(0), 0, None), b) == Track(Some(3), 1, Some(2));
    assert Newest(0, b) == 3;
  }
}
