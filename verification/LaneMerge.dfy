/**
 * Merging the two ordered lanes into one apply order (qcbridge/ring1/merge.py).
 */
module LaneMerge {
  import opened Wrappers
  import opened SeqTracking
  import opened Wire

  datatype Merger = Merger(
    cold: Track, fast: Track,
    coldApplied: int,       // highest cold seq fully applied
    fastApplied: int,       // highest contiguous fast seq applied
    fastDone: set<int>,     // applied fast seqs above fastApplied
    parked: seq<Message>)   // in arrival order

  const FRESH: Merger := Merger(Track(None, 0, None), Track(None, 0, None), 0, 0, {}, [])

  datatype GapLane = NoGap | ColdGap | FastGap | BothGap

  function GapOf(m: Merger): GapLane {
    match (m.cold.firstMissing, m.fast.firstMissing)
    case (Some(_), Some(_)) => BothGap
    case (Some(_), None) => ColdGap
    case (None, Some(_)) => FastGap
    case (None, None) => NoGap
  }

  function ObservedOn(m: Merger, msg: Message): Merger {
    if msg.sn.None? then m
    else if msg.lane == FastLane then m.(fast := Observed(m.fast, msg.sn.value))
    else m.(cold := Observed(m.cold, msg.sn.value))
  }

  predicate Admissible(m: Merger, msg: Message) {
    msg.lane == ColdLane || msg.after <= m.coldApplied
  }

  function Parked(m: Merger, msg: Message): Merger {
    if Admissible(m, msg) then m else m.(parked := m.parked + [msg])
  }

  /** The parked messages whose cold seq is reached, and the others, both in arrival order. */
  function Due(parked: seq<Message>, c: int): seq<Message> {
    if parked == [] then []
    else Due(parked[..|parked| - 1], c) + if parked[|parked| - 1].after <= c then [parked[|parked| - 1]] else []
  }

  function Kept(parked: seq<Message>, c: int): seq<Message> {
    if parked == [] then []
    else Kept(parked[..|parked| - 1], c) + if parked[|parked| - 1].after > c then [parked[|parked| - 1]] else []
  }

  function Raised(m: Merger, sn: Option<int>): int {
    if sn.Some? && sn.value > m.coldApplied then sn.value else m.coldApplied
  }

  function ColdDone(m: Merger, sn: Option<int>): Merger {
    var c := Raised(m, sn);
    m.(coldApplied := c, parked := Kept(m.parked, c))
  }

  function Released(m: Merger, sn: Option<int>): seq<Message> {
    Due(m.parked, Raised(m, sn))
  }

  /** Absorb the applied seqs that follow `k` without a hole. */
  function Advance(k: int, done: set<int>): (int, set<int>)
    decreases |done|
  {
    if k + 1 in done then Advance(k + 1, done - {k + 1}) else (k, done)
  }

  function FastDone(m: Merger, sn: Option<int>): Merger {
    if sn.None? || sn.value <= m.fastApplied then m
    else
      var (k, rest) := Advance(m.fastApplied, m.fastDone + {sn.value});
      m.(fastApplied := k, fastDone := rest)
  }

  function FastGapCleared(m: Merger): Merger {
    var k := if m.fast.lastSeen.Some? && m.fast.lastSeen.value > m.fastApplied
             then m.fast.lastSeen.value else m.fastApplied;
    m.(fast := Cleared(m.fast), fastApplied := k, fastDone := set s | s in m.fastDone && s > k)
  }

  function ColdGapCleared(m: Merger): Merger {
    m.(cold := Cleared(m.cold))
  }

  // ---------------------------------------------------------- the class ----

  lemma FilterAppend(parked: seq<Message>, i: nat, c: int)
    requires i < |parked|
    ensures Due(parked[..i + 1], c) == Due(parked[..i], c) + if parked[i].after <= c then [parked[i]] else []
    ensures Kept(parked[..i + 1], c) == Kept(parked[..i], c) + if parked[i].after > c then [parked[i]] else []
  {
    assert parked[..i + 1][..i] == parked[..i];
  }

  lemma {:induction false} NothingDue(parked: seq<Message>, c: int)
    requires Due(parked, c) == []
    ensures Kept(parked, c) == parked
  {
    if parked != [] {
      var front, last := parked[..|parked| - 1], parked[|parked| - 1];
      assert parked == front + [last];
      assert Due(parked, c) == if last.after <= c then Due(front, c) + [last] else Due(front, c);
      NothingDue(front, c);
    }
  }

  class LaneMerger {
    var cold: SeqTracker
    var fast: SeqTracker
    var coldApplied: int
    var fastApplied: int
    var fastDone: set<int>
    var parked: seq<Message>

    predicate Valid()
      reads this
    {
      cold != fast
    }

    function State(): Merger
      reads this, cold, fast
    {
      Merger(cold.State(), fast.State(), coldApplied, fastApplied, fastDone, parked)
    }

    constructor ()
      ensures Valid() && fresh(cold) && fresh(fast) && State() == FRESH
    {
      cold := new SeqTracker();
      fast := new SeqTracker();
      coldApplied, fastApplied, fastDone, parked := 0, 0, {}, [];
    }

    method GapLaneOf() returns (g: GapLane)
      ensures g == GapOf(State())
    {
      var c := cold.firstMissing.Some?;
      var f := fast.firstMissing.Some?;
      g := if c && f then BothGap else if c then ColdGap else if f then FastGap else NoGap;
    }

    method Observe(msg: Message) returns (contiguous: bool)
      requires Valid()
      modifies cold, fast
      ensures State() == ObservedOn(old(State()), msg)
      ensures contiguous <==>
        (msg.sn.None?
         || Follows(if msg.lane == FastLane then old(fast.State()) else old(cold.State()), msg.sn.value))
    {
      if msg.sn.None? {
        return true;
      }
      if msg.lane == FastLane {
        contiguous := fast.Observe(msg.sn.value);
      } else {
        contiguous := cold.Observe(msg.sn.value);
      }
    }

    /** A fast message: true = apply now; false = parked until the cold seq it names has applied. */
    method Admit(msg: Message) returns (now: bool)
      modifies this`parked
      ensures now == Admissible(old(State()), msg) && State() == Parked(old(State()), msg)
    {
      if msg.lane != FastLane {
        return true;
      }
      if msg.after <= coldApplied {
        return true;
      }
      parked := parked + [msg];
      return false;
    }

    method MarkColdDone(sn: Option<int>) returns (due: seq<Message>)
      modifies this`coldApplied, this`parked
      ensures State() == ColdDone(old(State()), sn) && due == Released(old(State()), sn)
    {
      if sn.Some? && sn.value > coldApplied {
        coldApplied := sn.value;
      }
      due := [];
      var rest := [];
      for i := 0 to |parked|
        invariant parked == old(parked) && coldApplied == Raised(old(State()), sn)
        invariant due == Due(parked[..i], coldApplied) && rest == Kept(parked[..i], coldApplied)
      {
        FilterAppend(parked, i, coldApplied);
        if parked[i].after <= coldApplied {
          due := due + [parked[i]];
        } else {
          rest := rest + [parked[i]];
        }
      }
      assert parked[..|parked|] == parked;
      if due != [] {
        parked := rest;
      } else {
        NothingDue(parked, coldApplied);
      }
    }

    method MarkFastDone(sn: Option<int>)
      modifies this`fastApplied, this`fastDone
      ensures State() == FastDone(old(State()), sn)
    {
      if sn.None? || sn.value <= fastApplied {
        return;
      }
      fastDone := fastDone + {sn.value};
      ghost var k, d := fastApplied, fastDone;
      while fastApplied + 1 in fastDone
        invariant Advance(fastApplied, fastDone) == Advance(k, d)
        decreases |fastDone|
      {
        fastApplied := fastApplied + 1;
        fastDone := fastDone - {fastApplied};
      }
    }

    method ClearFastGap()
      requires Valid()
      modifies this`fastApplied, this`fastDone, fast
      ensures State() == FastGapCleared(old(State()))
    {
      fast.ClearGap();
      if fast.lastSeen.Some? && fast.lastSeen.value > fastApplied {
        fastApplied := fast.lastSeen.value;
      }
      fastDone := set s | s in fastDone && s > fastApplied;
    }

    method ClearColdGap()
      requires Valid()
      modifies cold
      ensures State() == ColdGapCleared(old(State()))
    {
      cold.ClearGap();
    }

    method Reset()
      modifies this
      ensures Valid() && fresh(cold) && fresh(fast) && State() == FRESH
    {
      cold := new SeqTracker();
      fast := new SeqTracker();
      coldApplied, fastApplied, fastDone, parked := 0, 0, {}, [];
    }
  }

  // -------------------------------------------------- fast_applied exact ----

  lemma {:induction false} AdvanceExact(k: int, done: set<int>)
    requires forall s :: s in done ==> s > k
    ensures var (j, rest) := Advance(k, done);
      && k <= j && (forall i :: k < i <= j ==> i in done) && j + 1 !in done
      && rest == set s | s in done && s > j
    decreases |done|
  {
    if k + 1 in done {
      AdvanceExact(k + 1, done - {k + 1});
      var (j, rest) := Advance(k + 1, done - {k + 1});
      assert (j, rest) == Advance(k, done);
      forall i | k < i <= j ensures i in done {
        if i > k + 1 { assert i in done - {k + 1}; }
      }
    }
  }

  /** `k` is the largest number with everything from the baseline to it applied; `done` are the
      applied seqs above it. */
  ghost predicate ExactMark(k: int, done: set<int>, base: int, applied: set<int>) {
    && base <= k
    && (forall i :: base < i <= k ==> i in applied)
    && k + 1 !in applied
    && done == set s | s in applied && s > k
  }

  lemma ExactMarkUnique(k: int, d: set<int>, j: int, e: set<int>, base: int, applied: set<int>)
    requires ExactMark(k, d, base, applied) && ExactMark(j, e, base, applied)
    ensures k == j && d == e
  {
    assert k < j ==> k + 1 in applied;
    assert j < k ==> j + 1 in applied;
  }

  lemma FastDoneExact(m: Merger, s: int, base: int, applied: set<int>)
    requires ExactMark(m.fastApplied, m.fastDone, base, applied)
    requires forall a :: a in applied ==> a > base
    ensures var n := FastDone(m, Some(s));
      s > base ==> ExactMark(n.fastApplied, n.fastDone, base, applied + {s})
    ensures s <= base ==> FastDone(m, Some(s)) == m
  {
    if s > m.fastApplied {
      AdvanceExact(m.fastApplied, m.fastDone + {s});
    }
  }

  function AllDone(m: Merger, seqs: seq<int>): Merger {
    if seqs == [] then m else FastDone(AllDone(m, seqs[..|seqs| - 1]), Some(seqs[|seqs| - 1]))
  }

  function SetOf(seqs: seq<int>): set<int> {
    set s | s in seqs
  }

  /** For any order of applications `fast_applied` is the largest k with everything from the
      baseline to k applied, and the set beside it holds just the applied seqs above k. */
  lemma {:induction false} FastAppliedExact(m: Merger, seqs: seq<int>)
    requires m.fastDone == {} && forall s :: s in seqs ==> s > m.fastApplied
    ensures var n := AllDone(m, seqs);
      ExactMark(n.fastApplied, n.fastDone, m.fastApplied, SetOf(seqs))
  {
    if seqs != [] {
      var front := seqs[..|seqs| - 1];
      assert forall s :: s in front ==> s in seqs;
      FastAppliedExact(m, front);
      FastDoneExact(AllDone(m, front), seqs[|seqs| - 1], m.fastApplied, SetOf(front));
      assert SetOf(seqs) == SetOf(front) + {seqs[|seqs| - 1]};
    }
  }

  lemma {:induction false} AllDoneFrame(m: Merger, seqs: seq<int>)
    ensures AllDone(m, seqs).(fastApplied := m.fastApplied, fastDone := m.fastDone) == m
  {
    if seqs != [] {
      AllDoneFrame(m, seqs[..|seqs| - 1]);
    }
  }

  /** The order of application never matters. */
  lemma OrderNeverMatters(m: Merger, a: seq<int>, b: seq<int>)
    requires m.fastDone == {} && SetOf(a) == SetOf(b)
    requires forall s :: s in SetOf(a) ==> s > m.fastApplied
    ensures AllDone(m, a) == AllDone(m, b)
  {
    assert forall s :: s in a ==> s in SetOf(a);
    assert forall s :: s in b ==> s in SetOf(b);
    FastAppliedExact(m, a);
    FastAppliedExact(m, b);
    var x, y := AllDone(m, a), AllDone(m, b);
    ExactMarkUnique(x.fastApplied, x.fastDone, y.fastApplied, y.fastDone, m.fastApplied, SetOf(a));
    AllDoneFrame(m, a);
    AllDoneFrame(m, b);
  }

  // ------------------------------------------------------ parked messages ----

  lemma {:induction false} SplitParked(parked: seq<Message>, c: int)
    ensures multiset(Due(parked, c)) + multiset(Kept(parked, c)) == multiset(parked)
    ensures forall m :: m in Due(parked, c) ==> m in parked && m.after <= c
    ensures forall m :: m in Kept(parked, c) ==> m in parked && m.after > c
  {
    if parked != [] {
      SplitParked(parked[..|parked| - 1], c);
      assert parked == parked[..|parked| - 1] + [parked[|parked| - 1]];
    }
  }
}
