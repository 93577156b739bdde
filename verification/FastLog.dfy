/**
 * The host's bounded log of what left on the fast lane (qcbridge/ring1/fastlog.py).
 */
module FastLogs {
  import opened Wrappers
  import opened Wire

  datatype Kind = T1 | Tomb
  datatype Entry = Entry(sn: int, uuid: Uuid, kind: Kind)

  /** An insertion-ordered dictionary from uuid to kind. */
  datatype Window = Window(keys: seq<Uuid>, kinds: map<Uuid, Kind>)

  const EMPTY: Window := Window([], map[])

  ghost predicate Ok(w: Window) {
    && (forall i, j :: 0 <= i < j < |w.keys| ==> w.keys[i] != w.keys[j])
    && (forall u :: u in w.keys <==> u in w.kinds)
  }

  /** `last[uuid] = kind`: a key keeps its place, a new one goes last. */
  function Put(w: Window, u: Uuid, kind: Kind): Window {
    Window(if u in w.kinds then w.keys else w.keys + [u], w.kinds[u := kind])
  }

  function Items(w: Window): seq<(Uuid, Kind)>
    requires Ok(w)
  {
    seq(|w.keys|, i requires 0 <= i < |w.keys| => (w.keys[i], w.kinds[w.keys[i]]))
  }

  function WindowOf(entries: seq<Entry>, g: int): Window {
    if entries == [] then EMPTY
    else
      var w, e := WindowOf(entries[..|entries| - 1], g), entries[|entries| - 1];
      if e.sn >= g then Put(w, e.uuid, e.kind) else w
  }

  /** The last `capacity` entries: what a bounded deque still holds. */
  function Remembered(history: seq<Entry>, capacity: nat): seq<Entry> {
    if |history| <= capacity then history else history[|history| - capacity..]
  }

  class FastLog {
    const capacity: nat
    var entries: seq<Entry>
    ghost var history: seq<Entry>

    ghost predicate Valid()
      reads this
    {
      entries == Remembered(history, capacity)
    }

    constructor (capacity: nat)
      ensures Valid() && history == [] && this.capacity == capacity
    {
      this.capacity := capacity;
      entries, history := [], [];
    }

    method Record(sn: int, uuid: Uuid, kind: Kind)
      requires Valid()
      modifies this
      ensures Valid() && history == old(history) + [Entry(sn, uuid, kind)]
    {
      history := history + [Entry(sn, uuid, kind)];
      entries := entries + [Entry(sn, uuid, kind)];
      if |entries| > capacity {
        entries := entries[1..];
      }
    }

    method OldestSeq() returns (r: Option<int>)
      ensures r == if entries == [] then None else Some(entries[0].sn)
    {
      r := if entries != [] then Some(entries[0].sn) else None;
    }

    method Covers(sn: Option<int>) returns (yes: bool)
      ensures yes <==> sn.Some? && Covered(entries, sn.value)
    {
      var oldest := OldestSeq();
      yes := sn.Some? && oldest.Some? && sn.value >= oldest.value;
    }

    method WindowSince(g: int) returns (items: seq<(Uuid, Kind)>)
      ensures Ok(WindowOf(entries, g)) && items == Items(WindowOf(entries, g))
    {
      var w := EMPTY;
      for i := 0 to |entries|
        invariant w == WindowOf(entries[..i], g)
      {
        assert entries[..i + 1][..i] == entries[..i];
        if entries[i].sn >= g {
          w := Put(w, entries[i].uuid, entries[i].kind);
        }
      }
      assert entries[..|entries|] == entries;
      WindowMeans(entries, g);
      items := Items(w);
    }

    method Clear()
      modifies this
      ensures Valid() && history == [] && entries == []
    {
      entries, history := [], [];
    }
  }

  predicate Covered(entries: seq<Entry>, g: int) {
    entries != [] && g >= entries[0].sn
  }

  // ------------------------------------------------ what a window says ----

  /** The kind of the last message at or after `g` that names `u`. */
  function LastKind(entries: seq<Entry>, g: int, u: Uuid): Option<Kind> {
    if entries == [] then None
    else
      var e := entries[|entries| - 1];
      if e.sn >= g && e.uuid == u then Some(e.kind) else LastKind(entries[..|entries| - 1], g, u)
  }

  /** A window names each datablock sent at or after `g` once, with its last kind. */
  lemma {:induction false} WindowMeans(entries: seq<Entry>, g: int)
    ensures var w := WindowOf(entries, g);
      && Ok(w)
      && forall u :: if u in w.kinds then LastKind(entries, g, u) == Some(w.kinds[u])
                     else LastKind(entries, g, u) == None
  {
    if entries != [] {
      WindowMeans(entries[..|entries| - 1], g);
    }
  }

  /** First-seen order: a later message never moves a datablock already named. */
  lemma WindowOrder(entries: seq<Entry>, e: Entry, g: int)
    ensures WindowOf(entries, g).keys <= WindowOf(entries + [e], g).keys
  {
    assert (entries + [e])[..|entries|] == entries;
  }

  predicate Rising(entries: seq<Entry>) {
    forall i, j :: 0 <= i < j < |entries| ==> entries[i].sn < entries[j].sn
  }

  lemma {:induction false} OldEntriesDoNotMatter(a: seq<Entry>, b: seq<Entry>, g: int)
    requires forall e :: e in a ==> e.sn < g
    ensures WindowOf(a + b, g) == WindowOf(b, g)
  {
    hide Put;
    if b != [] {
      assert (a + b)[..|a + b| - 1] == a + b[..|b| - 1];
      OldEntriesDoNotMatter(a, b[..|b| - 1], g);
    } else if a != [] {
      assert a + b == a;
      assert a[..|a| - 1] + [] == a[..|a| - 1];
      OldEntriesDoNotMatter(a[..|a| - 1], [], g);
    }
  }

  /** The bounded log loses nothing it claims to cover: its window from a covered hole is the
      window of everything ever sent. */
  lemma CoveredWindowComplete(history: seq<Entry>, capacity: nat, g: int)
    requires Rising(history) && Covered(Remembered(history, capacity), g)
    ensures WindowOf(Remembered(history, capacity), g) == WindowOf(history, g)
  {
    if |history| > capacity {
      var cut := |history| - capacity;
      assert history == history[..cut] + history[cut..];
      assert forall e :: e in history[..cut] ==> e.sn < history[cut].sn;
      OldEntriesDoNotMatter(history[..cut], history[cut..], g);
    }
  }

  /** What the log covers is what it still holds, to the entry. */
  lemma CoversExactly(history: seq<Entry>, capacity: nat, i: nat)
    requires Rising(history) && i < |history|
    ensures Covered(Remembered(history, capacity), history[i].sn) <==> i + capacity >= |history| && capacity > 0
  {
    var cut := if |history| <= capacity then 0 else |history| - capacity;
    assert Remembered(history, capacity) == history[cut..];
    if cut < |history| {
      assert history[cut..][0] == history[cut];
      assert i < cut ==> history[i].sn < history[cut].sn;
      assert cut < i ==> history[cut].sn < history[i].sn;
    }
  }

  /** Below what it covers it may not: the newest entry dropped is missing from its own window. */
  lemma UncoveredWindowMisses(history: seq<Entry>, capacity: nat)
    requires Rising(history) && 0 < capacity < |history|
    requires forall i :: |history| - capacity <= i < |history| ==>
      history[i].uuid != history[|history| - capacity - 1].uuid
    ensures var cut := |history| - capacity;
      var g := history[cut - 1].sn;
      && !Covered(Remembered(history, capacity), g)
      && LastKind(Remembered(history, capacity), g, history[cut - 1].uuid) == None
      && LastKind(history, g, history[cut - 1].uuid) == Some(history[cut - 1].kind)
  {
    hide LastKind;
    var cut := |history| - capacity;
    var rest := history[cut..];
    assert forall i :: 0 <= i < |rest| ==> rest[i] == history[cut + i];
    NotNamed(rest, history[cut - 1].sn, history[cut - 1].uuid);
    LastNamed(history, cut - 1, history[cut - 1].sn);
  }

  lemma {:induction false} NotNamed(entries: seq<Entry>, g: int, u: Uuid)
    requires forall i :: 0 <= i < |entries| ==> entries[i].uuid != u
    ensures LastKind(entries, g, u) == None
  {
    if entries != [] { NotNamed(entries[..|entries| - 1], g, u); }
  }

  lemma {:induction false} LastNamed(entries: seq<Entry>, i: nat, g: int)
    requires i < |entries| && entries[i].sn >= g
    requires forall j :: i < j < |entries| ==> entries[j].uuid != entries[i].uuid
    ensures LastKind(entries, g, entries[i].uuid) == Some(entries[i].kind)
  {
    if i < |entries| - 1 { LastNamed(entries[..|entries| - 1], i, g); }
  }
}
