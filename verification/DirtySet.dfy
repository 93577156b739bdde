/**
 * The host's dirty set and debouncer (qcbridge/ring1/dirtyset.py, qcbridge/ring1/classifier.py).
 */
module DirtySets {
  import opened Wire
  import opened Wrappers

  /** `uuid -> dirty(tier) | tombstone`. */
  datatype Mark = T1 | T2 | Tomb
  datatype Entry = Entry(uuid: Uuid, mark: Mark)

  /** The entries, the order their keys were first put in, and the uuids the peer may know. */
  datatype Dirty = Dirty(marks: map<Uuid, Mark>, order: seq<Uuid>, known: set<Uuid>)

  predicate Has(d: Dirty, u: Uuid, m: Mark) {
    u in d.marks && d.marks[u] == m
  }

  /** The tier is a one-way ratchet. */
  function Higher(a: Mark, b: Mark): Mark {
    if a == T2 then a else b
  }

  function Put(d: Dirty, u: Uuid, m: Mark): Dirty {
    d.(marks := d.marks[u := m], order := if u in d.marks then d.order else d.order + [u])
  }

  function Without(order: seq<Uuid>, u: Uuid): seq<Uuid> {
    if order == [] then []
    else
      var rest, last := Without(order[..|order| - 1], u), order[|order| - 1];
      if last == u then rest else rest + [last]
  }

  function Marked(d: Dirty, u: Uuid, tier: Mark): Dirty {
    if Has(d, u, Tomb) then d
    else Put(d, u, if u in d.marks then Higher(d.marks[u], tier) else tier)
  }

  function Popped(d: Dirty, u: Uuid): Dirty {
    d.(marks := d.marks - {u}, order := Without(d.order, u))
  }

  function Deleted(d: Dirty, u: Uuid): Dirty {
    if u !in d.known then Popped(d, u) else Put(d, u, Tomb)
  }

  function Assumed(d: Dirty, u: Uuid): Dirty {
    d.(known := d.known + {u})
  }

  function RequeuedTomb(d: Dirty, u: Uuid): Dirty {
    Put(d, u, Tomb).(known := d.known + {u})
  }

  /** The keys of `us` that are tombstones, and the entries of the rest, in order. */
  function Tombs(d: Dirty, us: seq<Uuid>): seq<Uuid> {
    if us == [] then []
    else
      var rest, u := Tombs(d, us[..|us| - 1]), us[|us| - 1];
      if Has(d, u, Tomb) then rest + [u] else rest
  }

  function Dirties(d: Dirty, us: seq<Uuid>): seq<Entry> {
    if us == [] then []
    else
      var rest, u := Dirties(d, us[..|us| - 1]), us[|us| - 1];
      if u in d.marks && d.marks[u] != Tomb then rest + [Entry(u, d.marks[u])] else rest
  }

  /** Drained uuids join the peer-may-know set; tombstoned ones leave it. */
  function Drained(d: Dirty): Dirty {
    Dirty(map[], [], set u | u in d.known + d.marks.Keys && !Has(d, u, Tomb) :: u)
  }

  /** The peer-may-know set part-way through a drain. */
  function KnownTo(d: Dirty, us: seq<Uuid>): set<Uuid> {
    if us == [] then d.known
    else
      var k, u := KnownTo(d, us[..|us| - 1]), us[|us| - 1];
      if Has(d, u, Tomb) then k - {u} else k + {u}
  }

  ghost predicate Distinct<T>(s: seq<T>) {
    forall i, j :: 0 <= i < j < |s| ==> s[i] != s[j]
  }

  /** The order lists every key once. */
  ghost predicate Keyed(d: Dirty) {
    (forall u :: u in d.order <==> u in d.marks) && Distinct(d.order)
  }

  lemma DistinctSnoc<T>(s: seq<T>, x: T)
    ensures Distinct(s + [x]) <==> Distinct(s) && x !in s
  {
    var t := s + [x];
    assert forall i :: 0 <= i < |s| ==> t[i] == s[i];
    assert t[|s|] == x;
  }

  lemma {:induction false} WithoutMeans(order: seq<Uuid>, u: Uuid)
    requires Distinct(order)
    ensures Distinct(Without(order, u)) && forall v :: v in Without(order, u) <==> v in order && v != u
  {
    hide Distinct;
    if order == [] {
    } else {
      var front, last := order[..|order| - 1], order[|order| - 1];
      assert order == front + [last];
      DistinctSnoc(front, last);
      WithoutMeans(front, u);
      DistinctSnoc(Without(front, u), last);
    }
  }

  lemma KeyedKept(d: Dirty, u: Uuid, m: Mark)
    requires Keyed(d)
    ensures Keyed(Put(d, u, m)) && Keyed(Popped(d, u)) && Keyed(Drained(d))
  {
    WithoutMeans(d.order, u);
    DistinctSnoc(d.order, u);
  }

  lemma TombsSnoc(d: Dirty, us: seq<Uuid>, u: Uuid)
    ensures Tombs(d, us + [u]) == if Has(d, u, Tomb) then Tombs(d, us) + [u] else Tombs(d, us)
  {
    assert (us + [u])[..|us|] == us;
  }

  lemma DirtiesSnoc(d: Dirty, us: seq<Uuid>, u: Uuid)
    ensures Dirties(d, us + [u]) ==
      if u in d.marks && d.marks[u] != Tomb then Dirties(d, us) + [Entry(u, d.marks[u])] else Dirties(d, us)
  {
    assert (us + [u])[..|us|] == us;
  }

  lemma KnownSnoc(d: Dirty, us: seq<Uuid>, u: Uuid)
    ensures KnownTo(d, us + [u]) == if Has(d, u, Tomb) then KnownTo(d, us) - {u} else KnownTo(d, us) + {u}
  {
    assert (us + [u])[..|us|] == us;
  }

  lemma DrainStarts(d: Dirty)
    ensures Tombs(d, []) == [] && Dirties(d, []) == [] && KnownTo(d, []) == d.known
  {
  }

  lemma {:induction false} DrainLists(d: Dirty, us: seq<Uuid>)
    requires Distinct(us)
    ensures forall u :: u in Tombs(d, us) <==> u in us && Has(d, u, Tomb)
    ensures forall e :: e in Dirties(d, us) <==> e.uuid in us && e.mark != Tomb && Has(d, e.uuid, e.mark)
    ensures Distinct(Tombs(d, us))
    ensures forall i, j :: 0 <= i < j < |Dirties(d, us)| ==> Dirties(d, us)[i].uuid != Dirties(d, us)[j].uuid
  {
    if us == [] {
    } else {
      var front, last := us[..|us| - 1], us[|us| - 1];
      assert us == front + [last];
      DistinctSnoc(front, last);
      DrainLists(d, front);
      TombsSnoc(d, front, last);
      DirtiesSnoc(d, front, last);
      DistinctSnoc(Tombs(d, front), last);
    }
  }

  lemma {:induction false} DrainKnows(d: Dirty, us: seq<Uuid>)
    requires Distinct(us)
    ensures forall u :: u in KnownTo(d, us) <==> if u in us then !Has(d, u, Tomb) else u in d.known
  {
    if us == [] {
    } else {
      var front, last := us[..|us| - 1], us[|us| - 1];
      assert us == front + [last];
      DistinctSnoc(front, last);
      DrainKnows(d, front);
      KnownSnoc(d, front, last);
    }
  }

  /** The tier is a one-way ratchet: an entry is a blob's from the first mark that asks for one, and no
      mark is lost but on a tombstone. */
  lemma MarkRatchets(d: Dirty, u: Uuid, tier: Mark, v: Uuid)
    requires tier != Tomb
    ensures var n := Marked(d, u, tier);
      && (Has(d, u, Tomb) ==> n == d)
      && (!Has(d, u, Tomb) ==> (Has(n, u, T2) <==> Has(d, u, T2) || tier == T2) && (Has(n, u, T1) || Has(n, u, T2)))
      && (v != u ==> forall m :: Has(n, v, m) <==> Has(d, v, m))
  {
  }

  // ---------------------------------------------------- the classes ----

  class DirtySet {
    var entries: map<Uuid, Mark>
    var order: seq<Uuid>
    var known: set<Uuid>

    ghost function State(): Dirty
      reads this
    {
      Dirty(entries, order, known)
    }

    ghost predicate Valid()
      reads this
    {
      Keyed(State())
    }

    constructor ()
      ensures Valid() && State() == Dirty(map[], [], {})
    {
      entries := map[];
      order := [];
      known := {};
    }

    method Assign(u: Uuid, m: Mark)
      requires Valid()
      modifies this
      ensures Valid() && State() == Put(old(State()), u, m)
    {
      KeyedKept(State(), u, m);
      if u !in entries { order := order + [u]; }
      entries := entries[u := m];
    }

    method MarkDirty(u: Uuid, tier: Mark)
      requires Valid() && tier != Tomb
      modifies this
      ensures Valid() && State() == Marked(old(State()), u, tier)
    {
      if u in entries && entries[u] == Tomb { return; }
      Assign(u, if u in entries then Higher(entries[u], tier) else tier);
    }

    method MarkDeleted(u: Uuid)
      requires Valid()
      modifies this
      ensures Valid() && State() == Deleted(old(State()), u)
    {
      if u !in known {
        KeyedKept(State(), u, Tomb);
        entries := entries - {u};
        order := Without(order, u);
        return;
      }
      Assign(u, Tomb);
    }

    method AssumeKnown(u: Uuid)
      requires Valid()
      modifies this
      ensures Valid() && State() == Assumed(old(State()), u)
    {
      known := known + {u};
    }

    method RequeueTombstone(u: Uuid)
      requires Valid()
      modifies this
      ensures Valid() && State() == RequeuedTomb(old(State()), u)
    {
      Assign(u, Tomb);
      known := known + {u};
    }

    method Drain() returns (tombstones: seq<Uuid>, dirty: seq<Entry>)
      requires Valid()
      modifies this
      ensures Valid() && State() == Drained(old(State()))
      ensures tombstones == Tombs(old(State()), old(order)) && dirty == Dirties(old(State()), old(order))
    {
      hide Tombs, Dirties, KnownTo, Distinct;
      ghost var d := State();
      tombstones, dirty := [], [];
      DrainStarts(d);
      for i := 0 to |order|
        invariant entries == d.marks && order == d.order
        invariant tombstones == Tombs(d, order[..i]) && dirty == Dirties(d, order[..i])
        invariant known == KnownTo(d, order[..i])
      {
        var u := order[i];
        assert order[..i + 1] == order[..i] + [u];
        TombsSnoc(d, order[..i], u);
        DirtiesSnoc(d, order[..i], u);
        KnownSnoc(d, order[..i], u);
        if entries[u] == Tomb {
          tombstones := tombstones + [u];
          known := known - {u};
        } else {
          dirty := dirty + [Entry(u, entries[u])];
          known := known + {u};
        }
      }
      assert order[..|order|] == order;
      DrainKnows(d, order);
      KeyedKept(d, "", Tomb);
      entries := map[];
      order := [];
    }
  }

  /** `DEBOUNCE_S`. */
  const WINDOW: real := 0.08

  function Due(touched: map<Uuid, real>, now: real): set<Uuid> {
    set u | u in touched && now - touched[u] >= WINDOW
  }

  class Debouncer {
    var touched: map<Uuid, real>

    constructor ()
      ensures touched == map[]
    {
      touched := map[];
    }

    method Touch(u: Uuid, now: real)
      modifies this
      ensures touched == old(touched)[u := now]
    {
      touched := touched[u := now];
    }

    /** What has been left alone for the window, taken out. */
    method Ready(now: real) returns (due: set<Uuid>)
      modifies this
      ensures due == Due(old(touched), now) && touched == old(touched) - due
    {
      due := set u | u in touched && now - touched[u] >= WINDOW;
      touched := touched - due;
    }

    method Drop(u: Uuid)
      modifies this
      ensures touched == old(touched) - {u}
    {
      touched := touched - {u};
    }
  }
}
