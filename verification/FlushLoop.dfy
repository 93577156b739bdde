/**
 * The flush tick as the loops it is, over the mutable dirty set and debouncer
 * (qcbridge/ring0/host_handlers.py: _flush_tick_inner).
 */
module FlushLoops {
  import opened Wire
  import opened Wrappers
  import opened DirtySets
  import opened FlushTicks

  class FlushLoop {
    const dirty: DirtySet
    const debounce: Debouncer

    ghost predicate Valid()
      reads dirty
    {
      dirty.Valid()
    }

    ghost function State(): Desk
      reads dirty, debounce
    {
      Desk(dirty.State(), debounce.touched)
    }

    constructor (dirty: DirtySet, debounce: Debouncer)
      requires dirty.Valid()
      ensures Valid() && this.dirty == dirty && this.debounce == debounce
    {
      this.dirty := dirty;
      this.debounce := debounce;
    }

    /** `_touch_ready`: flushes on the very next look. */
    method TouchReady(u: Uuid, now: real)
      modifies debounce
      ensures debounce.touched == old(debounce.touched)[u := now - WINDOW]
    {
      debounce.Touch(u, now - WINDOW);
    }

    method SendTombstones(tombstones: seq<Uuid>, refused: set<Uuid>) returns (left: seq<Entry>)
      requires Valid()
      modifies dirty
      ensures Valid() && dirty.State() == FlushTombs(old(dirty.State()), tombstones, refused)
      ensures left == SentTombs(tombstones, refused)
    {
      left := [];
      for i := 0 to |tombstones|
        invariant Valid()
        invariant dirty.State() == FlushTombs(old(dirty.State()), tombstones[..i], refused)
        invariant left == SentTombs(tombstones[..i], refused)
      {
        var u := tombstones[i];
        assert tombstones[..i + 1][..i] == tombstones[..i];
        if u in refused {
          dirty.RequeueTombstone(u);
        } else {
          left := left + [Entry(u, Tomb)];
        }
      }
      assert tombstones[..|tombstones|] == tombstones;
    }

    method FlushEntries(entries: seq<Entry>, ready: set<Uuid>, now: real, refused: set<Uuid>) returns (left: seq<Entry>)
      requires Valid() && forall e :: e in entries ==> e.mark != Tomb
      modifies dirty, debounce
      ensures Valid()
      ensures var w := FlushAll(Work(old(dirty.State()), old(debounce.touched), T2_PER_TICK, []), entries, ready, now, refused);
        dirty.State() == w.d && debounce.touched == w.touched && left == w.left
    {
      hide Marked;
      ghost var w0 := Work(dirty.State(), debounce.touched, T2_PER_TICK, []);
      var budget := T2_PER_TICK;
      left := [];
      for i := 0 to |entries|
        invariant Valid()
        invariant Work(dirty.State(), debounce.touched, budget, left) == FlushAll(w0, entries[..i], ready, now, refused)
      {
        var e := entries[i];
        assert entries[..i + 1][..i] == entries[..i] && e in entries;
        if e.uuid !in ready {
          dirty.MarkDirty(e.uuid, e.mark);
        } else if e.mark == T2 {
          if budget == 0 {
            dirty.MarkDirty(e.uuid, e.mark);
            TouchReady(e.uuid, now);
          } else {
            budget := budget - 1;
            left := left + [e];
          }
        } else if e.uuid in refused {
          dirty.MarkDirty(e.uuid, T1);
        } else {
          left := left + [e];
        }
      }
      assert entries[..|entries|] == entries;
    }

    method RunTick(now: real, paused: bool, refused: set<Uuid>) returns (left: seq<Entry>)
      requires Valid()
      modifies dirty, debounce
      ensures Valid() && (State(), left) == Tick(old(State()), now, paused, refused)
    {
      if paused || |dirty.entries| == 0 { return []; }
      ghost var k := State();
      var ready := debounce.Ready(now);
      var tombstones, entries := dirty.Drain();
      DrainLists(k.d, k.d.order);
      left := SendTombstones(tombstones, refused);
      var flushed := FlushEntries(entries, ready, now, refused);
      left := left + flushed;
    }
  }
}
