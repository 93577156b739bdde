/**
 * The replica's loop in its own imperative form, over a mutable LaneMerger and a queue of
 * completed blobs (qcbridge/ring0/replica_apply.py). Each method is the step of ReplicaApply.
 */
module ReplicaLoop {
  import opened Wrappers
  import opened SeqTracking
  import opened Wire
  import opened LaneMerge
  import opened ReplicaApply

  class ReplicaLoop {
    const merger: LaneMerger
    var pendingBlobs: seq<Pending>
    /** The history the step system speaks of. */
    ghost var arrived: seq<Message>
    ghost var dispatched: seq<Message>
    ghost var early: seq<Message>
    ghost var received: set<int>
    ghost var settled: set<int>

    ghost predicate Valid()
      reads this, merger
    {
      merger.Valid()
    }

    ghost function State(): Replica
      reads this, merger, merger.cold, merger.fast
    {
      Replica(merger.State(), pendingBlobs, arrived, dispatched, early, received, settled)
    }

    /** A replica primed by the hello with the host's lane counters. */
    constructor (coldBase: int, fastBase: int)
      ensures Valid() && State() == Start(coldBase, fastBase)
      ensures fresh(merger) && fresh(merger.cold) && fresh(merger.fast)
    {
      merger := new LaneMerger();
      pendingBlobs := [];
      arrived, dispatched, early, received, settled := [], [], [], {}, {};
      new;
      merger.cold.lastSeen := Some(coldBase);
      merger.fast.lastSeen := Some(fastBase);
      merger.coldApplied := coldBase;
      merger.fastApplied := fastBase;
    }

    /** The fast-lane half of `_dispatch`; what a delta or tombstone writes is not modelled here. */
    method Dispatch(msg: Message)
      requires Valid()
      modifies this`dispatched, this`early, merger`fastApplied, merger`fastDone, merger.fast
      ensures Valid() && State() == Dispatched(old(State()), msg)
    {
      ghost var outruns := Outruns(State(), msg);
      if msg.body.ResyncEnd? {
        merger.ClearFastGap();
      }
      merger.MarkFastDone(msg.sn);
      dispatched := dispatched + [msg];
      early := if outruns then early + [msg] else early;
    }

    method Release(items: seq<Message>)
      requires Valid()
      modifies this`dispatched, this`early, merger`fastApplied, merger`fastDone, merger.fast
      ensures Valid() && State() == ReleasedAll(old(State()), items)
    {
      for i := 0 to |items|
        invariant Valid() && State() == ReleasedAll(old(State()), items[..i])
      {
        assert items[..i + 1][..i] == items[..i];
        Dispatch(items[i]);
      }
      assert items[..|items|] == items;
    }

    /** One fast message of `_process_cold`. */
    method ProcessFast(msg: Message) returns (contiguous: bool)
      requires Valid() && msg.lane == FastLane
      modifies this, merger, merger.fast, merger.cold
      ensures Valid() && State() == FastIn(old(State()), msg)
    {
      arrived := arrived + [msg];
      contiguous := merger.Observe(msg);
      var now := merger.Admit(msg);
      if now {
        Dispatch(msg);
      }
    }

    /** One cold message of `_process_cold`, sorted by what its dispatch does. */
    method ProcessCold(sn: int, kind: ColdKind)
      requires Valid()
      modifies this, merger, merger.fast, merger.cold
      ensures Valid() && State() == ColdIn(old(State()), sn, kind)
    {
      var contiguous := merger.Observe(Message(ColdLane, Some(sn), "", 0, Other));
      received := received + {sn};
      match kind {
        case Immediate(end) =>
          if end { merger.ClearColdGap(); }
          Finish(sn);
        case LibPart =>
          settled := settled + {sn};
        case BlobPart =>
          Finish(sn);
        case BlobDone(boot) =>
          if boot {
            pendingBlobs := [Pending(sn, {sn} + CoversOf(pendingBlobs), true)];
          } else {
            pendingBlobs := pendingBlobs + [Pending(sn, {sn}, false)];
          }
      }
    }

    /** Mark `sn` done and apply what it releases. */
    method Finish(sn: int)
      requires Valid()
      modifies this, merger, merger.fast
      ensures Valid() && State() == ColdSettled(old(State()), sn)
    {
      var due := merger.MarkColdDone(Some(sn));
      settled := settled + {sn};
      Release(due);
    }

    /** The oldest waiting blob applies; what it releases is held back for the end of the batch. */
    method ApplyOne() returns (more: seq<Message>)
      requires Valid() && pendingBlobs != []
      modifies this`pendingBlobs, this`settled, merger, merger.fast, merger.cold
      ensures Valid() && merger.cold == old(merger.cold) && merger.fast == old(merger.fast)
      ensures State() == AppliedOne(old(State()))
      ensures more == Released(old(State()).m, Some(old(pendingBlobs[0].sn)))
    {
      var p := pendingBlobs[0];
      pendingBlobs := pendingBlobs[1..];
      if p.boot {
        merger.ClearColdGap();
        merger.ClearFastGap();
      }
      settled := settled + p.covers;
      more := merger.MarkColdDone(Some(p.sn));
    }

    /** `_apply_pending_batch`: the first `k` waiting blobs apply in one tick, then everything they release. */
    method ApplyPendingBatch(k: nat)
      requires Valid() && k <= |pendingBlobs|
      modifies this, merger, merger.fast, merger.cold
      ensures Valid() && State() == BatchApplied(old(State()), k)
    {
      var due := [];
      ghost var r := State();
      var applied := 0;
      while applied < k
        invariant applied <= k && Valid() && merger.cold == old(merger.cold) && merger.fast == old(merger.fast)
        invariant (State(), due) == AppliedSome(r, applied)
      {
        var more := ApplyOne();
        due := due + more;
        applied := applied + 1;
      }
      Release(due);
    }
  }
}
