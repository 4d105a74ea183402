/** The removal-timer registry `toastTimeouts`: toast id to the handle of its
    pending removal timeout. `nextHandle` stands for the host's `setTimeout`,
    which hands out a new handle for every timer it starts. */
module TimerRegistry {

  datatype Registry = Registry(pending: map<string, nat>, nextHandle: nat)

  /** Every handle was issued by the host, and no two ids share one. */
  predicate WellFormed(r: Registry)
  {
    && (forall id :: id in r.pending ==> r.pending[id] < r.nextHandle)
    && (forall a, b :: a in r.pending && b in r.pending && a != b ==> r.pending[a] != r.pending[b])
  }

  /** `addToRemoveQueue(id)`: when the id already has a pending timeout nothing
      happens; otherwise a new timer is started and registered under the id. */
  function Schedule(r: Registry, id: string): (r': Registry)
    ensures id in r'.pending
    ensures id in r.pending ==> r' == r
  {
    if id in r.pending then r
    else Registry(r.pending[id := r.nextHandle], r.nextHandle + 1)
  }

  /** Scheduling adds exactly the id to the pending set, keeps every handle
      registered before, starts one timer when the id was not pending, and
      keeps the registry well formed. */
  lemma ScheduleEffect(r: Registry, id: string)
    ensures var r' := Schedule(r, id);
      && r'.pending.Keys == r.pending.Keys + {id}
      && (forall k :: k in r.pending ==> r'.pending[k] == r.pending[k])
      && (id !in r.pending ==> r'.nextHandle == r.nextHandle + 1)
      && (WellFormed(r) ==> WellFormed(r'))
  {
  }

  /** `addToRemoveQueue` called for each id in turn. */
  function ScheduleAll(r: Registry, ids: seq<string>): Registry
  {
    if ids == [] then r else Schedule(ScheduleAll(r, ids[..|ids| - 1]), ids[|ids| - 1])
  }

  /** Scheduling one more id is scheduling the list, then that id. */
  lemma ScheduleAllSnoc(r: Registry, ids: seq<string>, id: string)
    ensures ScheduleAll(r, ids + [id]) == Schedule(ScheduleAll(r, ids), id)
  {
    assert (ids + [id])[..|ids|] == ids;
  }

  /** After scheduling a list of ids, exactly those ids are added to the pending
      set, every timeout registered before keeps its handle, and the result
      is still well formed. */
  lemma {:induction false} ScheduleAllEffect(r: Registry, ids: seq<string>)
    ensures var r' := ScheduleAll(r, ids);
      && (forall k :: k in r'.pending <==> k in r.pending || k in ids)
      && (forall k :: k in r.pending ==> r'.pending[k] == r.pending[k])
      && (WellFormed(r) ==> WellFormed(r'))
  {
    if ids != [] {
      var init := ids[..|ids| - 1];
      ScheduleAllEffect(r, init);
      ScheduleEffect(ScheduleAll(r, init), ids[|ids| - 1]);
      assert forall k :: k in ids <==> k in init || k == ids[|ids| - 1];
    }
  }

  /** Scheduling ids that all have a pending timeout changes nothing; in
      particular, scheduling the same ids again is a no-op. */
  lemma {:induction false} ScheduleAllPendingIsNoop(r: Registry, ids: seq<string>)
    requires forall k :: k in ids ==> k in r.pending
    ensures ScheduleAll(r, ids) == r
  {
    if ids != [] {
      var init := ids[..|ids| - 1];
      assert forall k :: k in init ==> k in ids;
      ScheduleAllPendingIsNoop(r, init);
    }
  }

  /** Scheduling is idempotent. */
  lemma ScheduleAllIdempotent(r: Registry, ids: seq<string>)
    ensures ScheduleAll(ScheduleAll(r, ids), ids) == ScheduleAll(r, ids)
  {
    ScheduleAllEffect(r, ids);
    ScheduleAllPendingIsNoop(ScheduleAll(r, ids), ids);
  }

  /** The timeout callback's first step, `toastTimeouts.delete(id)`. */
  function Fire(r: Registry, id: string): (r': Registry)
    ensures r'.pending.Keys == r.pending.Keys - {id}
    ensures forall k :: k in r'.pending ==> r'.pending[k] == r.pending[k]
    ensures r'.nextHandle == r.nextHandle
    ensures WellFormed(r) ==> WellFormed(r')
  {
    Registry(r.pending - {id}, r.nextHandle)
  }

  /** Once a timer has fired, the id can be scheduled again and gets a new
      timer, never the handle of the one that fired. */
  lemma RescheduleAfterFire(r: Registry, id: string)
    requires WellFormed(r)
    requires id in r.pending
    ensures var r' := Schedule(Fire(r, id), id);
      id in r'.pending && r'.pending[id] != r.pending[id]
  {
  }
}
