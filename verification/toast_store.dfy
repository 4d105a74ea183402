/** The side-effecting layer of the toast store: the module-level `count`,
    `toastTimeouts`, `memoryState` and `listeners` of the hook become the
    fields of one `Store` object, and `genId`, `addToRemoveQueue`, the
    reducer's DISMISS side effect, `dispatch`, `createToast` with its closures,
    the typed shortcuts and the listener push/splice become its methods. A
    listener is an opaque id; each call `dispatch` makes to a listener is
    recorded in `delivered`. A timeout firing is the explicit `FireTimer`. */
module ToastStore {
  import opened ToastTypes
  import opened ToastReducer
  import opened ToastIds
  import opened TimerRegistry
  import opened Listeners

  /** A subscribed `setState` function, known only by identity. */
  type ListenerId = nat

  /** One call `listener(memoryState)`. */
  datatype Delivery = Delivery(listener: ListenerId, state: seq<Toast>)

  /** The calls `dispatch` makes after its state change: each listener, in
      list order, with the same new state. */
  function Broadcast(ls: seq<ListenerId>, st: seq<Toast>): (r: seq<Delivery>)
    ensures |r| == |ls|
  {
    seq(|ls|, i requires 0 <= i < |ls| => Delivery(ls[i], st))
  }

  lemma BroadcastSnoc(ls: seq<ListenerId>, i: int, st: seq<Toast>)
    requires 0 <= i < |ls|
    ensures Broadcast(ls[..i + 1], st) == Broadcast(ls[..i], st) + [Delivery(ls[i], st)]
  {
  }

  /** What `createToast` returns: `{ id, dismiss, update }`. The two closures
      are the methods `HandleDismiss` and `HandleUpdate`, applied to the handle. */
  datatype Handle = Handle(id: string)

  /** The toast `createToast` adds: the caller's props, then its own id,
      `open: true` and an `onOpenChange` that dismisses this id. */
  function NewToast(id: string, props: Fields): (t: Toast)
    ensures t.id == id
    ensures t.fields.open == Some(true)
    ensures t.fields.onOpenChange == Some(DismissOnClose(id))
    ensures t.fields.(open := None, onOpenChange := None) == props.(open := None, onOpenChange := None)
  {
    Toast(id, Overlay(props, NoFields.(open := Some(true), onOpenChange := Some(DismissOnClose(id)))))
  }

  class Store {
    var count: nat
    /** `toastTimeouts`, together with the host's next timer handle. */
    var timers: Registry
    var memoryState: seq<Toast>
    var listeners: seq<ListenerId>
    var delivered: seq<Delivery>

    ghost predicate Valid()
      reads this
    {
      && count < MaxSafeInteger
      && Inv(memoryState)
      && WellFormed(timers)
    }

    /** The state at module load: `count = 0`, no timeouts, no toasts, no listeners. */
    constructor ()
      ensures Valid()
      ensures count == 0 && timers == Registry(map[], 0) && memoryState == []
      ensures listeners == [] && delivered == []
    {
      count := 0;
      timers := Registry(map[], 0);
      memoryState := [];
      listeners := [];
      delivered := [];
    }

    /** `genId`: advance the wrapping counter and return it in decimal. */
    method GenId() returns (id: string)
      requires Valid()
      modifies this`count
      ensures Valid()
      ensures count == NextCount(old(count)) && id == DecimalString(count)
    {
      count := (count + 1) % MaxSafeInteger;
      id := DecimalString(count);
    }

    /** `addToRemoveQueue`: schedule the removal of a toast unless one is pending. */
    method AddToRemoveQueue(toastId: string)
      requires Valid()
      modifies this`timers
      ensures Valid()
      ensures timers == Schedule(old(timers), toastId)
    {
      ScheduleEffect(timers, toastId);
      if toastId in timers.pending {
        return;
      }
      var timeout := timers.nextHandle;
      timers := Registry(timers.pending[toastId := timeout], timers.nextHandle + 1);
    }

    /** DISMISS without a truthy id: `addToRemoveQueue` for each toast's id, in list order. */
    method RemoveAllLater(toasts: seq<Toast>)
      requires Valid()
      modifies this`timers
      ensures Valid()
      ensures timers == ScheduleAll(old(timers), Ids(toasts))
    {
      ghost var ids := Ids(toasts);
      ghost var done: seq<string> := [];
      var i := 0;
      while i < |toasts|
        invariant 0 <= i <= |toasts|
        invariant done == ids[..i]
        invariant Valid()
        invariant timers == ScheduleAll(old(timers), done)
      {
        AddToRemoveQueue(toasts[i].id);
        ScheduleAllSnoc(old(timers), done, toasts[i].id);
        done := done + [toasts[i].id];
        i := i + 1;
      }
      assert done == ids;
    }

    /** `reducer(state, action)`: the next state is `Reduce(state, action)`; a
        DISMISS first calls `addToRemoveQueue` for each of its targets. */
    method Reducer(state: seq<Toast>, action: Action) returns (next: seq<Toast>)
      requires Valid()
      modifies this`timers
      ensures Valid()
      ensures next == Reduce(state, action)
      ensures timers == if action.Dismiss?
        then ScheduleAll(old(timers), DismissTargets(state, action.toastId))
        else old(timers)
    {
      if action.Dismiss? {
        var toastId := action.toastId;
        if Truthy(toastId) {
          AddToRemoveQueue(toastId.value);
          assert [toastId.value][..0] == [];
        } else {
          RemoveAllLater(state);
        }
      }
      next := Reduce(state, action);
    }

    /** The second half of `dispatch`: each listener, in list order, is called with the state. */
    method CallListeners()
      modifies this`delivered
      ensures delivered == old(delivered) + Broadcast(listeners, memoryState)
    {
      var i := 0;
      while i < |listeners|
        invariant 0 <= i <= |listeners|
        invariant delivered == old(delivered) + Broadcast(listeners[..i], memoryState)
      {
        BroadcastSnoc(listeners, i, memoryState);
        delivered := delivered + [Delivery(listeners[i], memoryState)];
        i := i + 1;
      }
      assert listeners[..i] == listeners;
    }

    /** `dispatch(action)`: replace the state by the reducer's result, then call
        every listener in order with the new state. */
    method Dispatch(action: Action)
      requires Valid()
      modifies this`memoryState, this`timers, this`delivered
      ensures Valid()
      ensures memoryState == Reduce(old(memoryState), action)
      ensures timers == if action.Dismiss?
        then ScheduleAll(old(timers), DismissTargets(old(memoryState), action.toastId))
        else old(timers)
      ensures delivered == old(delivered) + Broadcast(listeners, memoryState)
    {
      var next := Reducer(memoryState, action);
      ReducePreservesInv(memoryState, action);
      memoryState := next;
      CallListeners();
    }

    /** The removal timeout of `toastId` fires: it deletes its own registry
        entry, then dispatches REMOVE for that id. Only a pending timeout can fire. */
    method FireTimer(toastId: string)
      requires Valid()
      requires toastId in timers.pending
      modifies this`memoryState, this`timers, this`delivered
      ensures Valid()
      ensures memoryState == RemoveToasts(old(memoryState), toastId)
      ensures timers == Fire(old(timers), toastId)
      ensures delivered == old(delivered) + Broadcast(listeners, memoryState)
      ensures forall t :: t in memoryState ==> t.id != toastId
    {
      timers := timers.(pending := timers.pending - {toastId});
      Dispatch(Remove(Some(toastId)));
    }

    /** `createToast(props)`: a new id, an ADD of the new toast, and the handle. */
    method CreateToast(props: Fields) returns (h: Handle)
      requires Valid()
      modifies this`count, this`memoryState, this`timers, this`delivered
      ensures Valid()
      ensures count == NextCount(old(count)) && h.id == DecimalString(count)
      ensures memoryState == AddToast(old(memoryState), NewToast(h.id, props), ToastLimit)
      ensures timers == old(timers)
      ensures delivered == old(delivered) + Broadcast(listeners, memoryState)
    {
      var id := GenId();
      Dispatch(Add(NewToast(id, props)));
      h := Handle(id);
    }

    /** `toast(props)` and `toast.success(props)` and the like: the plain call
        passes the props through, a typed shortcut adds its type and style. */
    method Notify(sev: Option<Severity>, props: Fields) returns (h: Handle)
      requires Valid()
      modifies this`count, this`memoryState, this`timers, this`delivered
      ensures Valid()
      ensures count == NextCount(old(count)) && h.id == DecimalString(count)
      ensures memoryState == AddToast(old(memoryState),
        NewToast(h.id, if sev.Some? then ShortcutProps(sev.value, props) else props), ToastLimit)
      ensures timers == old(timers)
      ensures delivered == old(delivered) + Broadcast(listeners, memoryState)
    {
      if sev.Some? {
        h := CreateToast(ShortcutProps(sev.value, props));
      } else {
        h := CreateToast(props);
      }
    }

    /** The handle's `update(props)`: an UPDATE aimed at the handle's id,
        whatever id the caller's props carry. */
    method HandleUpdate(h: Handle, props: Toast)
      requires Valid()
      modifies this`memoryState, this`timers, this`delivered
      ensures Valid()
      ensures memoryState == UpdateToasts(old(memoryState), Patch(Some(h.id), props.fields))
      ensures timers == old(timers)
      ensures delivered == old(delivered) + Broadcast(listeners, memoryState)
    {
      Dispatch(Update(Patch(Some(h.id), props.fields)));
    }

    /** The handle's `dismiss()`: a DISMISS of the handle's id. The toast stays
        in the list, closed, and a removal timeout for the id is pending. */
    method HandleDismiss(h: Handle)
      requires Valid()
      modifies this`memoryState, this`timers, this`delivered
      ensures Valid()
      ensures memoryState == DismissToasts(old(memoryState), Some(h.id))
      ensures timers == ScheduleAll(old(timers), DismissTargets(old(memoryState), Some(h.id)))
      ensures delivered == old(delivered) + Broadcast(listeners, memoryState)
      ensures Ids(memoryState) == Ids(old(memoryState))
      ensures h.id != "" ==> h.id in timers.pending
    {
      assert [h.id][..0] == [];
      Dispatch(Dismiss(Some(h.id)));
    }

    /** The whole life of a dismissed toast: the handle's `dismiss()`, then its
        removal timeout firing. The list ends as a REMOVE of the id alone would
        leave it, with no toast of that id. */
    method DismissAndExpire(h: Handle)
      requires Valid()
      requires h.id != ""
      modifies this`memoryState, this`timers, this`delivered
      ensures Valid()
      ensures memoryState == RemoveToasts(old(memoryState), h.id)
      ensures forall t :: t in memoryState ==> t.id != h.id
      ensures h.id !in timers.pending
      ensures timers.pending.Keys == old(timers.pending.Keys) - {h.id}
      ensures forall k :: k in timers.pending ==> timers.pending[k] == old(timers.pending[k])
      ensures timers.nextHandle == old(timers.nextHandle) + if h.id in old(timers.pending) then 0 else 1
      ensures delivered == old(delivered)
        + Broadcast(listeners, DismissToasts(old(memoryState), Some(h.id)))
        + Broadcast(listeners, memoryState)
    {
      assert [h.id][..0] == [];
      ScheduleEffect(timers, h.id);
      HandleDismiss(h);
      FireTimer(h.id);
      DismissThenRemove(old(memoryState), h.id);
    }

    /** The hook's `dismiss(toastId?)`: a DISMISS of one toast, or of all when no id is given. */
    method DismissToast(toastId: Option<string>)
      requires Valid()
      modifies this`memoryState, this`timers, this`delivered
      ensures Valid()
      ensures memoryState == DismissToasts(old(memoryState), toastId)
      ensures timers == ScheduleAll(old(timers), DismissTargets(old(memoryState), toastId))
      ensures delivered == old(delivered) + Broadcast(listeners, memoryState)
      ensures Truthy(toastId) ==> toastId.value in timers.pending
    {
      assert Truthy(toastId) ==> [toastId.value][..0] == [];
      Dispatch(Dismiss(toastId));
    }

    /** A toast's `onOpenChange(open)`, as the UI calls it. The closure that
        `createToast` installs dismisses its toast when `open` is false and
        does nothing otherwise; a caller's own callback does nothing here. */
    method OnOpenChange(callback: OpenChange, open: bool)
      requires Valid()
      modifies this`memoryState, this`timers, this`delivered
      ensures Valid()
      ensures callback.DismissOnClose? && !open ==>
        && memoryState == DismissToasts(old(memoryState), Some(callback.id))
        && timers == ScheduleAll(old(timers), DismissTargets(old(memoryState), Some(callback.id)))
        && delivered == old(delivered) + Broadcast(listeners, memoryState)
      ensures !(callback.DismissOnClose? && !open) ==>
        memoryState == old(memoryState) && timers == old(timers) && delivered == old(delivered)
    {
      if callback.DismissOnClose? && !open {
        Dispatch(Dismiss(Some(callback.id)));
      }
    }

    /** `listeners.push(setState)` when a component mounts. */
    method Subscribe(l: ListenerId)
      modifies this`listeners
      ensures listeners == old(listeners) + [l]
    {
      listeners := listeners + [l];
    }

    /** The effect's cleanup: `indexOf`, then `splice(index, 1)` when found. */
    method Unsubscribe(l: ListenerId)
      modifies this`listeners
      ensures listeners == RemoveFirst(old(listeners), l)
    {
      var index := IndexOf(listeners, l);
      if index > -1 {
        RemoveFirstAt(listeners, l, index);
        listeners := listeners[..index] + listeners[index + 1..];
      }
    }
  }

  /** A client of the store: with the limit 1, a second toast evicts the
      first, and an update through the first handle then changes nothing. */
  method EvictionScenario(props: Fields, changes: Toast)
  {
    var store := new Store();
    var first := store.Notify(None, props);
    var second := store.Notify(Some(Error), props);
    assert first.id == DecimalString(1) && second.id == DecimalString(2);
    DecimalStringInjective(1, 2);
    ghost var before := store.memoryState;
    assert before == [NewToast(second.id, ShortcutProps(Error, props))];

    UpdateAbsentIsNoop(before, Patch(Some(first.id), changes.fields));
    store.HandleUpdate(first, changes);
    assert store.memoryState == before;
  }

  /** A client of the store: a dismiss closes the toast and arms one timer;
      when that fires the list is empty. A listener subscribed throughout sees
      every state; once unsubscribed, twice, it sees no more. */
  method DismissScenario(props: Fields)
  {
    var store := new Store();
    store.Subscribe(7);
    var h := store.CreateToast(props);
    assert store.memoryState == [NewToast(h.id, props)];
    assert DismissTargets(store.memoryState, Some(h.id)) == [h.id];
    assert [h.id][..0] == [];

    store.HandleDismiss(h);
    assert store.memoryState[0].fields.open == Some(false);
    assert store.timers.pending == map[h.id := 0];

    store.FireTimer(h.id);
    assert store.memoryState == [];
    assert store.timers.pending == map[];
    assert |store.delivered| == 3 && store.delivered[2] == Delivery(7, []);

    store.Unsubscribe(7);
    store.Unsubscribe(7);
    assert store.listeners == [];
    store.DismissToast(None);
    assert |store.delivered| == 3;
  }
}
