# Toast store of the admin console, modelled in Dafny

The admin console shows transient notifications ("toasts") through one small
in-memory store, `src/hooks/use-toast.ts`. The store has four parts:

- A reducer takes the list of toasts (newest first, cut to `TOAST_LIMIT = 1`)
  and one of four actions: ADD, UPDATE, DISMISS or REMOVE.
- A registry `toastTimeouts` holds one pending removal timeout per toast id.
  `addToRemoveQueue` fills it, and each timeout deletes its own entry when it
  fires.
- `dispatch` replaces `memoryState` and calls every subscribed listener in
  order with the new state.
- A wrapping id counter (`genId`) feeds `createToast`. `createToast` returns
  `{ id, dismiss, update }` and installs an `onOpenChange` callback. The typed
  shortcuts `toast.success`, `toast.error`, `toast.warning` and `toast.info`
  add a type and its default style.

The project has six modules, one file each:

- `ToastTypes` (`toast_types.dfy`): the toast record and its optional
  properties. Object spread is `Overlay`. It also holds `getToastStyles` and
  the props each typed shortcut builds.
- `ToastReducer` (`toast_reducer.dfy`): the pure next-state function
  `Reduce` and the ids that DISMISS schedules (`DismissTargets`). It proves
  the properties of each branch and the list invariant: at most
  `TOAST_LIMIT` entries, ids unique.
- `ToastIds` (`toast_ids.dfy`): the counter modulo `Number.MAX_SAFE_INTEGER`,
  its decimal form, and the proof that ids are distinct within one wrap period.
- `TimerRegistry` (`timer_registry.dfy`): the registry as a value. Scheduling
  is idempotent and firing deletes the entry.
- `Listeners` (`listeners.dfy`): `indexOf` as a loop, the `splice` that
  unsubscribes, and what a second unsubscribe does.
- `ToastStore` (`toast_store.dfy`): the module-level variables become the
  fields of a class `Store`. `genId`, `addToRemoveQueue`, the reducer's DISMISS
  side effect, `dispatch`, the firing of a timeout, `createToast`, its
  closures, the shortcuts and the listener push/splice become its methods.
  Each method's contract ties the new state to the pure functions above.
  Two client methods, `EvictionScenario` and `DismissScenario`, follow toast
  lifecycles under the limit of 1.

Modelling choices:

- A listener (a React `setState`) is an opaque number. Every call
  `listener(memoryState)` is appended to the field `delivered`.
- A pending `setTimeout` is a registry entry. Its handle comes from a counter
  `nextHandle` that stands for the host's handle allocation. The store keeps
  `toastTimeouts` and that counter together in one field, `timers`. The timeout
  firing is the explicit method `FireTimer`, which only a pending timeout can
  undergo.
- React nodes (title, description, action) are opaque `Node` values. The
  Tailwind class strings are opaque constants.
- The DISMISS branch tests its id by JavaScript truthiness (`if (toastId)`).
  So `dismiss("")` schedules removal of every toast but closes only toasts
  whose id is `""` (`ToastReducer.DismissEmptyIdSchedulesAll`). Ids from
  `genId` are never empty.
- Three behaviours of the code are modelled as written:
  - REMOVE does not cancel or erase timeouts. Only a firing timeout deletes
    its own entry.
  - There is no clear-all operation that cancels timers.
  - The limit is a constant and is never validated.

## Model

| member | source | states |
|---|---|---|
| ToastTypes.Overlay | src/hooks/use-toast.ts:68 | Object spread, field by field: a property present in the later object wins. Its laws are stated by OverlayUnit and OverlayAssociativeIdempotent |
| ToastTypes.ShortcutProps | src/hooks/use-toast.ts:146-153 | The argument a typed shortcut passes to createToast. What it keeps and sets is stated by ShortcutOnlyStyles |
| ToastTypes.OverlayUnit | src/hooks/use-toast.ts:68 | Spreading an empty object, or spreading over one, leaves the properties unchanged |
| ToastTypes.OverlayAssociativeIdempotent | src/hooks/use-toast.ts:147 | Nested spreads compose, and spreading the same partial twice is spreading it once |
| ToastTypes.ToastStyles | src/hooks/use-toast.ts:106-119 | Only className and variant are ever set. variant is destructive exactly for "error". Each of the four severities gets its own class string, and any other type string yields the empty record |
| ToastTypes.ShortcutOnlyStyles | src/hooks/use-toast.ts:143-155 | A typed shortcut keeps the caller's title, description, action, open and onOpenChange. It sets type_info to the severity name and className to that severity's class. It keeps the caller's variant, except that "error" forces destructive |
| ToastTypes.SeverityStylesDistinct | src/hooks/use-toast.ts:106-119 | Two different severities never get the same style record |
| ToastReducer.AddToast | src/hooks/use-toast.ts:59-63 | ADD yields min(old length + 1, limit) entries. The new toast is first and the rest is a prefix of the old list, so the oldest entries are dropped |
| ToastReducer.AddAllKeepsNewest | src/hooks/use-toast.ts:59-63 | After N adds into an empty list, the list holds exactly min(N, limit) toasts: the most recent ones, newest first |
| ToastReducer.AddFreshKeepsIdsUnique | src/hooks/use-toast.ts:59-63 | Under any limit, adding a toast whose id is not in the list keeps the ids unique |
| ToastReducer.SecondToastEvictsFirst | src/hooks/use-toast.ts:5-70 | With the limit 1, a second toast evicts the first. An update aimed at the evicted id then changes nothing |
| ToastReducer.UpdateToasts | src/hooks/use-toast.ts:64-70 | UPDATE keeps the length and the sequence of ids |
| ToastReducer.UpdateTouchesOnlyMatches | src/hooks/use-toast.ts:64-70 | An entry changes only if its id equals the patch id. A matching entry gets the patch's present fields overlaid on its own |
| ToastReducer.UpdateAbsentIsNoop | src/hooks/use-toast.ts:64-70 | Updating an id that is not in the list, or sending a patch without an id, leaves the list unchanged |
| ToastReducer.UpdateIdempotent | src/hooks/use-toast.ts:64-70 | Applying the same UPDATE twice equals applying it once |
| ToastReducer.DismissToasts | src/hooks/use-toast.ts:78-83 | DISMISS keeps the length and the sequence of ids |
| ToastReducer.DismissOnlyCloses | src/hooks/use-toast.ts:78-83 | DISMISS changes only `open`. The targeted entries get open = false: the one with the id, or every entry when no id is given. Entries with another id are unchanged |
| ToastReducer.DismissIdempotent | src/hooks/use-toast.ts:78-83 | Dismissing twice equals dismissing once |
| ToastReducer.DismissEmptyIdSchedulesAll | src/hooks/use-toast.ts:72-83 | With the falsy id "", DISMISS schedules every toast's id yet leaves every toast whose id is not "" untouched |
| ToastReducer.RemoveToasts | src/hooks/use-toast.ts:89-92 | REMOVE with an id keeps exactly the entries whose id differs, and never lengthens the list |
| ToastReducer.RemoveAppend | src/hooks/use-toast.ts:91 | Filtering distributes over concatenation |
| ToastReducer.RemoveKeepsOrder | src/hooks/use-toast.ts:89-92 | The kept entries stay in their original relative order |
| ToastReducer.RemoveAbsentIsNoop | src/hooks/use-toast.ts:89-92 | Removing an id that is not in the list leaves the list unchanged |
| ToastReducer.RemoveKeepsIdsUnique | src/hooks/use-toast.ts:89-92 | REMOVE keeps the ids unique |
| ToastReducer.Reduce | src/hooks/use-toast.ts:57-94 | ADD puts the new toast first and keeps at most TOAST_LIMIT entries. UPDATE and DISMISS keep the sequence of ids. REMOVE keeps only old entries with another id, and REMOVE without an id yields the empty list |
| ToastReducer.DismissTargets | src/hooks/use-toast.ts:72-77 | A truthy id is scheduled alone, whether or not a toast carries it. Otherwise the scheduled ids are the current toast ids. Every toast the DISMISS closes has its id among them |
| ToastReducer.ReducePreservesInv | src/hooks/use-toast.ts:57-94 | Every action keeps the list at most TOAST_LIMIT long with unique ids |
| ToastReducer.DismissThenRemove | src/hooks/use-toast.ts:78-92 | DISMISS of an id followed by the REMOVE its timeout dispatches leaves the list a REMOVE alone would, with no entry of that id |
| ToastIds.NextCount | src/hooks/use-toast.ts:28 | The counter stays in [0, MAX_SAFE_INTEGER). It increments, and wraps to 0 at the boundary |
| ToastIds.CountAfterClosedForm | src/hooks/use-toast.ts:25-30 | Within a period, k calls move the counter to c + k, less one period once it has wrapped |
| ToastIds.CountsDistinctWithinWrap | src/hooks/use-toast.ts:25-30 | Any MAX_SAFE_INTEGER successive calls produce pairwise distinct counters |
| ToastIds.CounterWrapsAfterPeriod | src/hooks/use-toast.ts:28 | Exactly MAX_SAFE_INTEGER calls bring the counter back to where it started |
| ToastIds.DecimalString | src/hooks/use-toast.ts:29 | count.toString() is a non-empty string of decimal digits with no leading zero |
| ToastIds.DecimalRoundTrip | src/hooks/use-toast.ts:29 | Reading the decimal string back gives the counter |
| ToastIds.DecimalStringInjective | src/hooks/use-toast.ts:29 | Distinct counters give distinct id strings |
| ToastIds.IdsDistinctWithinWrap | src/hooks/use-toast.ts:25-30 | The ids of successive genId calls within one wrap period are pairwise distinct |
| TimerRegistry.Schedule | src/hooks/use-toast.ts:46-55 | After addToRemoveQueue the id is pending, and an id that was already pending leaves the registry unchanged |
| TimerRegistry.ScheduleEffect | src/hooks/use-toast.ts:46-55 | Scheduling adds exactly the id to the pending set and keeps the handle of every earlier entry. It starts one new timer when the id was not pending, and keeps handles distinct and issued |
| TimerRegistry.ScheduleAll | src/hooks/use-toast.ts:76 | addToRemoveQueue for each id in list order. Its effect is stated by ScheduleAllEffect, ScheduleAllPendingIsNoop and ScheduleAllIdempotent |
| TimerRegistry.ScheduleAllSnoc | src/hooks/use-toast.ts:76 | Scheduling a list and then one more id is scheduling the longer list |
| TimerRegistry.ScheduleAllEffect | src/hooks/use-toast.ts:72-77 | After scheduling a list of ids, the pending ids are the old ones plus exactly those ids. Earlier handles are kept and distinct handles stay distinct |
| TimerRegistry.ScheduleAllPendingIsNoop | src/hooks/use-toast.ts:46-47 | Scheduling ids that are all pending changes nothing |
| TimerRegistry.ScheduleAllIdempotent | src/hooks/use-toast.ts:46-55 | Scheduling the same ids twice equals scheduling them once |
| TimerRegistry.Fire | src/hooks/use-toast.ts:49-50 | A firing timeout deletes exactly its own entry and leaves every other entry unchanged |
| TimerRegistry.RescheduleAfterFire | src/hooks/use-toast.ts:46-55 | Once an id's timeout has fired, scheduling it again starts a new timer with a new handle |
| Listeners.IndexOf | src/hooks/use-toast.ts:163 | indexOf returns -1 exactly when the listener is absent, and otherwise the index of its first occurrence |
| Listeners.RemoveFirst | src/hooks/use-toast.ts:162-165 | Unsubscribing leaves the list unchanged when the listener is absent, and otherwise shortens it by one |
| Listeners.RemoveFirstMultiset | src/hooks/use-toast.ts:162-165 | Unsubscribing takes exactly one copy of the listener out of the multiset of listeners, if there is one |
| Listeners.RemoveFirstAt | src/hooks/use-toast.ts:163-164 | splice(index, 1) at the index indexOf found is the list without that one position, so the others keep their order |
| Listeners.UnsubscribeTwiceIsOnce | src/hooks/use-toast.ts:162-165 | For a listener subscribed once, the first unsubscribe removes it and a second is a no-op |
| Listeners.UnsubscribeKeepsOthers | src/hooks/use-toast.ts:162-165 | Unsubscribing one listener leaves every other listener subscribed as often as before |
| ToastStore.Broadcast | src/hooks/use-toast.ts:102 | One delivery per listener, in list order, each with the same state |
| ToastStore.NewToast | src/hooks/use-toast.ts:129-137 | The added toast has the new id, open = true and an onOpenChange that dismisses that id. All its other properties are the caller's props |
| ToastStore.Store.constructor | src/hooks/use-toast.ts:96-98 | The store starts with count 0, no timeouts, no toasts and no listeners |
| ToastStore.Store.GenId | src/hooks/use-toast.ts:27-30 | count advances modulo MAX_SAFE_INTEGER and the id is its decimal string |
| ToastStore.Store.AddToRemoveQueue | src/hooks/use-toast.ts:46-55 | The registry becomes Schedule of the old registry, which is idempotent for a pending id |
| ToastStore.Store.RemoveAllLater | src/hooks/use-toast.ts:76 | The forEach over the toasts leaves the registry as ScheduleAll of the old registry over the toasts' ids, in list order |
| ToastStore.Store.Reducer | src/hooks/use-toast.ts:57-94 | Returns the pure next state. A DISMISS calls addToRemoveQueue for each target first: the id if truthy, else every current toast's id. No other action touches the registry |
| ToastStore.Store.Dispatch | src/hooks/use-toast.ts:100-103 | memoryState becomes the reducer's result, and every listener is called once, in list order, with the new state |
| ToastStore.Store.CallListeners | src/hooks/use-toast.ts:102 | Every listener is called once, in list order, with the current state |
| ToastStore.Store.FireTimer | src/hooks/use-toast.ts:49-52 | A pending timeout deletes its registry entry, removes the toasts with its id so that none is left, and notifies the listeners |
| ToastStore.Store.CreateToast | src/hooks/use-toast.ts:123-140 | A fresh id from genId is returned, and the new open toast is added at the front. The registry is unchanged |
| ToastStore.Store.Notify | src/hooks/use-toast.ts:143-155 | toast(props) passes the props through, and each typed shortcut passes the props with its type and style |
| ToastStore.Store.HandleUpdate | src/hooks/use-toast.ts:125-126 | The handle's update always targets the handle's id, whatever id the caller's props carry |
| ToastStore.Store.HandleDismiss | src/hooks/use-toast.ts:127 | The handle's dismiss closes the handle's toast and keeps the ids in place. It schedules the removal, so a non-empty id is pending afterwards |
| ToastStore.Store.DismissAndExpire | src/hooks/use-toast.ts:49-52 | For any state and any non-empty handle id, dismiss() followed by the firing of its timeout leaves the list a REMOVE of that id alone would leave, with no toast of that id and no pending timeout for it. Every other pending timeout keeps its handle, a new handle is used only if the id was not pending, and the listeners get the closed list and then the filtered list |
| ToastStore.Store.DismissToast | src/hooks/use-toast.ts:171 | The hook's dismiss closes one toast, or all toasts when no id is given, and schedules the removal of the DISMISS targets. A truthy id is pending afterwards even when no toast carries it |
| ToastStore.Store.OnOpenChange | src/hooks/use-toast.ts:135 | The installed callback dismisses its own toast when called with false and does nothing when called with true |
| ToastStore.Store.Subscribe | src/hooks/use-toast.ts:161 | The listener is appended at the end of the list |
| ToastStore.Store.Unsubscribe | src/hooks/use-toast.ts:162-165 | The first occurrence of the listener is removed. The list is unchanged when the listener is absent |

## Left out

- React mechanics are not modelled: `useState`, `useEffect`, and the
  `[state]` dependency that re-runs the subscribe/cleanup pair after each
  render. A listener is an opaque id; a re-subscription is an `Unsubscribe`
  followed by a `Subscribe`.
- Real timing is not modelled, including the 3000 ms delay. A timeout fires
  only when `FireTimer` is called. The order in which pending timeouts fire is
  left to the caller.
- The contents of the Tailwind class strings and of React nodes are opaque.
- `ToastProps` properties other than `open`, `variant`, `className` and
  `onOpenChange` are not modelled. They come from the UI toast component,
  which is not part of this model.
- Object spread copies a property that is explicitly `undefined`. The model
  treats such a property as absent.
- ToastStore.Store.OnOpenChange: a callback supplied by the caller (`Foreign`)
  may do anything. The model gives it no effect on the store.
- ToastReducer.ReducePreservesInv: ADD keeps the ids unique only because
  `TOAST_LIMIT` is 1. Under a larger limit that needs a fresh id
  (`AddFreshKeepsIdsUnique`). The store does not prove that a new id is absent
  from the list, because after a counter wrap it need not be.
- `count` is a JavaScript number. It is exact below 2^53, so it is modelled
  as a `nat`.
- `src/utils/request.tsx` is not part of this model: it is an HTTP client
  whose behaviour lives in axios.
- The HTTP service wrappers, the zod schema and the user dialogs are not part
  of this model. They are I/O and UI glue with no store logic.
