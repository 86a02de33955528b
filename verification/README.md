# Segments state-group engine, modelled in Dafny

This project models the state-group engine of a small client-side state
container (`segments.js`). The container groups named *segments* of state. A
**registry** (`Segments`) maps group names to **groups**. Each group holds three
things:

- a per-key entry `{ state, actions }`;
- per-key subscriber callbacks stored under ids minted from a counter
  (`registeredCount`);
- the update logic. A dispatched function is applied to the previous state, a
  promise is awaited, a concrete value is stored and every subscriber of the key
  is notified, and an array is run element by element, in order.

Layout:

- `wrappers.dfy`: `Option`, `Result`, `Outcome`.
- `js_values.dfy`: the JavaScript values the engine inspects (`typeof`,
  `Array.isArray`, `isObject`, object spread). A function is an opaque
  reference (`Func(ref)`).
- `resolution.dfy`: the resolution chain of `updateState`. What each function
  returns is a parameter `call: (FnRef, JsValue) -> JsValue`. `Unwind` runs the
  chain with fuel. `Terminates` and `FinalValue` describe a chain that settles,
  independently of the fuel used.
- `group.dfy`: class `Group` (fields `isInitialized`, `group`, `name`, `stack`,
  `state`, `registeredCount`), plus a `delivered` field. `delivered` records every
  callback invocation as `(key, id, callback, value)`. The ghost functions
  `UpdateStep`, `SequenceStep` and `DispatchStep` say what an update, a sequence
  and a dispatch do to a whole group (`Snapshot`). The methods `UpdateState`,
  `RunSequence` and `Dispatch` are proved to do exactly that.
- `group_properties.dfy`: lemmas about those step functions.
- `segments.dfy`: class `Segments`, the registry. One object stands for the
  static `groups` field.

How the source's failures are modelled:

- An exception thrown inside the promise of `updateState` means the promise
  never resolves. That outcome is `Stalled`, and a sequence stops at a stalled
  step.
- For a key absent from `state`, the entry is `undefined`. Reading its `state`
  (for a function, `segments.js:65`) or assigning to it (for a concrete value,
  `segments.js:77`) throws a TypeError before anything is written.
- For a key nobody ever registered for, `stack[key]` is `undefined`. Reading it
  does not throw, but `Object.values(undefined)` does, after the state was
  written (`segments.js:79`). So such a step writes the value, notifies nobody
  and stalls, and a sequence stops after it.
- Registry lookups of a group never `init`-ed are `UnknownGroup` errors.

Behaviour of the code worth noting:

- For `useSegment` of a key absent from `state`, the entry is `undefined`.
  Calling `prop.hasOwnProperty('state')` on it throws a TypeError
  (`segments.js:102`) instead of the "missing segment" error. The model reports
  it as `UndefinedSegment`.
  `MissingSegment` is reported only when the entry exists without a `state` field.
- The constructor stores the group name in `name`. The declared field `group`
  keeps its initial `''`.
- `isObject` also admits promises. Copying a promise-valued `state` or `actions`
  gives an empty record.

## Model

| member | source | states |
|---|---|---|
| JsValues.IsObject | segments.js:1-3 | `isObject` holds exactly for plain records and promises: not null, of type "object", not an array |
| JsValues.CopyIfObject | segments.js:107-108 | the conditional shallow copy keeps a record's fields, turns a promise into an empty record, leaves non-objects as they are, and never yields a promise |
| JsValues.CopyIfObjectStable | segments.js:107-108 | copying twice is copying once, and a stored value that is not a promise is its own copy |
| Resolution.Unwind | segments.js:62-75 | the chain of function applications and awaits ends only at a concrete value (neither function nor promise), and a concrete value ends at itself |
| Resolution.UnwindMonotone | segments.js:64-74 | once the chain reaches a value, more steps never change it |
| Resolution.UnwindUnique | segments.js:64-74 | all runs of the chain that reach a value reach the same one |
| Resolution.FinalValue | segments.js:62-81 | a settling chain has one concrete final value, the one every sufficient run of the chain reaches |
| Resolution.ResolveConcrete | segments.js:77-81 | a concrete value settles at once, to itself |
| Resolution.ResolveTransform | segments.js:64-70 | a function settles iff its result on (a copy of) the previous state settles, and to the same value |
| Resolution.ResolveDeferred | segments.js:71-74 | a promise settles iff its settled value does, and to the same value |
| Groups.Subscribe | segments.js:49 | `restore`/`register` sets only `stack[key][id]` to the callback, creating `stack[key]` if missing; every other key and id is kept |
| Groups.Unsubscribe | segments.js:50 | `unregister` removes only `stack[key][id]`; no key disappears and every other entry is kept |
| Groups.Deliveries | segments.js:79 | every invocation the notification makes is of a subscriber of the key below the bound, with its own callback and the new value |
| Groups.DeliveriesAscending | segments.js:79 | subscribers are notified in strictly ascending id order |
| Groups.DeliveriesComplete | segments.js:79 | every subscriber of the key below the bound is notified |
| Groups.DeliveriesInOrder | segments.js:79 | notifying a key invokes each subscriber below the bound exactly once, with the new value and its own callback, in ascending id order, and nobody else |
| Groups.UpdateStep | segments.js:62-83 | one update changes nothing but the `state` field of the key's entry and appends to the notification record; stack, counter, other keys and actions are unchanged; a settling chain on an existing entry writes its final value, whether or not the step then stalls; a resolved update stored a concrete value; a missing entry or a chain that never settles changes nothing |
| Groups.SequenceStep | segments.js:85-89 | a sequence changes nothing but the key's `state` and the notification record, and resolves with undefined |
| Groups.DispatchStep | segments.js:91-97 | a dispatch changes nothing but the key's `state` and the notification record; an array resolves with undefined; any other value resolves only with a concrete value it stored, and a settling chain on an existing entry stores its final value |
| Groups.MintKeepsConsistent | segments.js:47-54 | storing a function under the current counter value and incrementing the counter keeps every stored subscriber matched to the handle minted for it, and every minted id below the counter |
| Groups.RestoreKeepsConsistent | segments.js:49 | re-storing a minted subscription keeps that bookkeeping |
| Groups.UnsubscribeKeepsConsistent | segments.js:50 | removing a minted subscription keeps that bookkeeping, and the key it names still has a subscriber map |
| Groups.Group.IdsUnique | segments.js:47-54 | in a valid group no id is held under two keys |
| Groups.Group.constructor | segments.js:114-120 | a new group holds the configuration as its state, no subscribers and a zero counter, with `isInitialized` set and the name stored in `name` |
| Groups.Group.Register | segments.js:38-60 | a non-function returns the invalid-callback error and changes nothing; a function is stored under id = old counter, an id no key currently holds, the returned handle is recorded as minted for that id, and the counter grows by exactly one |
| Groups.Group.Unregister | segments.js:50 | for a handle this group minted, the stack becomes `Unsubscribe` of the old stack; the counter is untouched |
| Groups.Group.Restore | segments.js:49 | for a handle this group minted, the stack becomes `Subscribe` of the old stack with the original key, id and callback; the counter is untouched |
| Groups.Group.UpdateState | segments.js:62-83 | the outcome and the new state and notification record are exactly `UpdateStep`; stack and counter are outside its frame |
| Groups.Group.RunSequence | segments.js:85-89 | running the elements one after another, stopping at a stalled one, gives exactly `SequenceStep` |
| Groups.Group.Dispatch | segments.js:91-97 | an array is run as a sequence and anything else as one update, exactly as `DispatchStep` says |
| Groups.Group.UseSegment | segments.js:99-112 | fails for a missing key and for an entry without `state`, and succeeds otherwise, with copies of the stored state and actions, bound to the key; it reads the group without changing it |
| GroupProperties.UpdateNotifiesEverySubscriber | segments.js:77-81 | a resolved update invokes every subscriber of the key exactly once, with the new value, in ascending id order, and nobody else |
| GroupProperties.ConcreteUpdate | segments.js:77-81 | a concrete value is stored as the key's state; the update resolves with it exactly when the key has a subscriber map, appending that key's notifications |
| GroupProperties.TransformEquivalence | segments.js:64-70 | dispatching a function is equivalent to dispatching its result on (a copy of) the previous state |
| GroupProperties.DeferredEquivalence | segments.js:71-74 | dispatching a promise is equivalent to dispatching its settled value |
| GroupProperties.SequenceAppend | segments.js:85-89 | running `xs + ys` runs `xs`, then `ys` from the group `xs` left, unless `xs` stalled; the states and notification records compose in list order |
| GroupProperties.SequenceSingle | segments.js:86-88 | a one-element sequence has the effect of one update |
| GroupProperties.SequenceEndsWithLast | segments.js:85-89 | a completed sequence leaves the key holding the resolution of its last element against the state the earlier elements left |
| GroupProperties.UnsubscribedKeyStallsSequence | segments.js:77-79 | on a key nobody registered for, a sequence resolves and writes its first element (function, promise or value) and stops |
| GroupProperties.DispatchSingle | segments.js:94-96 | a non-array dispatch is exactly one update |
| GroupProperties.UnsubscribeIdempotent | segments.js:50 | unregistering twice is unregistering once |
| GroupProperties.SubscribeIdempotent | segments.js:49 | restoring twice is restoring once |
| GroupProperties.RestoreUndoesUnregister | segments.js:49-50 | unregistering a live subscription and restoring it gives back the original stack |
| GroupProperties.UnregisteredNotNotified | segments.js:50 | after `unregister`, an update of the key invokes nothing under that id |
| GroupProperties.RestoredNotifiedOnce | segments.js:49 | after `restore`, an update invokes the original callback under the original id exactly once |
| GroupProperties.SnapshotOfStoredValue | segments.js:106-108 | the copies `useSegment` hands out are unchanged by copying again, and a stored value that is not a promise is handed out as it is |
| GroupProperties.StatusSequenceExample | segments.js:91-93 | `dispatch('status', ['loading', 'done'])` notifies 'loading' then 'done' and leaves 'done' |
| GroupProperties.CounterIncrement | segments.js:64-70 | one dispatch of `n => n + 1` on a counter holding `m` with one subscriber stores `m + 1` and notifies it once |
| GroupProperties.CounterExample | segments.js:64-70 | three dispatches of `n => n + 1` from 0 notify 1, 2, 3 in order and leave 3 |
| Registry.Segments.constructor | segments.js:6 | the registry starts with no groups |
| Registry.Segments.Init | segments.js:20-24 | installs a fresh group with the configuration, no subscribers and a zero counter; replaces any group of that name and keeps every other name's group |
| Registry.Segments.Add | segments.js:8-14 | an unknown group is an error; a key already present fails with the duplicate-key error and leaves the group unchanged; otherwise exactly that key is added; only the group's `state` field is in the frame, so nothing else changes |
| Registry.Segments.UseSegment | segments.js:16-18 | an unknown group is an error; otherwise the result is the group's `useSegment` |

## Left out

- The React hooks (`use-segment.js`, `use-init-segments.js`, `use-dispatch.js`) and the re-exports in `index.js`. They are framework glue and are not part of this model.
- Promise scheduling and concurrency. A promise is modelled as already settled with its value. Two independent dispatches whose steps interleave at awaits (the last-resolved-wins race) are not modelled. Every update runs to its end before the next operation.
- Promise rejection. The source has no handling for it.
- Side effects of dispatched functions and callbacks. A function is pure, given by `call`. A callback invocation is only recorded. A callback that throws, or that dispatches, registers or unregisters again while being notified, is not modelled.
- Groups.Group.UpdateState: requires its resolution chain to settle. The same holds for `RunSequence` and `Dispatch`. In the source, a chain that never settles overflows the stack or loops forever asynchronously, and nothing is written. Only the ghost `UpdateStep` describes that case, as stalled with nothing changed.
- Groups.Group.RunSequence: requires every element that gets to run to have a settling resolution chain, because a method must terminate. The source runs the earlier elements and then stops at an element that never settles. Only the ghost `SequenceStep` describes that case, as stalled at that element.
- Groups.Group.Dispatch: requires the dispatched value, or every element of a dispatched array that gets to run, to have a settling resolution chain, for the same reason. Only the ghost `DispatchStep` describes the stalled case.
- Groups.Group.Unregister: requires a handle this group minted (`Issued`: the ghost map `issued` records, per id, the key and callback `register` bound it to). This is the only way the source's closures are obtained. Calling a closure of another group, or a handle with a forged key, id or callback, is not modelled. The same holds for `Restore`.
- Object identity. Values have value semantics, so a shallow copy is equal to the original and cannot alias it. Mutating a returned snapshot therefore cannot reach the stored state by construction.
- JavaScript numbers are modelled as integers; floating point is left out.
- Dynamic type tests beyond the tags of `JsValue`: thenables, promise subclasses, class instances under `isObject` and spread.
- Inherited properties. A key such as `toString` that `this.state[key]` would find on the prototype, and configuration entries that are not `{ state, actions }` records, are not modelled.
- Returned closures. The `dispatch` and `register` that `useSegment` returns are represented by the key they are bound to. The `restore`/`unregister` pair is represented by a `Handle` that the methods `Restore` and `Unregister` take.
- Default group argument. Callers pass the group name explicitly; the default `"default"` is not modelled.
