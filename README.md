# Page lifecycle provider: a verified model of its load coordination

This project models the core of a React library that is meant to report,
once per navigation, when a page has started loading and when it has
finished. A
provider component counts the data loads that descendant components begin
and end, raises a routing flag when the router location changes, and hands
`page-load-started` and `page-load-complete` events to an `onEvent` sink.
Each event's payload is the merged metadata of the slots that mounted
`PageProps` components contribute, with the current `location` added last.
A separate `PageLifecycle` context object keeps two listener lists.

Files and modules:

- `Provider.dfy` (module `Provider`) holds the class `PageLifecycleProvider`.
  Its fields are `count`, `isRouting`, `prev`, `latest` and `events`.
  React's render and effect phases become the explicit steps `Render` and
  `Effect`, which the caller sequences. `Begin` and `End` stand for
  `beginLoadingData` and `endLoadingData`.
  - The payload fold (`Merge`, `Payload`) is a pure recursive function.
  - A ghost counter `arms` records how many times the routing flag was
    raised. The class invariant ties it to the number of complete events.
  - Client methods drive the steps through whole traces. Their
    postconditions follow from the step contracts alone.
    `LoadDuringRender`, `LazyLoadedPage` and `NavigationWithoutNewLoads`
    replay the scenarios that tests in tests/PageLifecycleProvider.spec.tsx
    describe. Those tests were written against an earlier interface. They
    pass a `render` prop the provider no longer declares, and they reach
    begin and end through contexts this provider does not supply. So these
    methods model the described scenarios on this code, not what the tests
    would do if they were run against it.
    `InitialLoadWithoutData`, `FirstEffectStarts`, `EndBeforeFirstEffect`,
    `NavigationWhileLoading`, `CompleteBeforeStart` and `MetadataBeforeStart`
    are traces of this model's own. The test "can pass extra data to pages"
    is not replayed. It passes its metadata through `Page` and
    `PageAdditionalProps`, which call `updatePageProps`, and that function
    is implemented in none of the source files.
- `PageProps.dfy` (module `PageProps`) holds the class `SlotRegistry`. It
  keeps the ordered slot list `currentPageProps` as opaque slot ids, plus a
  map from slot id to contents.
- `Lifecycle.dfy` (module `Lifecycle`) holds `EnsureContext` and the class
  `PageLifecycle` with its two listener lists.
- `Sequences.dfy` models the JavaScript array primitives the core uses:
  `indexOf`, and `splice(start, 1)` with its handling of a negative start.
- `Values.dfy` defines locations and metadata values. `Wrappers.dfy` defines
  `Option` and `Result`.

Modelling choices:

- A location is compared by object identity in the source. Here it is a
  record whose `id` field stands for that identity, compared by value. The
  model assumes that distinct location objects have distinct ids. This is
  not the router's `key`, which some routers leave out. The `pathname`
  field is only carried into event payloads.
- The `onEvent` sink is the field `events`: every call appends one event.
- Calling into the logger, reading the clock, and React scheduling are not
  modelled. The caller of the model plays React's role.

The model follows the code wherever it departs from the library's intended
behaviour, which is a counter that never goes below zero, exactly one start
and then one terminal event per navigation, and an unmount that does nothing
for a slot that is not listed:

- The counter has no floor. An unmatched `End` takes `count` below zero, and
  a later `Begin` only brings it back to zero without raising anything.
- Route detection compares location objects by identity (line 87), although
  the comment at line 86 says only the pathname matters. So a push to the
  same pathname, or a change to only the search or the hash, starts a new
  navigation. The model gives every new location object its own `id`, so it
  has the same behaviour.
- Unmounting a slot runs `splice(indexOf(slot), 1)`. For a slot that is not
  listed, this removes the LAST slot rather than doing nothing. Such a slot
  cannot be absent at unmount in normal use.
- A navigation can be reported complete without ever being started.
  `CompleteBeforeStart` shows this for a later navigation: an `End` that
  arrives between its render and its effect raises its complete event, and
  the effect then raises nothing, so the stream is `[start(a), complete(b)]`.
  `EndBeforeFirstEffect` shows it for the initial load: a child that begins
  and ends a load before the provider's first effect yields `[complete(a)]`
  alone.
- A navigation that starts while a load is outstanding can leave the earlier
  start without a complete event (`NavigationWhileLoading`).
- No code path raises `page-load-failed`.

## Model

| member | source | states |
|---|---|---|
| `Provider.PageLifecycleProvider.constructor` | src/PageLifecycleProvider.tsx:61-82 | Mount: counter 0, routing flag up for the initial load, no previous location, an empty slot list, no events |
| `Provider.PageLifecycleProvider.Render` | src/PageLifecycleProvider.tsx:61-100 | Records the rendered location. Raises the flag exactly when a previous location exists, the flag is down and the location changed. Counter, events and previous location are unchanged. The invariant (complete events plus a pending arming equal the armings) is kept |
| `Provider.PageLifecycleProvider.Effect` | src/PageLifecycleProvider.tsx:102-125 | Runs for the location of the render just before it. Flag down: no event and the flag stays down. Flag up with count 0: a start then a complete event for the effect's location, and the flag goes down. Flag up with loads outstanding: only a start, and the flag stays up. Afterwards the previous location is the effect's location |
| `Provider.PageLifecycleProvider.Begin` | src/PageLifecycleProvider.tsx:127-133 | The counter goes up by exactly 1. Flag, events and locations are unchanged |
| `Provider.PageLifecycleProvider.End` | src/PageLifecycleProvider.tsx:135-152 | The counter goes down by exactly 1. A complete event for the latest rendered location is appended, and the flag lowered, if and only if the new count is 0 and the flag was up. Otherwise events and flag are unchanged, so a late end never emits |
| `Provider.MergeKeys` | src/PageLifecycleProvider.tsx:216-219 | `Merge` is the `reduce` at lines 200-203 and 216-219. The left fold of the slot contents has exactly the keys that occur in some slot, and is empty when there are no slots |
| `Provider.MergeLastWins` | src/PageLifecycleProvider.tsx:200-203 | On a key collision, the fold holds the value of the last slot that has the key |
| `Provider.MergeAppend` | src/PageLifecycleProvider.tsx:216-219 | Folding a concatenation equals merging the two folds, later one on top |
| `Provider.PayloadKeys` | src/PageLifecycleProvider.tsx:199-205 | `Payload` is the object built at lines 199-205 and 229-232. `PageLoadStartEvent` (`raisePageLoadStartEvent`, lines 188-208) and `PageLoadCompleteEvent` (`raisePageLoadCompleteEvent`, lines 210-235) carry it with the originator `PageEvents`. The payload's `location` is the given location, overriding any slot's. Every other key is present exactly when some slot has it |
| `Provider.PayloadLastWins` | src/PageLifecycleProvider.tsx:229-232 | Every key other than `location` carries the value of the last slot that holds it |
| `Provider.CompleteCountAppend` | src/PageLifecycleProvider.tsx:226-234 | Appending one event to the stream adds one to its complete count exactly when that event is a complete |
| `Provider.InitialLoadWithoutData` | src/PageLifecycleProvider.tsx:113-122 | A first load with no data loads yields exactly start then complete, with only the location in the payload |
| `Provider.FirstEffectStarts` | src/PageLifecycleProvider.tsx:61-133 | After mounting, any sequence of renders, begun loads and slot renders leaves the flag raised (line 68). So the first effect's first event is a start for the last rendered location, followed at most by a complete. An end before that effect breaks this, as `EndBeforeFirstEffect` shows |
| `Provider.EndBeforeFirstEffect` | src/PageLifecycleProvider.tsx:102-152 | A begin and an end before the provider's first effect raise a complete for the initial location. The effect then raises nothing, so the initial load never gets a start event |
| `Provider.LoadDuringRender` | tests/PageLifecycleProvider.spec.tsx:179-211 | A load begun while rendering: one start event until the load ends, then exactly one complete |
| `Provider.LazyLoadedPage` | tests/PageLifecycleProvider.spec.tsx:213-258 | Two overlapping loads: the first end raises nothing, and the second raises exactly one complete |
| `Provider.NavigationWithoutNewLoads` | tests/PageLifecycleProvider.spec.tsx:260-304 | After the first page completes, navigating to a page with no new load yields start and complete for it at once |
| `Provider.NavigationWhileLoading` | src/PageLifecycleProvider.tsx:85-152 | A navigation during an outstanding load raises one start for the new location. The outstanding end completes the new page |
| `Provider.CompleteBeforeStart` | src/PageLifecycleProvider.tsx:102-152 | An end between a navigation's render and its effect emits complete for the new location before any start, and the effect then emits nothing |
| `Provider.MetadataBeforeStart` | src/PageLifecycleProvider.tsx:196-205 | Metadata registered during the render is in the start event's payload, with its own values |
| `PageProps.SlotContentsUpdate` | src/PageProps.tsx:18-19 | `SlotContents`, and the registry's `Contents`, are the `val.current` of each listed slot, read by the fold at src/PageLifecycleProvider.tsx:200-201. Overwriting a slot changes the listed contents only at that slot's positions. An unlisted slot changes nothing |
| `PageProps.SlotContentsAppend` | src/PageProps.tsx:18-24 | Registering an unlisted slot with contents `v` makes the listed contents the old ones followed by `v` alone |
| `PageProps.SlotContentsRemove` | src/PageProps.tsx:29-32 | Removing the slot listed at position i removes exactly the contents at position i. The rest keep their order |
| `PageProps.SlotRegistry.constructor` | src/PageLifecycleProvider.tsx:73-82 | The shared list starts empty |
| `PageProps.SlotRegistry.Update` | src/PageProps.tsx:18-19 | The slot's contents become `pageProperties`, or the empty bag when absent. Other slots and the list are unchanged |
| `PageProps.SlotRegistry.Register` | src/PageProps.tsx:22-24 | A listed slot leaves the list unchanged (idempotent). An absent slot is appended at the end, keeping the others' order. No duplicates, as the invariant says |
| `PageProps.SlotRegistry.RenderSlot` | src/PageProps.tsx:17-24 | One render: contents overwritten, then push-if-absent. For an unlisted slot, the contents the provider folds gain the new contents at the end. For a listed slot, they change only at that slot's position |
| `PageProps.SlotRegistry.Unregister` | src/PageProps.tsx:26-35 | A listed slot is removed and the rest keep their order, so the contents the provider folds lose exactly that slot's entry. An unlisted slot makes the splice drop the last slot and its contents (an empty list stays empty). The slots' stored contents are untouched and no duplicates appear |
| `PageProps.RegisterThenUnregister` | src/PageProps.tsx:22-32 | Registering an absent slot and then unregistering it restores the list |
| `Sequences.IndexOf` | src/PageProps.tsx:22 | -1 exactly when the element is absent. Otherwise the position of its first occurrence |
| `Sequences.IndexOfFirst` | src/PageLifecycle.ts:70 | A position holding the element, with no earlier occurrence, is the one found |
| `Sequences.SpliceOneAt` | src/PageLifecycle.ts:72 | `SpliceOne` is `splice(start, 1)`, including JavaScript's treatment of a negative or too-large start. Splicing at a valid index removes exactly that element, keeps the order of the rest, and takes one copy out of the multiset |
| `Sequences.SpliceOneMinusOne` | src/PageProps.tsx:29-32 | `splice(-1, 1)` drops the last element of a non-empty list and leaves an empty one empty |
| `Sequences.RemoveAtKeepsNoDuplicates` | src/PageProps.tsx:29-32 | Removing from a duplicate-free list keeps it duplicate-free, and the removed element is gone |
| `Sequences.RemoveFirstSpec` | src/PageLifecycle.ts:69-74 | `RemoveFirst` is the body of the `off…` methods at lines 70-73. Remove-first is a no-op on an absent element. Otherwise it drops exactly the first occurrence and keeps the order of the rest |
| `Sequences.RemoveFirstMultiset` | src/PageLifecycle.ts:69-74 | Remove-first takes exactly one copy of the element out of the multiset of listeners, and none when it is absent |
| `Sequences.RemoveFirstAfterAppend` | src/PageLifecycle.ts:65-74 | Adding then removing an absent element restores the list. For a present element, the earlier copy is the one removed |
| `Lifecycle.EnsureContext` | src/PageLifecycle.ts:15-23 | Fails with the configuration error if and only if the context is absent. Otherwise returns the given context itself |
| `Lifecycle.PageLifecycle.constructor` | src/PageLifecycle.ts:35-51 | Both listener lists start empty |
| `Lifecycle.PageLifecycle.PageStateChanged` | src/PageLifecycle.ts:53-57 | Every page-state listener is invoked exactly once, in list order, with the same state |
| `Lifecycle.PageLifecycle.RouteChanged` | src/PageLifecycle.ts:59-63 | Every route listener is invoked exactly once, in list order, with the same location |
| `Lifecycle.PageLifecycle.OnPageStateChanged` | src/PageLifecycle.ts:65-67 | Appends the callback, duplicates allowed. The route list is unchanged |
| `Lifecycle.PageLifecycle.OffPageStateChanged` | src/PageLifecycle.ts:69-74 | Removes the first occurrence; no-op when absent. The route list is unchanged |
| `Lifecycle.PageLifecycle.OnRouteChanged` | src/PageLifecycle.ts:76-78 | Appends the callback, duplicates allowed. The page-state list is unchanged |
| `Lifecycle.PageLifecycle.OffRouteChanged` | src/PageLifecycle.ts:80-85 | Removes the first occurrence; no-op when absent. The page-state list is unchanged |
| `Lifecycle.SubscribeThenUnsubscribe` | src/PageLifecycle.ts:53-74 | A listener added and then removed is not called back. An earlier listener still is |

## Left out

- React wiring is not modelled: hooks, the context providers, `React.Children.only` and render-prop forwarding. This covers `withPageLifecycle.tsx`, `Page.tsx`, `PageAdditionalProps.tsx`, `index.ts` and the provider's return (src/PageLifecycleProvider.tsx:154-170). It only forwards values.
- `PageLifecycle`'s forwarded functions (`updatePageProps`, `pageRenderComplete`, `beginLoadingData`, `endLoadingData`) are left out. The class only stores them, and the first two are implemented in none of the source files.
- The effect's dependency array (src/PageLifecycleProvider.tsx:125) is not modelled. The caller invokes `Effect` only where React would re-run the effect, after a render whose location or flag changed.
- The order in which React runs child and parent effects is left to the caller's sequencing of steps.
- Logging (`logger.debug`, `noopLogger`, `util/log.ts`) is left out because it has no effect on state.
- Event timestamps (`new Date().getTime()`) are left out; they come from the clock.
- `page-load-failed` is declared as an event kind, but no code raises it. The class invariant states that no failed event is ever in the stream.
- The `onEvent` sink is assumed to return without calling `beginLoadingData` or `endLoadingData` and without causing a re-render of the provider. Each step runs atomically here. The source hands each event to `onEvent` before it lowers the flag (src/PageLifecycleProvider.tsx:114-121 and :143-150). So a re-entrant sink can raise a second complete event for one raising of the flag, for example by a begin then an end inside its handling of a complete. It can also lose a navigation: a synchronous re-render inside `onEvent` sees the flag still up, and the flag is lowered afterwards. The class invariant (two complete events always have a raising of the flag between them) therefore holds only for sinks that do not call back in.
- A listener that changes a listener list while it is being notified (re-entrancy) is not modelled. Notification produces the sequence of invocations over the list as it was when notification began.
- The `currentPageLocation` field of the provider's context value is left out. It is fixed at the first render and is only forwarded.
