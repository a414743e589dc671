# Todo list reducers in Dafny

A model of the state logic of a small Redux todo-list application. The
application keeps one immutable state made of a list of todo items and a
visibility filter. Pure reducers compute the next state from an action, and a
selector derives the items the list view shows. The model covers:

- `TodoModel`: the item, action and state datatypes, the three filter names
  and the initial state `([], "SHOW_ALL")`.
- `Reducers`: the per-item reducer `todo`, the list reducer `todos`, the
  filter reducer `visibilityFilter`, and the root reducer that `combineReducers`
  builds from them, written as applying each sub-reducer to its own field.
- `Selectors`: `getVisibleTodos`, with an order-preserving filter on
  `completed`.
- `Dispatch`: the root reducer folded over a list of actions, giving the state
  the store holds after dispatching them in order. It is used to state
  properties over many dispatches.

Ids are opaque strings carried by the add action. The code never checks that
they are unique, so the model does not assume it. `Reducers.AddUniqueIds`
states exactly when an add keeps them unique. `Reducers.DuplicateIdsBothToggle`
shows that one toggle flips every item sharing the id. The filter is a plain
string: the reducer stores whatever the action carries, and the selector shows
the whole list for any value it does not recognise. The model assumes neither
that the filter is one of the three names nor that ids are unique, because the
code enforces neither.

## Model

| member | source | states |
|---|---|---|
| Reducers.Todo | src/index.js:9-30 | An add builds `Item(id, text, false)` whatever the old item. A toggle keeps the id and text. It returns the item unchanged when the id differs and negates `completed` when it matches. Any other action returns the old value. A toggle needs an item, because the code throws on `undefined`. |
| Reducers.MapTodo | src/index.js:41 | Has the same length as the input, and element i is the item reducer applied to element i. |
| Reducers.Todos | src/index.js:32-45 | An add gives length +1, with the old list as prefix and `Item(id, text, false)` last. A toggle keeps the length and every id and text. It leaves items with another id unchanged and negates `completed` on every item with the id. Filter-setting and unknown actions return the list unchanged. |
| Reducers.VisibilityFilter | src/index.js:48-55 | A filter-setting action stores its filter verbatim. Every other action keeps the current filter. |
| Reducers.TodoApp | src/index.js:70-73 | A filter-setting action leaves the items untouched and stores the filter. Add and toggle leave the filter untouched. An unknown action leaves the whole state unchanged. |
| Reducers.TodoAppIsFieldwise | src/index.js:70-73 | The next item list is what the list reducer computes from the old item list, and the next filter is what the filter reducer computes from the old filter. Two states with the same item list get the same next item list, and two with the same filter get the same next filter, whatever the other field holds. |
| Reducers.TodoToggleTwice | src/index.js:18-26 | Toggling one item twice with the same id gives back the original item. |
| Reducers.ToggleInvolution | src/index.js:18-41 | Applying the same toggle twice to any list gives back the original list, including when several items share the id or none has it. |
| Reducers.ToggleKeepsIds | src/index.js:23-26 | A toggle changes neither which ids are present nor whether they are unique. |
| Reducers.AddUniqueIds | src/index.js:35-39 | After an add the ids are unique exactly when they were unique before and the new id was absent. |
| Reducers.DuplicateIdsBothToggle | src/index.js:18-41 | Adding the same id twice gives two items with that id, and one toggle flips both. |
| Selectors.Keep | src/index.js:63-65 | The result is an order-preserving subsequence of the input. Its elements all have the requested `completed`, and an item is in it exactly when it is in the input with that flag. |
| Selectors.VisibleTodos | src/index.js:58-69 | `SHOW_COMPLETED` and `SHOW_ACTIVE` give an order-preserving subsequence that holds exactly the completed (respectively active) items of the input. `SHOW_ALL` and every unrecognised string give the input unchanged. |
| Selectors.KeepCount | src/index.js:63-65 | An item occurs in the filtered list exactly as many times as in the input when its flag matches, and not at all otherwise, so repeated equal items are all kept. |
| Selectors.VisibleCounts | src/index.js:58-69 | Under `SHOW_COMPLETED` every completed item occurs as often as in the list and no active item occurs; under `SHOW_ACTIVE` the reverse. |
| Selectors.PartitionRoundTrip | src/index.js:62-65 | Merging the completed view and the active view back along the items' `completed` flags rebuilds the original list in its original order. |
| Selectors.PartitionSizes | src/index.js:62-65 | The lengths of the completed and active views add up to the list length, and their multisets add up to the list's multiset. |
| Dispatch.TodosIds | src/index.js:32-45 | One step of the list reducer appends the added id (for an add) and keeps every other id in place. |
| Dispatch.RunIds | src/index.js:32-45 | After any sequence of dispatches, the ids are the old ids followed by the added ids in dispatch order, and the length grows by the number of adds: no id is removed or moved. |
| Dispatch.RunKeys | src/index.js:32-45 | After any sequence of dispatches, position by position, the items carry the old (id, text) pairs followed by those of the adds in dispatch order, so an item's id and text never change and only `completed` can. |
| Dispatch.RunFilter | src/index.js:48-55 | After any sequence of dispatches, the filter is `LastFilter` of the actions over the old filter; items never affect it. |
| Dispatch.LastFilterIsLast | src/index.js:48-55 | `LastFilter` is the filter carried by the filter-setting action with the highest index, and the current filter when no action sets one. |
| Dispatch.BuyMilkScenario | src/index.js:9-45 | Adding "buy milk" with id "1" to the initial state gives one active item and filter `SHOW_ALL`. One toggle completes the item and a second makes it active again. |
| Dispatch.ShowCompletedScenario | src/index.js:58-69 | With one active and one completed item and the filter set to `SHOW_COMPLETED`, only the completed item is visible. |

## Left out

- The React components `FilterLink`, `TodoItem`, `TodoList`, `AddTodo`, `Footer` and `TodoApp` (src/index.js:80-183): UI rendering and event wiring, with no state logic of their own.
- `createStore`, the devtools hook, `store.subscribe(render)` and `ReactDOM.render` (src/index.js:75-77, 186-195): library pub-sub and DOM output. `Dispatch.Run` models only the state reached after the dispatches. It does not model subscriber notification.
- `shortId.generate()` (src/index.js:161): an external id generator. Ids arrive as opaque strings in the action.
- The `undefined` defaults of `todos` and `visibilityFilter`: modelled by the explicit initial state `TodoModel.Initial`, not by partial functions.
- Reducers.Todo: a toggle on an `undefined` item throws a TypeError in the code. The model excludes that call with a precondition instead of modelling the exception. The list reducer never makes that call.
- `combineReducers` internals: its check that no sub-reducer returns `undefined`, which a filter action without a `filter` field would trip, and its reuse of the old state object when no field changed. Action payloads here are always strings, and the model has no object identity.
- Action fields beyond each tag's payload, and the concrete type string of unknown actions: every unknown action is the single constructor `Other`.
