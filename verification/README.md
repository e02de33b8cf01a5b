# TodoManager task store, in Dafny

This project models the core of TodoManager, a mobile to-do list app. The
core is its task store (`store/useTaskStore.ts`) and what the home screen
(`app/home.tsx`) derives from the store. The project proves properties of
that model.

The store holds one piece of state: the ordered collection of tasks. It has
four operations:

- `loadTasks` replaces the collection with what device storage holds under
  the key `"TASKS"`.
- `addTask` appends a task.
- `updateTask` replaces, by id, the whole record.
- `deleteTask` removes every entry with the given id.

Each mutation writes the whole new collection back under that key.

The home screen shows a filtered list for the selected tab (All, Completed,
Pending). It also shows the completed and pending tallies, a count badge per
tab, a subtitle that depends on the tallies, and fixed-height rows.

Files:

- `wrappers.dfy` defines `Option` and `Result`.
- `types.dfy` defines the `Task` record and `TaskFilter` (`lib/types.ts`).
- `sequences.dfy` models `Array.prototype.filter` and `Array.prototype.map`
  as `Filter` and `Map`. It also proves general facts about filtering: order
  is kept, multiplicities are kept, filtering is idempotent, and a predicate
  and its negation split the input: the two filters hold every element
  exactly as often as the input does.
- `task_list.dfy` holds the three new collections the store computes: `Added`,
  `Updated` and `Deleted`. It also holds their lemmas about order, contents,
  no-ops, idempotence and id uniqueness.
- `task_store.dfy` holds the class `Store`, with the real field `tasks`. It
  also holds the class `DeviceStorage`, which stands for AsyncStorage: a map
  from keys to stored values that outlives any one `Store`. A restarted app
  is modelled as a new `Store` over the same `DeviceStorage`. JSON is
  abstract here: `Stringify` produces `Json(tasks)`, and `Parse` gives back
  exactly that collection. The other stored values are the empty string and
  text that `JSON.parse` rejects.
- `home.dfy` holds the home-screen projections.

The store imports `Task` from `@/types/task`, which is not part of this
model. It is taken to have the same shape as `lib/types.ts`.

Facts about the code that shape the model:

- `setItem` is never awaited. The model writes storage when the mutation
  happens, before `set`, in the code's order.
- `updateTask` maps over the whole collection and replaces every entry with
  that id. With unique ids there is at most one such entry.
- The load condition is `json ? JSON.parse(json) : []`. An empty stored
  string is therefore treated like a missing key and gives `[]`. A corrupt
  value makes `JSON.parse` throw. `loadTasks` then fails without calling
  `set`, so the collection is unchanged. `LoadTasks` returns `Err(ParseError)`
  in that case.
- `tasks` starts as `[]`, not as what storage holds. An `addTask` before the
  first `loadTasks` therefore replaces whatever was stored with a one-entry
  collection. `TaskStore.AddBeforeLoad` states this.

## Model

| member | source | states |
|---|---|---|
| `Sequences.Filter` | store/useTaskStore.ts:35 | the filtered array is no longer than the input, and every element in it comes from the input and satisfies the predicate |
| `Sequences.Map` | store/useTaskStore.ts:28 | the mapped array has the input's length, and position i holds the callback applied to input position i |
| `Sequences.FilterPartition` | app/home.tsx:188-189 | filtering by a predicate and by its negation splits the input: the two results' multisets add up to the input's, and so do their lengths |
| `Sequences.FilterEmptyIff` | app/home.tsx:258 | a filter gives the empty array exactly when no element satisfies the predicate |
| `TaskList.Added` | store/useTaskStore.ts:21 | appending grows the collection by one, keeps every earlier entry in place and in order, and puts the new task last |
| `TaskList.AddedUniqueIff` | store/useTaskStore.ts:19-24 | without a duplicate check, ids stay unique after `addTask` if and only if they were unique before and the new id was absent |
| `TaskList.Replacing` | store/useTaskStore.ts:28 | the `map` callback of `updateTask` never changes an id, returns the new record itself on an id match, and returns the entry unchanged otherwise |
| `TaskList.Updated` | store/useTaskStore.ts:28 | `updateTask` keeps the length, and position i holds `task` when the old entry's id matches and the old entry otherwise, as a whole-record replace with no field merge |
| `TaskList.UpdatedMissingIsNoop` | store/useTaskStore.ts:28 | updating an id that is not present leaves the collection unchanged |
| `TaskList.UpdatedIdempotent` | store/useTaskStore.ts:28 | applying the same update twice equals applying it once |
| `TaskList.UpdatedKeepsIds` | store/useTaskStore.ts:28 | every position keeps its id, so the set of present ids is unchanged |
| `TaskList.UpdatedPreservesUnique` | store/useTaskStore.ts:28 | `updateTask` preserves id uniqueness |
| `TaskList.UpdatedStoresRecord` | store/useTaskStore.ts:28 | when the id is present, the given record itself, with every field as passed, is in the result |
| `TaskList.Deleted` | store/useTaskStore.ts:35 | `Deleted` filters with `Keeps(id)`, the line-35 callback that keeps an entry whose id is not `id`; after `deleteTask(id)` no entry carries `id`, and every remaining entry was in the old collection |
| `TaskList.DeletedKeepsOthers` | store/useTaskStore.ts:35 | the result is a subsequence of the old collection, and it holds every entry with another id exactly as often as before and no entry with `id` |
| `TaskList.DeletedMissingIsNoop` | store/useTaskStore.ts:35 | deleting an id that is not present leaves the collection unchanged |
| `TaskList.DeletedIdempotent` | store/useTaskStore.ts:35 | deleting the same id twice equals deleting it once |
| `TaskList.DeletedPreservesUnique` | store/useTaskStore.ts:35 | `deleteTask` preserves id uniqueness |
| `TaskList.DeletedRemovesOne` | store/useTaskStore.ts:33-38 | with unique ids, deleting a present id removes exactly one entry |
| `TaskStore.Stringify` | store/useTaskStore.ts:22 | serialising a collection gives a value that parses back to exactly that collection and is never the empty string |
| `TaskStore.Parse` | store/useTaskStore.ts:17 | `JSON.parse` succeeds exactly on a value `JSON.stringify` wrote, and then gives back the collection written; the empty string and other text fail |
| `TaskStore.GetItem` | store/useTaskStore.ts:16 | `getItem` gives nothing exactly when the key is absent, and otherwise the value stored under it |
| `TaskStore.LoadResult` | store/useTaskStore.ts:16-17 | a missing key and the (falsy) empty string both give the empty collection; a value `JSON.stringify` wrote loads back as the collection written; the load fails exactly when the value is one `JSON.parse` rejects, so corrupt data never loads as empty |
| `TaskStore.LoadAfterWrite` | store/useTaskStore.ts:16-22 | after a collection is written under `"TASKS"`, a load reads back exactly that collection |
| `TaskStore.LoadFromEmptyStorage` | store/useTaskStore.ts:16-17 | a load from storage that never held the key gives the empty collection, not an error |
| `TaskStore.DeviceStorage.constructor` | store/useTaskStore.ts:2 | AsyncStorage is a key-value map that exists apart from any store; a storage object starts with the given contents |
| `TaskStore.Store.constructor` | store/useTaskStore.ts:13-14 | a new store starts with an empty collection and does not touch storage |
| `TaskStore.Store.LoadTasks` | store/useTaskStore.ts:15-18 | on success, the collection is replaced wholesale by the stored one (or by `[]` when nothing is stored) and is in sync with storage; on a parse failure it is unchanged; storage is never written |
| `TaskStore.Store.AddTask` | store/useTaskStore.ts:19-25 | the new collection is the old one with the task appended, the value under `"TASKS"` is that collection, other keys are untouched, and ids are unique afterwards exactly when they were before and the id was new |
| `TaskStore.Store.UpdateTask` | store/useTaskStore.ts:26-32 | the new collection is the by-id replacement of the old one, and it is persisted under `"TASKS"` even when nothing matched; a missing id leaves it unchanged; uniqueness is preserved |
| `TaskStore.Store.DeleteTask` | store/useTaskStore.ts:33-39 | the new collection is the old one without entries of that id, and it is persisted under `"TASKS"` even when nothing matched; a missing id leaves it unchanged; uniqueness is preserved |
| `TaskStore.AddBeforeLoad` | store/useTaskStore.ts:14-24 | an `addTask` on a store that has not loaded yet replaces whatever was stored under `"TASKS"` with the one-entry collection `[a]`, and a later load gives `[a]` |
| `TaskStore.AddThenReload` | store/useTaskStore.ts:13-24 | adding `a` then `b` to a fresh store, then loading in a new store over the same storage, gives `[a, b]` in that order |
| `Home.Filtered` | app/home.tsx:180-186 | `filtered` is no longer than `tasks`, and every task in it is in `tasks` and is completed under the Completed tab and pending under the Pending tab |
| `Home.CompletedCount` | app/home.tsx:188 | `completedCount` is at most the number of tasks, and it is zero exactly when no task is completed |
| `Home.PendingCount` | app/home.tsx:189 | `pendingCount` is at most the number of tasks, and it is zero exactly when every task is completed |
| `Home.FilteredAll` | app/home.tsx:180-182 | the All tab lists the collection unchanged |
| `Home.FilteredCompleted` | app/home.tsx:180-188 | the Completed tab lists exactly the completed tasks with their multiplicities and in their original relative order, and it lists `completedCount` of them |
| `Home.FilteredPending` | app/home.tsx:180-189 | the Pending tab lists exactly the pending tasks with their multiplicities and in their original relative order, and it lists `pendingCount` of them |
| `Home.CountsPartition` | app/home.tsx:188-189 | `completedCount + pendingCount` equals the number of tasks, and each is at most that number |
| `Home.BadgeMatchesList` | app/home.tsx:237-251 | each tab's list is as long as its badge count; a tab shows a badge if and only if that count is positive, which holds if and only if selecting the tab shows a list rather than the empty state (line 258) |
| `Home.BadgeCount` | app/home.tsx:237-251 | the number on each tab's badge (`tasks.length`, `completedCount` or `pendingCount`) equals the number of tasks that tab lists |
| `Home.ShowsBadge` | app/home.tsx:237-251 | a tab renders a count badge exactly when some task belongs to that tab |
| `Home.ShowsList` | app/home.tsx:258 | the list, rather than the empty state, is rendered exactly when some task belongs to the selected tab |
| `Home.SubtitleFor` | app/home.tsx:221-225 | the subtitle shows a summary if and only if there are tasks; its numbers are then `pendingCount` and `completedCount`, which add up to the number of tasks, so at least one is positive |
| `Home.GetItemLayout` | app/home.tsx:171-178 | row `index` has height 72 and keeps its index |
| `Home.LayoutOffset` | app/home.tsx:171-178 | the offset of row `index` is the summed height of all rows before it |
| `Home.LayoutTiles` | app/home.tsx:107-178 | each row ends where the next one begins, so offsets strictly increase with the index |

## Left out

- AsyncStorage's asynchrony: writes are never awaited in the code, so two writes in flight can land in either order. The model applies each write at once. Write races and write failures are not modelled, and neither is a failing `getItem`.
- The read side of that asynchrony: `loadTasks` awaits `getItem` before calling `set` (store/useTaskStore.ts:16-17). A mutation made while that read is pending is overwritten in memory by the load's `set`. The model runs each load as one step, so it does not capture this.
- JSON text: serialisation is abstract. A stored value is a serialised collection, the empty string, or `Unparseable`, which stands for any non-empty text `JSON.parse` rejects; the characters of stored text are not modelled. Text that parses to something other than an array of tasks (for example `"null"`) is not modelled.
- zustand's `create`/`set` and the React hooks (`useState`, `useEffect`, `useCallback`) are framework plumbing. They are not modelled, and neither is the loading and refreshing state of the home screen.
- Styling, theming, navigation and the view-only files (`app/_layout.tsx`, `app/+not-found.tsx`, `components/EmptyState.tsx`, `lib/styled.d.ts`) are not modelled.
- `app/login.tsx` is a simulated gate, a delay followed by navigation. It is not modelled.
- `components/TaskItem.tsx` is gestures, a confirmation dialog and locale-dependent date formatting. Its only store use is `deleteTask`, which is modelled.
- `FlatList` virtualisation options and the platform and status-bar conditionals are UI tuning and are not modelled.
- The subtitle's text is not modelled. `Home.SubtitleFor` gives which variant is shown and the numbers it shows, not the formatted sentence.
- `Home.GetItemLayout` takes a natural-number row index. The source's `index` is a JavaScript number, but the list only passes row positions.
