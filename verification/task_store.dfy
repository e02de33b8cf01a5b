/**
 * The task store of store/useTaskStore.ts: one piece of state, the task
 * collection, four operations on it, and its persistence under the fixed
 * key "TASKS" of the device's key-value storage.
 */
module TaskStore {
  import opened Wrappers
  import opened Types
  import opened TaskList

  /** The one storage key the store reads and writes. */
  const StorageKey: string := "TASKS"

  /**
   * A stored value, with JSON abstracted away: text that `JSON.stringify`
   * produced for a collection, the empty string, or non-empty text that
   * `JSON.parse` rejects (its characters are not modelled).
   */
  datatype Blob = Json(tasks: seq<Task>) | EmptyString | Unparseable

  /** `JSON.parse` rejecting the stored text. */
  datatype LoadError = ParseError

  /** `JSON.stringify` of a collection; parsing gives it back exactly. */
  function Stringify(tasks: seq<Task>): (b: Blob)
    ensures Parse(b) == Ok(tasks)
    ensures b != EmptyString
  {
    Json(tasks)
  }

  /** `JSON.parse` of a stored value: it succeeds exactly on what `JSON.stringify` wrote. The empty string is not valid JSON either. */
  function Parse(b: Blob): (r: Result<seq<Task>, LoadError>)
    ensures r.Ok? <==> b.Json?
    ensures r.Ok? ==> b == Json(r.value)
  {
    match b
    case Json(tasks) => Ok(tasks)
    case EmptyString => Err(ParseError)
    case Unparseable => Err(ParseError)
  }

  /** What `AsyncStorage.getItem(key)` resolves to: the value, or null when the key is absent. */
  function GetItem(items: map<string, Blob>, key: string): (r: Option<Blob>)
    ensures r.None? <==> key !in items
    ensures r.Some? ==> r.value == items[key]
  {
    if key in items then Some(items[key]) else None
  }

  /**
   * The collection `loadTasks` sets from what `getItem` returned: a missing
   * value and the (falsy) empty string both give the empty collection, a
   * value `JSON.stringify` wrote gives back the collection written, and only
   * a value `JSON.parse` rejects fails, rather than loading as empty.
   */
  function LoadResult(json: Option<Blob>): (r: Result<seq<Task>, LoadError>)
    ensures json.None? ==> r == Ok([])
    ensures json == Some(EmptyString) ==> r == Ok([])
    ensures forall t :: json == Some(Stringify(t)) ==> r == Ok(t)
    ensures r.Err? <==> json == Some(Unparseable)
  {
    match json
    case None => Ok([])
    case Some(EmptyString) => Ok([])
    case Some(b) => Parse(b)
  }

  /** Whatever collection is written under the key, a later load reads it back. */
  lemma LoadAfterWrite(items: map<string, Blob>, tasks: seq<Task>)
    ensures LoadResult(GetItem(items[StorageKey := Stringify(tasks)], StorageKey)) == Ok(tasks)
  {
  }

  /** A load from storage that never held the key gives the empty collection, not an error. */
  lemma LoadFromEmptyStorage(items: map<string, Blob>)
    requires StorageKey !in items
    ensures LoadResult(GetItem(items, StorageKey)) == Ok([])
  {
  }

  /** Device storage: it outlives any one store, so a restarted app reads what the last one wrote. */
  class DeviceStorage {
    var items: map<string, Blob>

    constructor (items: map<string, Blob>)
      ensures this.items == items
    {
      this.items := items;
    }
  }

  class Store {
    /** The in-memory collection the screens render. */
    var tasks: seq<Task>
    /** The storage the store persists to. */
    const storage: DeviceStorage

    /** A load at this moment would give back exactly the in-memory collection. */
    predicate InSync()
      reads this, storage
    {
      LoadResult(GetItem(storage.items, StorageKey)) == Ok(tasks)
    }

    /** A new store starts with no tasks and does not touch storage. */
    constructor (storage: DeviceStorage)
      ensures this.storage == storage && tasks == []
    {
      this.storage := storage;
      tasks := [];
    }

    /**
     * `loadTasks`: replace (never merge) the collection with what storage
     * holds, or with the empty collection when nothing is stored. When the
     * stored text does not parse the call fails and the collection is left
     * as it was.
     */
    method LoadTasks() returns (r: Result<seq<Task>, LoadError>)
      modifies this
      ensures r == LoadResult(GetItem(storage.items, StorageKey))
      ensures r.Ok? ==> tasks == r.value && InSync()
      ensures r.Err? ==> tasks == old(tasks)
      ensures storage.items == old(storage.items)
    {
      var json := GetItem(storage.items, StorageKey);
      r := LoadResult(json);
      if r.Ok? {
        tasks := r.value;
      }
    }

    /**
     * `addTask`: append `task` and write the whole new collection under the
     * key. Ids stay unique exactly when `task.id` was new.
     */
    method AddTask(task: Task)
      modifies this, storage
      ensures tasks == Added(old(tasks), task)
      ensures storage.items == old(storage.items)[StorageKey := Stringify(tasks)]
      ensures InSync()
      ensures UniqueIds(tasks) <==> UniqueIds(old(tasks)) && !HasId(old(tasks), task.id)
    {
      var next := Added(tasks, task);
      storage.items := storage.items[StorageKey := Stringify(next)];
      tasks := next;
      AddedUniqueIff(old(tasks), task);
    }

    /**
     * `updateTask`: replace the entry with `task`'s id by `task` and write the
     * whole collection, even when no entry matched.
     */
    method UpdateTask(task: Task)
      modifies this, storage
      ensures tasks == Updated(old(tasks), task)
      ensures storage.items == old(storage.items)[StorageKey := Stringify(tasks)]
      ensures InSync()
      ensures !HasId(old(tasks), task.id) ==> tasks == old(tasks)
      ensures UniqueIds(old(tasks)) ==> UniqueIds(tasks)
    {
      var next := Updated(tasks, task);
      storage.items := storage.items[StorageKey := Stringify(next)];
      tasks := next;
      if !HasId(old(tasks), task.id) {
        UpdatedMissingIsNoop(old(tasks), task);
      }
      if UniqueIds(old(tasks)) {
        UpdatedPreservesUnique(old(tasks), task);
      }
    }

    /**
     * `deleteTask`: remove every entry with this id and write the whole
     * collection, even when no entry matched.
     */
    method DeleteTask(id: string)
      modifies this, storage
      ensures tasks == Deleted(old(tasks), id)
      ensures storage.items == old(storage.items)[StorageKey := Stringify(tasks)]
      ensures InSync()
      ensures !HasId(old(tasks), id) ==> tasks == old(tasks)
      ensures UniqueIds(old(tasks)) ==> UniqueIds(tasks)
    {
      var next := Deleted(tasks, id);
      storage.items := storage.items[StorageKey := Stringify(next)];
      tasks := next;
      if !HasId(old(tasks), id) {
        DeletedMissingIsNoop(old(tasks), id);
      }
      if UniqueIds(old(tasks)) {
        DeletedPreservesUnique(old(tasks), id);
      }
    }
  }

  /**
   * The collection starts empty, not loaded: an `addTask` before the first
   * `loadTasks` writes a one-entry collection under the key, and whatever
   * was stored there before is lost.
   */
  method AddBeforeLoad(device: DeviceStorage, a: Task) returns (store: Store)
    modifies device
    ensures store.storage == device && store.tasks == [a]
    ensures device.items == old(device.items)[StorageKey := Json([a])]
    ensures LoadResult(GetItem(device.items, StorageKey)) == Ok([a])
  {
    store := new Store(device);
    store.AddTask(a);
  }

  /**
   * A session that adds `a` and then `b` to a fresh store, followed by a
   * restarted app that loads from the same storage: the new store gets
   * `[a, b]` back, in that order.
   */
  method AddThenReload(device: DeviceStorage, a: Task, b: Task) returns (reloaded: seq<Task>)
    modifies device
    ensures reloaded == [a, b]
  {
    var first := new Store(device);
    first.AddTask(a);
    first.AddTask(b);
    var second := new Store(device);
    var r := second.LoadTasks();
    reloaded := second.tasks;
  }
}
