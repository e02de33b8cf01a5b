/**
 * The three new collections the store computes (store/useTaskStore.ts):
 * append for `addTask`, replace-by-id for `updateTask` and remove-by-id for
 * `deleteTask`, with what each does to order, contents and id uniqueness.
 */
module TaskList {
  import opened Types
  import opened Sequences

  /** Some entry of `tasks` carries `id`. */
  predicate HasId(tasks: seq<Task>, id: string) {
    exists i :: 0 <= i < |tasks| && tasks[i].id == id
  }

  /** No two entries of `tasks` share an id. */
  predicate UniqueIds(tasks: seq<Task>) {
    forall i, j :: 0 <= i < j < |tasks| ==> tasks[i].id != tasks[j].id
  }

  /** `addTask`: the collection with `task` appended, no duplicate check. */
  function Added(tasks: seq<Task>, task: Task): (r: seq<Task>)
    ensures |r| == |tasks| + 1
    ensures r[..|tasks|] == tasks && r[|tasks|] == task
  {
    tasks + [task]
  }

  /**
   * The callback `updateTask` maps over the collection: an entry with
   * `task`'s id becomes `task` itself, any other stays as it is, so no
   * field is ever merged and no id ever changes.
   */
  function Replacing(task: Task): (f: Task -> Task)
    ensures forall t :: f(t).id == t.id
    ensures forall t: Task :: t.id == task.id ==> f(t) == task
    ensures forall t: Task :: t.id != task.id ==> f(t) == t
  {
    (t: Task) => if t.id == task.id then task else t
  }

  /** `updateTask`: every entry whose id is `task.id` replaced by `task`, the rest untouched. */
  function Updated(tasks: seq<Task>, task: Task): (r: seq<Task>)
    ensures |r| == |tasks|
    ensures forall i :: 0 <= i < |tasks| ==>
              r[i] == (if tasks[i].id == task.id then task else tasks[i])
  {
    Map(tasks, Replacing(task))
  }

  /** The callback `deleteTask` filters with: keep an entry exactly when its id is not `id`. */
  function Keeps(id: string): Task -> bool {
    (t: Task) => t.id != id
  }

  /** `deleteTask`: every entry whose id is `id` removed. */
  function Deleted(tasks: seq<Task>, id: string): (r: seq<Task>)
    ensures !HasId(r, id)
    ensures forall t :: t in r ==> t in tasks
  {
    var r := Filter(tasks, Keeps(id));
    assert forall i :: 0 <= i < |r| ==> r[i] in r;
    r
  }

  /** Appending keeps ids unique exactly when the collection had unique ids and lacked the new one. */
  lemma AddedUniqueIff(tasks: seq<Task>, task: Task)
    ensures UniqueIds(Added(tasks, task)) <==> UniqueIds(tasks) && !HasId(tasks, task.id)
  {
    var r := Added(tasks, task);
    if UniqueIds(r) {
      assert UniqueIds(tasks) by {
        forall i, j | 0 <= i < j < |tasks| ensures tasks[i].id != tasks[j].id {
          assert r[i] == tasks[i] && r[j] == tasks[j];
        }
      }
      forall i | 0 <= i < |tasks| ensures tasks[i].id != task.id {
        assert r[i] == tasks[i] && r[|tasks|] == task;
      }
    }
  }

  /** Updating an id that is not present changes nothing. */
  lemma UpdatedMissingIsNoop(tasks: seq<Task>, task: Task)
    requires !HasId(tasks, task.id)
    ensures Updated(tasks, task) == tasks
  {
    var r := Updated(tasks, task);
    forall i | 0 <= i < |tasks| ensures r[i] == tasks[i] {
      assert tasks[i].id != task.id;
    }
  }

  /** Updating twice with the same record is updating once. */
  lemma UpdatedIdempotent(tasks: seq<Task>, task: Task)
    ensures Updated(Updated(tasks, task), task) == Updated(tasks, task)
  {
    var once := Updated(tasks, task);
    var twice := Updated(once, task);
    forall i | 0 <= i < |tasks| ensures twice[i] == once[i] {
    }
  }

  /** Updating leaves the id at every position as it was. */
  lemma UpdatedKeepsIds(tasks: seq<Task>, task: Task)
    ensures forall i :: 0 <= i < |tasks| ==> Updated(tasks, task)[i].id == tasks[i].id
    ensures forall id :: HasId(Updated(tasks, task), id) <==> HasId(tasks, id)
  {
    var r := Updated(tasks, task);
    forall id ensures HasId(r, id) <==> HasId(tasks, id) {
      if HasId(r, id) {
        var i :| 0 <= i < |r| && r[i].id == id;
        assert tasks[i].id == id;
      }
      if HasId(tasks, id) {
        var i :| 0 <= i < |tasks| && tasks[i].id == id;
        assert r[i].id == id;
      }
    }
  }

  /** Updating keeps ids unique. */
  lemma UpdatedPreservesUnique(tasks: seq<Task>, task: Task)
    requires UniqueIds(tasks)
    ensures UniqueIds(Updated(tasks, task))
  {
    UpdatedKeepsIds(tasks, task);
  }

  /** When the id is present the new record is in the result, as given: no field is merged from the old one. */
  lemma UpdatedStoresRecord(tasks: seq<Task>, task: Task)
    requires HasId(tasks, task.id)
    ensures task in Updated(tasks, task)
  {
    var i :| 0 <= i < |tasks| && tasks[i].id == task.id;
    assert Updated(tasks, task)[i] == task;
  }

  /**
   * Deleting keeps every entry with another id, each as often as before and
   * in the same relative order, and keeps none with the deleted id.
   */
  lemma DeletedKeepsOthers(tasks: seq<Task>, id: string)
    ensures IsSubsequence(Deleted(tasks, id), tasks)
    ensures forall t :: multiset(Deleted(tasks, id))[t] ==
              if t.id != id then multiset(tasks)[t] else 0
  {
    FilterIsSubsequence(tasks, Keeps(id));
    FilterMultiset(tasks, Keeps(id));
  }

  /** Deleting an id that is not present changes nothing. */
  lemma DeletedMissingIsNoop(tasks: seq<Task>, id: string)
    requires !HasId(tasks, id)
    ensures Deleted(tasks, id) == tasks
  {
    FilterKeepsAll(tasks, Keeps(id));
  }

  /** Deleting the same id twice is deleting it once. */
  lemma DeletedIdempotent(tasks: seq<Task>, id: string)
    ensures Deleted(Deleted(tasks, id), id) == Deleted(tasks, id)
  {
    FilterIdempotent(tasks, Keeps(id));
  }

  /** Deleting keeps ids unique. */
  lemma {:induction false} DeletedPreservesUnique(tasks: seq<Task>, id: string)
    requires UniqueIds(tasks)
    ensures UniqueIds(Deleted(tasks, id))
  {
    if tasks != [] {
      var rest := Deleted(tasks[1..], id);
      DeletedPreservesUnique(tasks[1..], id);
      if Keeps(id)(tasks[0]) {
        var r := [tasks[0]] + rest;
        assert r == Deleted(tasks, id);
        forall j | 0 < j < |r| ensures r[0].id != r[j].id {
          assert r[j] in rest;
          var k :| 0 <= k < |tasks[1..]| && tasks[1..][k] == r[j];
          assert tasks[k + 1] == r[j];
        }
      }
    }
  }

  /** With unique ids, deleting a present id removes exactly one entry. */
  lemma {:induction false} DeletedRemovesOne(tasks: seq<Task>, id: string)
    requires UniqueIds(tasks) && HasId(tasks, id)
    ensures |Deleted(tasks, id)| == |tasks| - 1
  {
    if tasks[0].id == id {
      forall k | 0 <= k < |tasks[1..]| ensures tasks[1..][k].id != id {
        assert tasks[1..][k] == tasks[k + 1];
      }
      DeletedMissingIsNoop(tasks[1..], id);
    } else {
      var i :| 0 <= i < |tasks| && tasks[i].id == id;
      assert tasks[1..][i - 1].id == id;
      DeletedRemovesOne(tasks[1..], id);
    }
  }
}
