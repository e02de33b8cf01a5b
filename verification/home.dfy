/**
 * What the home screen (app/home.tsx) derives from the store's collection on
 * every render: the list for the selected tab, the two tallies, the count
 * badges, the subtitle, and the fixed-height row layout of the list.
 */
module Home {
  import opened Types
  import opened Sequences

  /** The callback the visible list is filtered with, for the selected tab. */
  function Shows(filter: TaskFilter): Task -> bool {
    (t: Task) =>
      if filter == All then true
      else if filter == Completed then t.completed
      else !t.completed
  }

  /** The tasks listed under the selected tab: all of them, or only the completed or only the pending ones. */
  function Filtered(tasks: seq<Task>, filter: TaskFilter): (r: seq<Task>)
    ensures |r| <= |tasks|
    ensures forall t :: t in r ==>
              t in tasks && (filter == Completed ==> t.completed) && (filter == Pending ==> !t.completed)
  {
    Filter(tasks, Shows(filter))
  }

  predicate IsDone(t: Task) {
    t.completed
  }

  predicate IsOpen(t: Task) {
    !t.completed
  }

  /** `completedCount`: how many tasks are done; zero exactly when none is. */
  function CompletedCount(tasks: seq<Task>): (n: nat)
    ensures n <= |tasks|
    ensures n == 0 <==> forall i :: 0 <= i < |tasks| ==> !tasks[i].completed
  {
    FilterEmptyIff(tasks, IsDone);
    |Filter(tasks, IsDone)|
  }

  /** `pendingCount`: how many tasks are not done; zero exactly when all are. */
  function PendingCount(tasks: seq<Task>): (n: nat)
    ensures n <= |tasks|
    ensures n == 0 <==> forall i :: 0 <= i < |tasks| ==> tasks[i].completed
  {
    FilterEmptyIff(tasks, IsOpen);
    |Filter(tasks, IsOpen)|
  }

  /** The All tab lists the collection unchanged. */
  lemma FilteredAll(tasks: seq<Task>)
    ensures Filtered(tasks, All) == tasks
  {
    FilterKeepsAll(tasks, Shows(All));
  }

  /**
   * The Completed tab lists exactly the completed tasks, each as often as in
   * the collection and in the collection's order, and there are
   * `completedCount` of them.
   */
  lemma FilteredCompleted(tasks: seq<Task>)
    ensures IsSubsequence(Filtered(tasks, Completed), tasks)
    ensures forall t :: multiset(Filtered(tasks, Completed))[t] ==
              if t.completed then multiset(tasks)[t] else 0
    ensures |Filtered(tasks, Completed)| == CompletedCount(tasks)
  {
    FilterIsSubsequence(tasks, Shows(Completed));
    FilterMultiset(tasks, Shows(Completed));
    FilterCongruent(tasks, Shows(Completed), IsDone);
  }

  /**
   * The Pending tab lists exactly the tasks not completed, each as often as
   * in the collection and in the collection's order, and there are
   * `pendingCount` of them.
   */
  lemma FilteredPending(tasks: seq<Task>)
    ensures IsSubsequence(Filtered(tasks, Pending), tasks)
    ensures forall t :: multiset(Filtered(tasks, Pending))[t] ==
              if t.completed then 0 else multiset(tasks)[t]
    ensures |Filtered(tasks, Pending)| == PendingCount(tasks)
  {
    FilterIsSubsequence(tasks, Shows(Pending));
    FilterMultiset(tasks, Shows(Pending));
    FilterCongruent(tasks, Shows(Pending), IsOpen);
  }

  /** Every task is either completed or pending: the two tallies add up to the collection's size. */
  lemma CountsPartition(tasks: seq<Task>)
    ensures CompletedCount(tasks) + PendingCount(tasks) == |tasks|
    ensures CompletedCount(tasks) <= |tasks| && PendingCount(tasks) <= |tasks|
  {
    FilterPartition(tasks, IsDone, IsOpen);
  }

  /** The number each tab's badge displays: how many tasks that tab lists. */
  function BadgeCount(tasks: seq<Task>, filter: TaskFilter): (n: nat)
    ensures n == |Filtered(tasks, filter)|
  {
    match filter
    case All => FilteredAll(tasks); |tasks|
    case Completed => FilteredCompleted(tasks); CompletedCount(tasks)
    case Pending => FilteredPending(tasks); PendingCount(tasks)
  }

  /** Whether the tab for `filter` renders a count badge: exactly when some task belongs to that tab. */
  predicate ShowsBadge(tasks: seq<Task>, filter: TaskFilter)
    ensures ShowsBadge(tasks, filter) <==> exists i :: 0 <= i < |tasks| && Shows(filter)(tasks[i])
  {
    assert |tasks| > 0 ==> Shows(All)(tasks[0]);
    assert forall i :: 0 <= i < |tasks| ==>
      Shows(Completed)(tasks[i]) == tasks[i].completed && Shows(Pending)(tasks[i]) == !tasks[i].completed;
    (filter == All && |tasks| > 0)
    || (filter == Completed && CompletedCount(tasks) > 0)
    || (filter == Pending && PendingCount(tasks) > 0)
  }

  /** Whether the list area renders the task list (otherwise the empty state): exactly when some task belongs to the tab. */
  predicate ShowsList(tasks: seq<Task>, filter: TaskFilter)
    ensures ShowsList(tasks, filter) <==> exists i :: 0 <= i < |tasks| && Shows(filter)(tasks[i])
  {
    FilterEmptyIff(tasks, Shows(filter));
    |Filtered(tasks, filter)| > 0
  }

  /**
   * Each tab lists as many tasks as its badge counts, so a tab shows a badge
   * exactly when selecting it shows a list rather than the empty state.
   */
  lemma BadgeMatchesList(tasks: seq<Task>, filter: TaskFilter)
    ensures |Filtered(tasks, filter)| == BadgeCount(tasks, filter)
    ensures ShowsBadge(tasks, filter) <==> BadgeCount(tasks, filter) > 0
    ensures ShowsBadge(tasks, filter) <==> ShowsList(tasks, filter)
  {
  }

  /** The header subtitle: the two tallies, or an invitation to create the first task. */
  datatype Subtitle = Summary(pending: nat, completed: nat) | Prompt

  /**
   * The subtitle shows `pendingCount` and `completedCount` exactly when there
   * are tasks; the two then account for every task, so at least one of them
   * is positive.
   */
  function SubtitleFor(tasks: seq<Task>): (r: Subtitle)
    ensures r.Summary? <==> |tasks| > 0
    ensures r.Summary? ==> r.pending == PendingCount(tasks) && r.completed == CompletedCount(tasks)
    ensures r.Summary? ==> r.pending + r.completed == |tasks|
    ensures r.Summary? ==> r.pending > 0 || r.completed > 0
  {
    CountsPartition(tasks);
    if |tasks| > 0 then Summary(PendingCount(tasks), CompletedCount(tasks)) else Prompt
  }

  /** Every row of the list has this fixed height. */
  const ItemHeight: nat := 72

  /** Where the list places row `index`. */
  datatype ItemLayout = ItemLayout(length: nat, offset: nat, index: nat)

  /** `getItemLayout` for row `index`. */
  function GetItemLayout(index: nat): (l: ItemLayout)
    ensures l.index == index && l.length == ItemHeight
  {
    ItemLayout(ItemHeight, ItemHeight * index, index)
  }

  /** Row `index` starts after all rows before it, each `ItemHeight` tall. */
  lemma {:induction false} LayoutOffset(index: nat)
    ensures GetItemLayout(index).offset == RowsHeight(index)
  {
    if index > 0 {
      LayoutOffset(index - 1);
    }
  }

  /** The total height of the first `n` rows, added up row by row. */
  function RowsHeight(n: nat): nat {
    if n == 0 then 0 else RowsHeight(n - 1) + GetItemLayout(n - 1).length
  }

  /** Rows tile the list: each ends where the next begins, so offsets strictly increase with the index. */
  lemma LayoutTiles(i: nat, j: nat)
    ensures GetItemLayout(i).offset + GetItemLayout(i).length == GetItemLayout(i + 1).offset
    ensures i < j ==> GetItemLayout(i).offset < GetItemLayout(j).offset
  {
  }
}
