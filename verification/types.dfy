/** The task record and the home screen's filter choice (lib/types.ts). */
module Types {
  import opened Wrappers

  /** One to-do item. Optional fields of the record are `Option`s; `dueDate` is an ISO date-time string. */
  datatype Task = Task(
    id: string,
    title: string,
    description: Option<string>,
    completed: bool,
    dueDate: Option<string>)

  /** The three tabs of the home screen. */
  datatype TaskFilter = All | Completed | Pending
}
