/**
 * The task record the client components receive (`TaskWithCategory`):
 * the category reduced to its colour and the subject to its id and name.
 * An empty `title` or `categoryColor` stands for a missing one.
 */
module Views {
  import opened Wrappers

  datatype SubjectView = SubjectView(id: string, name: string)

  datatype TaskView = TaskView(
    id: string,
    title: string,
    status: string,
    priority: int,
    categoryColor: string,
    subject: Option<SubjectView>,
    dueDate: Option<int>,        // milliseconds since the epoch
    completedAt: Option<int>,    // milliseconds since the epoch
    timeSpent: int)
}
