/** The persistent row type of the `tasks` table (todo_app/models.py). */
module Models {
  import opened Wrappers

  /**
   * One row of `tasks`: an integer primary key, the title text, the
   * completion flag (column default false) and a nullable owner column.
   */
  datatype Task = Task(id: int, title: string, isComplete: bool, ownerId: Option<string>)
}
