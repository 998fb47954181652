/** The records kept by the PrismaFlow store (types.ts), with the two
    wrapper types the model uses for optional values and for operations
    that either return a value or throw. */
module Types {

  /** An optional value: `token?` on a user, a field of a partial update,
      an absent session. */
  datatype Option<+T> = None | Some(value: T) {
    /** The wrapped value, or `default` when there is none. */
    function GetOr(default: T): T {
      match this
      case Some(v) => v
      case None => default
    }
  }

  /** The outcome of a store operation: a value, or the error it throws. */
  datatype Result<+R, +E> = Success(value: R) | Failure(error: E)

  /** Task urgency (types.ts:2-6). */
  datatype Priority = Low | Medium | High

  /** A task record (types.ts:8-17). */
  datatype Task = Task(
    id: string,
    title: string,
    description: string,
    priority: Priority,
    dueDate: string,
    completed: bool,
    userId: string,
    createdAt: string)

  /** An account record; `token` is optional (types.ts:19-24). */
  datatype User = User(id: string, username: string, email: string, token: Option<string>)

  /** `Partial<Task>`: every field of a task may be given or left out. */
  datatype TaskPatch = TaskPatch(
    id: Option<string>,
    title: Option<string>,
    description: Option<string>,
    priority: Option<Priority>,
    dueDate: Option<string>,
    completed: Option<bool>,
    userId: Option<string>,
    createdAt: Option<string>)

  /** The empty partial update `{}`. */
  const NoChanges := TaskPatch(None, None, None, None, None, None, None, None)
}
