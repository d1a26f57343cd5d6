# A verified model of the todo-app task store and database configuration

The application is a small FastAPI service over a single SQLAlchemy table,
`tasks`. Each row has an integer id, a title, a completion flag and a nullable
`owner_id` column. This project models two parts of it in Dafny 4.11:

- **The task handlers** (`todo_app/main.py`). These are `create_task`,
  `toggle_task`, `delete_task`, `get_tasks` and `read_root`. Module `TaskApi`
  states each handler's effect on the table as a pure transition on a `Table`
  value (`AfterCreate`, `AfterToggle`, `AfterDelete`). It also has a class
  `TaskStore` that holds the rows in a `map<int, Task>` field plus the storage's
  next-id sequence value. The handlers are methods of that class with
  `modifies this`. Each one is proved to perform its transition, to return
  the same response or HTTP 404 as the handler, and to keep the table well
  keyed. On top of that, lemmas about arbitrary runs of calls show three
  things: titles and owners of existing rows are never rewritten, new rows
  never get an owner, and a row that is not deleted ends up with its flag
  flipped exactly when it was toggled an odd number of times, whatever other
  calls come in between.
- **The connection configuration** (`todo_app/database.py`). Module `Database`
  provides the `DATABASE_URL` default, the rewrite of a leading `postgres://`
  to `postgresql://` (modelled through Python's `str.replace(old, new, 1)`
  semantics) and the `connect_args` choice. All of these are total pure
  functions, with lemmas for idempotence, prefix preservation and the
  concrete cases.

The row type is `Models.Task` (`todo_app/models.py:4-10`). `Wrappers` holds
`Option` (NULL column, unset environment variable) and `Result` (a
response, or the raised `HTTPException`).

The handlers have no notion of ownership. No handler reads or writes
`owner_id`, listing is unfiltered, and the only error any handler raises is
404. `RunDescends` proves that every run of handler calls leaves the owner of
every surviving row as it was and creates rows with no owner. The JSON
response model `TaskResponse` (`todo_app/main.py:35-38`) has only `id`,
`title` and `is_complete`, so `TaskResponse` here drops the owner too.

## Model

| member | source | states |
|---|---|---|
| `Database.DatabaseUrl` | todo_app/database.py:6 | An unset environment value gives `sqlite:///./todos.db`; a set value, even the empty string, is used verbatim |
| `Database.ReplaceFirst` | todo_app/database.py:8 | `replace(pat, repl, 1)`: with no occurrence the string is unchanged; otherwise the leftmost occurrence, and only it, is replaced by `repl` |
| `Database.FindFirst` | todo_app/database.py:8 | The result is the lowest index where the pattern occurs, or none when it occurs nowhere (used for `replace(..., 1)`) |
| `Database.ReplaceFirstAtPrefix` | todo_app/database.py:8 | When the string starts with the pattern, `replace(pat, repl, 1)` yields `repl` followed by the unchanged remainder |
| `Database.NormalizeUrl` | todo_app/database.py:7-8 | A URL starting with `postgres://` becomes `postgresql://` plus the unchanged remainder; any other URL is unchanged; the result never starts with `postgres://` |
| `Database.ConnectArgs` | todo_app/database.py:10 | `check_same_thread` is present exactly when the URL starts with `sqlite`, and is then `false`; no other key is ever present |
| `Database.Settings` | todo_app/database.py:6-10 | The configured URL never starts with `postgres://`, and it gets the SQLite argument exactly when it is a SQLite URL |
| `Database.NormalizeIdempotent` | todo_app/database.py:7-8 | Normalising twice equals normalising once |
| `Database.NormalizeKeepsSqlite` | todo_app/database.py:7-10 | The rewrite never changes whether the URL starts with `sqlite`, so the `connect_args` choice is the same before and after it |
| `Database.UnsetUsesSqliteFile` | todo_app/database.py:6-10 | With the environment value absent, the engine gets `sqlite:///./todos.db` and `{check_same_thread: false}` |
| `Database.ShortPostgresUrl` | todo_app/database.py:6-10 | For any remainder, `postgres://` + remainder is configured as `postgresql://` + remainder with empty `connect_args` |
| `Database.OnlyLeadingSchemeRewritten` | todo_app/database.py:8 | Only the first occurrence is replaced: `postgres://db/postgres://` becomes `postgresql://db/postgres://` |
| `Database.EmptyEnvironmentValue` | todo_app/database.py:6-10 | A set but empty environment value yields the empty URL and no SQLite argument |
| `TaskApi.ToResponse` | todo_app/main.py:35-41 | The serialised task carries the row's id, title and completion flag, and no owner |
| `TaskApi.Responses` | todo_app/main.py:48-50 | The serialised list has one entry per row, in the same order, each the row's `ToResponse` |
| `TaskApi.AfterCreate` | todo_app/main.py:53-58 | The new row gets the sequence's next id with the given title, `is_complete = false` and no owner; every existing row is kept; on a well-keyed table that id is unused and the result is well keyed |
| `TaskApi.Toggled` | todo_app/main.py:65 | The completion flag is negated; id, title and owner are kept |
| `TaskApi.AfterToggle` | todo_app/main.py:61-68 | On an existing id only that row changes, by `Toggled`; on a missing id the table is unchanged; the key set never changes |
| `TaskApi.AfterDelete` | todo_app/main.py:71-77 | Exactly that id leaves the key set; every other row is kept as it was; a missing id changes nothing |
| `TaskApi.RunKeepsWellKeyed` | todo_app/main.py:52-77 | Any sequence of create/toggle/delete calls keeps every row under its own id and below the next id, and the sequence value never decreases |
| `TaskApi.RunDescends` | todo_app/main.py:52-77 | After any sequence of calls, each surviving old row keeps its title and `owner_id`; each new row has a fresh id and a NULL owner |
| `TaskApi.ToggleTwiceRestores` | todo_app/main.py:65 | Toggling the same id twice returns the table to its original state |
| `TaskApi.ToggleParity` | todo_app/main.py:65 | Toggling an id `n` times equals no change for even `n` and one toggle for odd `n` |
| `TaskApi.ToggleParityAmidCalls` | todo_app/main.py:61-68 | In any run of calls that does not delete the row, the row survives, and its flag is flipped exactly when the run toggles it an odd number of times |
| `TaskApi.DeletedStaysDeletedWithoutCreate` | todo_app/main.py:70-77 | After a row is deleted, a run of toggles and deletes never makes its id exist again, so each of them on that id gets 404, whatever the id allocation |
| `TaskApi.DeletedStaysDeleted` | todo_app/main.py:70-77 | With sequence allocation, as on PostgreSQL, no later run of calls, creates included, makes a deleted id exist again |
| `TaskApi.TaskStore.constructor` | todo_app/main.py:11 | A freshly created table is empty, and its id sequence starts at 1 |
| `TaskApi.TaskStore.Open` | todo_app/main.py:11 | Opening an existing well-keyed database exposes exactly its rows and sequence value |
| `TaskApi.TaskStore.QueryAll` | todo_app/main.py:45 | `query(Task).all()` lists every row exactly once, each equal to the stored row, with no filtering, in an unspecified order |
| `TaskApi.TaskStore.ReadRoot` | todo_app/main.py:43-46 | The page is given every row of the table, unfiltered |
| `TaskApi.TaskStore.GetTasks` | todo_app/main.py:48-50 | The JSON list is the response view (id, title, completion) of a listing of exactly the rows of the table |
| `TaskApi.TaskStore.CreateTask` | todo_app/main.py:52-58 | Any title, the empty one included, is accepted. The table becomes `AfterCreate` of the old one, the returned id was unused, and the response echoes the title with `is_complete = false` |
| `TaskApi.TaskStore.ToggleTask` | todo_app/main.py:60-68 | A missing id gives 404 "Task not found" and an unchanged table. Otherwise the table becomes `AfterToggle` and the response is the updated row |
| `TaskApi.TaskStore.DeleteTask` | todo_app/main.py:70-77 | A missing id gives 404 and an unchanged table. Otherwise exactly that row is removed and `{ok: true}` is returned |

## Left out

- FastAPI application setup, routing, static mounting, template rendering and the service-worker `FileResponse` (`todo_app/main.py:11-30`, `43-46`): framework plumbing. `read_root` is modelled only as the rows it passes to the template.
- The per-request session (`get_db`), `commit`, `refresh` and transaction isolation between concurrent requests: these belong to the storage engine. Each handler is modelled as one atomic step on the table.
- Request validation by pydantic, e.g. a 422 for a body with no string `title`: it happens before the handler runs. The model starts from an already parsed `TaskCreate`.
- SQLAlchemy engine and session construction, `pool_pre_ping` and `declarative_base` (`todo_app/database.py:12-17`): foreign library calls. The model stops at the URL and `connect_args` that `create_engine` receives.
- `os.getenv` (`todo_app/database.py:6`): environment I/O. The value is a parameter of type `Option<string>`.
- `TaskApi.TaskStore.CreateTask`: id assignment is modelled as a counter that never hands out an id twice, like a PostgreSQL `SERIAL` sequence. The new id is always the counter's old value. SQLite without `AUTOINCREMENT`, the default backend, instead picks one more than the current largest rowid, so it can reuse the id of a deleted highest row. The model does not capture that allocation.
- `TaskApi.DeletedStaysDeleted`: holds for counter allocation only. On SQLite, creating two rows, deleting the second and creating a third gives the third row the deleted id, and a later toggle of that id succeeds. `DeletedStaysDeletedWithoutCreate` states the part that holds on both backends.
- Nullable `title` and `is_complete` columns (`todo_app/models.py:8-9`): the model's row has a non-optional title and flag, so rows written outside the application with NULL in either column are not represented. On such a row the source's `not None` would store `True`, and `TaskResponse` validation of a NULL title would fail.
- `TaskApi.TaskStore.QueryAll`: the order of rows is left unspecified. The storage returns them in its native order, and no `ORDER BY` is given.
- Integer width of ids: ids are unbounded integers. Overflow of a 64-bit rowid is not modelled.
- `todo_app/static/js/script.js` and `todo_app/static/sw.js`: browser DOM, `fetch`, timers and the Cache API, with no server-side state.
- Cookie identity, owner visibility filtering, 403 authorisation and adoption on toggle: none of them exist in the code, so none is modelled (see above).
