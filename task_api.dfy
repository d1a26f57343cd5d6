/**
 * The JSON and HTML handlers of todo_app/main.py over the `tasks` table.
 *
 * The first half states each handler's effect on the table as a pure
 * transition (`AfterCreate`, `AfterToggle`, `AfterDelete`) and proves what
 * any run of handler calls preserves. The second half is the table as a
 * mutable object (`TaskStore`) whose methods are the handlers, each proved
 * to perform that transition and to return what the handler returns.
 */
module TaskApi {
  import opened Wrappers
  import opened Models

  /** Request body of POST /api/tasks: a title, with no validation at all. */
  datatype TaskCreate = TaskCreate(title: string)

  /** Response model of the JSON endpoints: the row without its owner column. */
  datatype TaskResponse = TaskResponse(id: int, title: string, isComplete: bool)

  /** An `HTTPException` raised by a handler. */
  datatype HttpException = HttpException(statusCode: int, detail: string)

  /** The only error any handler raises. */
  const NotFound := HttpException(404, "Task not found")

  /** Body of a successful DELETE: `{"ok": true}`. */
  datatype DeleteAck = DeleteAck(ok: bool)

  /** What `response_model=TaskResponse` serialises of a row: everything but the owner. */
  function ToResponse(t: Task): (r: TaskResponse)
    ensures r.id == t.id && r.title == t.title && r.isComplete == t.isComplete
  {
    TaskResponse(t.id, t.title, t.isComplete)
  }

  /** `response_model=List[TaskResponse]`: each row serialised, in the same order. */
  function Responses(s: seq<Task>): (r: seq<TaskResponse>)
    ensures |r| == |s|
    ensures forall i :: 0 <= i < |s| ==> r[i] == ToResponse(s[i])
  {
    seq(|s|, i requires 0 <= i < |s| => ToResponse(s[i]))
  }

  // ---------------------------------------------------------------------
  // The table as a value
  // ---------------------------------------------------------------------

  /** The rows by primary key, and the next key the storage's sequence hands out. */
  datatype Table = Table(rows: map<int, Task>, nextId: int)

  /** Each row is stored under its own id, and every id is below the sequence's next value. */
  ghost predicate WellKeyed(t: Table) {
    forall id :: id in t.rows ==> t.rows[id].id == id && id < t.nextId
  }

  /** What `create_task` commits: a row with the next id, the given title, not complete, no owner. */
  function AfterCreate(t: Table, title: string): (u: Table)
    ensures u.rows.Keys == t.rows.Keys + {t.nextId}
    ensures u.rows[t.nextId] == Task(t.nextId, title, false, None)
    ensures forall id :: id in t.rows && id != t.nextId ==> u.rows[id] == t.rows[id]
    ensures u.nextId > t.nextId
    ensures WellKeyed(t) ==> t.nextId !in t.rows && WellKeyed(u)
  {
    Table(t.rows[t.nextId := Task(t.nextId, title, false, None)], t.nextId + 1)
  }

  /** A row after `db_task.is_complete = not db_task.is_complete`. */
  function Toggled(row: Task): (r: Task)
    ensures r.id == row.id && r.title == row.title && r.ownerId == row.ownerId
    ensures r.isComplete != row.isComplete
  {
    row.(isComplete := !row.isComplete)
  }

  /** What `toggle_task` commits: the flag of that row flipped; a missing id changes nothing. */
  function AfterToggle(t: Table, id: int): (u: Table)
    ensures u.rows.Keys == t.rows.Keys && u.nextId == t.nextId
    ensures id in t.rows ==> u.rows[id] == Toggled(t.rows[id])
    ensures forall k :: k in t.rows && k != id ==> u.rows[k] == t.rows[k]
    ensures id !in t.rows ==> u == t
  {
    if id in t.rows then t.(rows := t.rows[id := Toggled(t.rows[id])]) else t
  }

  /** What `delete_task` commits: that row gone, every other row kept; a missing id changes nothing. */
  function AfterDelete(t: Table, id: int): (u: Table)
    ensures u.rows.Keys == t.rows.Keys - {id} && u.nextId == t.nextId
    ensures forall k :: k in u.rows ==> u.rows[k] == t.rows[k]
    ensures id !in t.rows ==> u == t
  {
    if id in t.rows then t.(rows := t.rows - {id}) else t
  }

  /** A state-changing request. (Listing changes nothing and is left out of runs.) */
  datatype Call = Create(title: string) | Toggle(taskId: int) | Delete(taskId: int)

  function Step(t: Table, c: Call): Table {
    match c
    case Create(title) => AfterCreate(t, title)
    case Toggle(id) => AfterToggle(t, id)
    case Delete(id) => AfterDelete(t, id)
  }

  /** The table after the calls, one after the other. */
  function Run(t: Table, calls: seq<Call>): Table
    decreases |calls|
  {
    if calls == [] then t else Run(Step(t, calls[0]), calls[1..])
  }

  /** The same call `n` times. */
  function Repeat(c: Call, n: nat): (r: seq<Call>)
    ensures |r| == n && forall i :: 0 <= i < n ==> r[i] == c
  {
    if n == 0 then [] else [c] + Repeat(c, n - 1)
  }

  /** Every call keeps the table well keyed. */
  lemma {:induction false} RunKeepsWellKeyed(t: Table, calls: seq<Call>)
    requires WellKeyed(t)
    ensures WellKeyed(Run(t, calls)) && Run(t, calls).nextId >= t.nextId
    decreases |calls|
  {
    if calls != [] {
      var u := Step(t, calls[0]);
      assert WellKeyed(u) && u.nextId >= t.nextId;
      RunKeepsWellKeyed(u, calls[1..]);
    }
  }

  /**
   * Every row of `u` is either a row of `t` with the same id, title and
   * owner, or a row created later whose owner is NULL: no handler ever
   * writes `title` or `owner_id` of an existing row.
   */
  ghost predicate DescendsFrom(u: Table, t: Table) {
    && u.nextId >= t.nextId
    && forall id :: id in u.rows ==>
      if id in t.rows then
        u.rows[id].title == t.rows[id].title && u.rows[id].ownerId == t.rows[id].ownerId
      else
        t.nextId <= id < u.nextId && u.rows[id].ownerId == None
  }

  lemma StepDescends(t: Table, c: Call)
    requires WellKeyed(t)
    ensures DescendsFrom(Step(t, c), t)
  {
  }

  lemma DescendsTransitive(v: Table, u: Table, t: Table)
    requires WellKeyed(t) && DescendsFrom(v, u) && DescendsFrom(u, t)
    ensures DescendsFrom(v, t)
  {
  }

  /** Titles and owners of surviving rows are never changed, and new rows never get an owner. */
  lemma {:induction false} RunDescends(t: Table, calls: seq<Call>)
    requires WellKeyed(t)
    ensures DescendsFrom(Run(t, calls), t)
    decreases |calls|
  {
    if calls == [] {
    } else {
      var u := Step(t, calls[0]);
      StepDescends(t, calls[0]);
      RunKeepsWellKeyed(t, [calls[0]]);
      assert Run(t, [calls[0]]) == u;
      RunDescends(u, calls[1..]);
      DescendsTransitive(Run(u, calls[1..]), u, t);
    }
  }

  /** Toggling the same id twice restores the table. */
  lemma ToggleTwiceRestores(t: Table, id: int)
    ensures AfterToggle(AfterToggle(t, id), id) == t
  {
  }

  /** Toggling an id an even number of times is no change; an odd number of times is one toggle. */
  lemma {:induction false} ToggleParity(t: Table, id: int, n: nat)
    ensures Run(t, Repeat(Toggle(id), n)) == if n % 2 == 0 then t else AfterToggle(t, id)
    decreases n
  {
    if n > 0 {
      var calls := Repeat(Toggle(id), n);
      assert calls[1..] == Repeat(Toggle(id), n - 1);
      ToggleParity(AfterToggle(t, id), id, n - 1);
      ToggleTwiceRestores(t, id);
    }
  }

  /** How many of the calls toggle `id`. */
  function CountToggles(calls: seq<Call>, id: int): (n: nat)
    ensures n <= |calls|
    decreases |calls|
  {
    if calls == [] then 0
    else (if calls[0] == Toggle(id) then 1 else 0) + CountToggles(calls[1..], id)
  }

  /**
   * Whatever other rows are created, toggled or deleted meanwhile, a row that
   * is not deleted survives, and its flag is flipped exactly when it was
   * toggled an odd number of times.
   */
  lemma {:induction false} ToggleParityAmidCalls(t: Table, id: int, calls: seq<Call>)
    requires WellKeyed(t) && id in t.rows
    requires Delete(id) !in calls
    ensures id in Run(t, calls).rows
    ensures Run(t, calls).rows[id].isComplete == (t.rows[id].isComplete != (CountToggles(calls, id) % 2 == 1))
    decreases |calls|
  {
    if calls != [] {
      var u := Step(t, calls[0]);
      RunKeepsWellKeyed(t, [calls[0]]);
      assert Run(t, [calls[0]]) == u;
      assert id in u.rows;
      assert u.rows[id].isComplete == (t.rows[id].isComplete != (calls[0] == Toggle(id)));
      assert Delete(id) !in calls[1..] by {
        forall k | 0 <= k < |calls[1..]| ensures calls[1..][k] != Delete(id) {
          assert calls[1..][k] == calls[k + 1];
        }
      }
      ToggleParityAmidCalls(u, id, calls[1..]);
    }
  }

  /** Without creates, nothing can bring a deleted id back, whatever the id allocation. */
  lemma {:induction false} DeletedStaysDeletedWithoutCreate(t: Table, id: int, calls: seq<Call>)
    requires id !in t.rows
    requires forall k :: 0 <= k < |calls| ==> !calls[k].Create?
    ensures id !in Run(t, calls).rows
    decreases |calls|
  {
    if calls != [] {
      DeletedStaysDeletedWithoutCreate(Step(t, calls[0]), id, calls[1..]);
    }
  }

  /** Once a row is deleted no call brings its id back: the sequence never hands an id out twice. */
  lemma {:induction false} DeletedStaysDeleted(t: Table, id: int, calls: seq<Call>)
    requires WellKeyed(t) && id in t.rows
    ensures id !in Run(AfterDelete(t, id), calls).rows
  {
    var u := AfterDelete(t, id);
    RunDescends(u, calls);
  }

  /** Each row of the table is listed exactly once, in no promised order. */
  ghost predicate ListsExactly(s: seq<Task>, rows: map<int, Task>) {
    && |s| == |rows|
    && (forall i :: 0 <= i < |s| ==> s[i].id in rows && rows[s[i].id] == s[i])
    && (forall i, j :: 0 <= i < j < |s| ==> s[i].id != s[j].id)
    && (forall id :: id in rows ==> rows[id] in s)
  }

  /** A non-empty set has an element to pick. */
  lemma HasElement(s: set<int>)
    requires s != {}
    ensures exists x :: x in s
  {
    if forall x :: x !in s {
      assert false;
    }
  }

  // ---------------------------------------------------------------------
  // The table as the object the handlers update
  // ---------------------------------------------------------------------

  /** The `tasks` table as the handlers see it through their session. */
  class TaskStore {
    var rows: map<int, Task>
    var nextId: int

    ghost function State(): Table
      reads this
    {
      Table(rows, nextId)
    }

    ghost predicate Valid()
      reads this
    {
      WellKeyed(State())
    }

    /** `create_all` on a new database: an empty table whose sequence starts at 1. */
    constructor ()
      ensures Valid() && rows == map[] && nextId == 1
    {
      rows := map[];
      nextId := 1;
    }

    /** An existing database, opened with its rows and its sequence's current value. */
    constructor Open(existing: Table)
      requires WellKeyed(existing)
      ensures Valid() && State() == existing
    {
      rows := existing.rows;
      nextId := existing.nextId;
    }

    /** `db.query(models.Task).all()`: every row, in whatever order the storage yields them. */
    method QueryAll() returns (all: seq<Task>)
      requires Valid()
      ensures ListsExactly(all, rows)
    {
      all := [];
      var pending := rows.Keys;
      while pending != {}
        invariant pending <= rows.Keys
        invariant |all| + |pending| == |rows|
        invariant forall i :: 0 <= i < |all| ==> all[i].id in rows.Keys - pending && rows[all[i].id] == all[i]
        invariant forall i, j :: 0 <= i < j < |all| ==> all[i].id != all[j].id
        invariant forall id :: id in rows.Keys - pending ==> rows[id] in all
        decreases pending
      {
        HasElement(pending);
        var key :| key in pending;
        all := all + [rows[key]];
        pending := pending - {key};
      }
    }

    /** GET /: the template receives every row, unfiltered. */
    method ReadRoot() returns (tasks: seq<Task>)
      requires Valid()
      ensures ListsExactly(tasks, rows)
    {
      tasks := QueryAll();
    }

    /** GET /api/tasks: every row, unfiltered, through the response model. */
    method GetTasks() returns (resp: seq<TaskResponse>)
      requires Valid()
      ensures exists all :: ListsExactly(all, rows) && resp == Responses(all)
    {
      var all := QueryAll();
      resp := Responses(all);
    }

    /** POST /api/tasks: inserts a fresh row for any title, the empty one included. */
    method CreateTask(task: TaskCreate) returns (resp: TaskResponse)
      requires Valid()
      modifies this
      ensures Valid()
      ensures State() == AfterCreate(old(State()), task.title)
      ensures resp.id !in old(rows) && rows.Keys == old(rows.Keys) + {resp.id}
      ensures resp == TaskResponse(resp.id, task.title, false) == ToResponse(rows[resp.id])
      ensures rows[resp.id].ownerId == None
    {
      var dbTask := Task(nextId, task.title, false, None);
      rows := rows[dbTask.id := dbTask];
      nextId := nextId + 1;
      resp := ToResponse(dbTask);
    }

    /** PUT /api/tasks/{id}: flips the flag, or 404 with the table untouched. */
    method ToggleTask(taskId: int) returns (r: Result<TaskResponse, HttpException>)
      requires Valid()
      modifies this
      ensures Valid()
      ensures State() == AfterToggle(old(State()), taskId)
      ensures taskId !in old(rows) ==> r == Failure(NotFound) && rows == old(rows)
      ensures taskId in old(rows) ==> r == Success(ToResponse(rows[taskId]))
      ensures taskId in old(rows) ==> rows[taskId].isComplete == !old(rows[taskId].isComplete)
    {
      if taskId !in rows {
        return Failure(NotFound);
      }
      var dbTask := rows[taskId];
      dbTask := dbTask.(isComplete := !dbTask.isComplete);
      rows := rows[taskId := dbTask];
      r := Success(ToResponse(dbTask));
    }

    /** DELETE /api/tasks/{id}: removes the row and acknowledges, or 404 with the table untouched. */
    method DeleteTask(taskId: int) returns (r: Result<DeleteAck, HttpException>)
      requires Valid()
      modifies this
      ensures Valid()
      ensures State() == AfterDelete(old(State()), taskId)
      ensures r == if taskId in old(rows) then Success(DeleteAck(true)) else Failure(NotFound)
    {
      if taskId !in rows {
        return Failure(NotFound);
      }
      rows := rows - {taskId};
      r := Success(DeleteAck(true));
    }
  }
}
