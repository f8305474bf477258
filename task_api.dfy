/** The task routes: create a task, change its status (stamping completion
    and spawning the next occurrence of a recurring task), change its audit
    state, and read its history. Each handler runs over a `Store`; the
    requester, the current date and the CURRENT_TIMESTAMP value are inputs. */
module TaskApi {
  import opened Util
  import opened Text
  import opened Calendar
  import opened Statuses
  import opened DateCalculator
  import opened TaskStore

  /** The requester decoded from the session token. The token carries the
      user's id and role only, so `name` is normally absent. */
  datatype Actor = Actor(id: int, name: Option<string>)

  datatype Response =
    | Created(task: TaskRow)                   // 201 with the new row
    | Ok                                       // 200 {success: true}
    | TaskList(tasks: seq<TaskView>)           // 200 with the rows
    | HistoryList(entries: seq<HistoryEntry>)  // 200 with the entries
    | BadRequest(message: string)              // 400
    | ServerError(message: string)             // 500

  /** The members of a create request body that reach `createTask`. */
  datatype CreateRequest = CreateRequest(
    title: Option<string>, clientId: Option<int>, doerId: Option<int>, remarks: Option<string>,
    frequency: Option<string>, logic: Option<Params>, status: Option<string>)

  /** `user?.id || null`. */
  function ActorId(actor: Option<Actor>): (r: Option<int>)
    ensures actor.None? ==> r.None?
    ensures r.Some? ==> actor.Some? && r.value == actor.value.id && r.value != 0
  {
    if actor.Some? then NullIfFalsy(Some(actor.value.id)) else None
  }

  /** `user ? user.name : "System"`. */
  function ActorName(actor: Option<Actor>): (r: Option<string>)
    ensures actor.None? ==> r == Some("System")
    ensures actor.Some? ==> r == actor.value.name
  {
    if actor.Some? then actor.value.name else Some("System")
  }

  /** The completion time a status update writes: today for a completion
      status, NULL for every other status. */
  function CompletedAtFor(status: string, today: Day): (r: Option<Day>)
    ensures r.Some? <==> IsCompletion(status)
    ensures r.Some? ==> r.value == today
  {
    if IsCompletion(status) then Some(today) else None
  }

  /** Whether the create request names a recurring frequency, which seeds
      the due date through the calculator. */
  predicate SeedsFromCalculator(req: CreateRequest) {
    Truthy(req.frequency) && req.frequency.value != OneTime
  }

  /** Whether the create request carries a one-time `date`. */
  predicate HasOneTimeDate(req: CreateRequest) {
    req.logic.Some? && Truthy(req.logic.value.date)
  }

  /** The due date a new task starts with: the calculator applied to today
      for a recurring frequency, else the parsed `due_date_logic.date`,
      else none. `parseDate` is `new Date(text)`, `None` being an invalid
      date; either failure makes the handler answer 500. */
  function InitialDueDate(req: CreateRequest, today: Day, parseDate: string -> Option<Day>)
    : (r: Result<Option<Day>, CalcError>)
    ensures SeedsFromCalculator(req) ==>
      (r.Success? <==> NextDueDate(today, req.frequency.value, req.logic.GetOr(NoParams)).Success?)
    ensures SeedsFromCalculator(req) && r.Success? ==>
      r.value == Some(NextDueDate(today, req.frequency.value, req.logic.GetOr(NoParams)).value)
    ensures !SeedsFromCalculator(req) && HasOneTimeDate(req) ==>
      (r.Success? <==> parseDate(req.logic.value.date.value).Some?)
      && (r.Success? ==> r.value == parseDate(req.logic.value.date.value))
    ensures !SeedsFromCalculator(req) && !HasOneTimeDate(req) ==> r == Success(None)
  {
    if SeedsFromCalculator(req) then
      match NextDueDate(today, req.frequency.value, req.logic.GetOr(NoParams))
      case Success(d) => Success(Some(d))
      case Failure(e) => Failure(e)
    else if HasOneTimeDate(req) then
      match parseDate(req.logic.value.date.value)
      case Some(d) => Success(Some(d))
      case None => Failure(InvalidDate)
    else Success(None)
  }

  /** A task created with a recognised recurring frequency is first due
      strictly after the day it is created. */
  lemma InitialDueDateIsLater(req: CreateRequest, today: Day, parseDate: string -> Option<Day>)
    requires SeedsFromCalculator(req) && IsRecurringLabel(req.frequency.value)
    requires var p := req.logic.GetOr(NoParams);
      req.frequency.value == "Monthly" && Truthy(p.dateOfMonth) ==>
        ParseInt(p.dateOfMonth.value).Some? && ParseInt(p.dateOfMonth.value).value >= 1
    ensures InitialDueDate(req, today, parseDate).Success?
    ensures InitialDueDate(req, today, parseDate).value.Some?
    ensures InitialDueDate(req, today, parseDate).value.value > today
  {
    NextDueDateAdvances(today, req.frequency.value, req.logic.GetOr(NoParams));
  }

  /** `{...req.body, due_date: initialDueDate}`. */
  function NewTaskOf(req: CreateRequest, due: Option<Day>): (t: NewTask)
    requires Truthy(req.title)
    ensures t.title == req.title.value && t.dueDate == due
  {
    NewTask(req.title.value, req.clientId, req.doerId, req.remarks, req.frequency, req.logic, due, req.status)
  }

  /** The task `createTask` is given for the next occurrence of `parent`. */
  function Successor(parent: TaskRow, due: Day): NewTask {
    NewTask(parent.title, parent.clientId, parent.doerId, Some(parent.remarks), Some(parent.frequency),
            Some(parent.logic), Some(due), Some(NotStarted))
  }

  /** The next occurrence copies its parent's title, client, doer, remarks,
      frequency and parameters, starts "Not Started" with the computed due
      date, and has not been completed or audited. */
  lemma SuccessorRow(parent: TaskRow, due: Day, id: int, stamp: Stamp)
    requires WellFormedRow(parent)
    ensures var row := InsertedRow(id, Successor(parent, due), stamp);
      && row.title == parent.title && row.clientId == parent.clientId && row.doerId == parent.doerId
      && row.remarks == parent.remarks && row.frequency == parent.frequency && row.logic == parent.logic
      && row.status == NotStarted && row.dueDate == Some(due)
      && row.completedAt.None? && row.auditStatus == AuditPending && WellFormedRow(row)
  {
    var row := InsertedRow(id, Successor(parent, due), stamp);
    assert parent.clientId.Some? ==> parent.clientId.value != 0;
    assert parent.doerId.Some? ==> parent.doerId.value != 0;
  }

  /** The due date of the next occurrence: the calculator applied to the
      parent's due date or, without one, to the completion day. */
  function SuccessorDue(parent: TaskRow, today: Day): Result<Day, CalcError> {
    NextDueDate(parent.dueDate.GetOr(today), parent.frequency, parent.logic)
  }

  /** The "Status Updated" history entry of the status route. */
  function StatusEntry(n: int, id: int, status: string, actor: Option<Actor>, stamp: Stamp): HistoryEntry {
    HistoryEntry(n, id, ActorId(actor), ActorName(actor), "Status Updated", "Status changed to " + status, stamp)
  }

  /** The "Auto-Generated" entry for a successor, written by "System". */
  function SpawnEntry(n: int, childId: int, parentId: nat, stamp: Stamp): HistoryEntry {
    HistoryEntry(n, childId, None, Some("System"), "Auto-Generated",
                 "Task auto-generated from recurring parent task #" + NatToString(parentId), stamp)
  }

  /** The "Audit Updated" history entry of the audit route. */
  function AuditEntry(n: int, id: int, auditStatus: string, actor: Option<Actor>, stamp: Stamp): HistoryEntry {
    HistoryEntry(n, id, ActorId(actor), ActorName(actor), "Audit Updated", "Audit status changed to " + auditStatus, stamp)
  }

  /** POST /: create a task. */
  method CreateTaskHandler(store: Store, req: CreateRequest, actor: Option<Actor>, today: Day,
                           parseDate: string -> Option<Day>, stamp: Stamp)
    returns (resp: Response)
    requires store.Valid() && store.clock <= stamp
    modifies store
    ensures store.Valid()
    ensures store.users == old(store.users) && store.clients == old(store.clients)
    ensures !Truthy(req.title) ==>
      && resp == BadRequest("Task title is required")
      && store.tasks == old(store.tasks) && store.history == old(store.history)
    ensures Truthy(req.title) && InitialDueDate(req, today, parseDate).Failure? ==>
      && resp == ServerError("Failed to create task")
      && store.tasks == old(store.tasks) && store.history == old(store.history)
    ensures Truthy(req.title) && InitialDueDate(req, today, parseDate).Success? ==>
      var t := NewTaskOf(req, InitialDueDate(req, today, parseDate).value);
      var row := InsertedRow(old(store.nextTaskId), t, stamp);
      && (old(!store.foreignKeys || store.ReferencesExist(t)) ==>
            && store.tasks == old(store.tasks)[row.id := row]
            && (actor.None? ==> resp == Created(row) && store.history == old(store.history))
            && (actor.Some? && (!store.foreignKeys || actor.value.id in store.users) ==>
                  && resp == Created(row)
                  && store.history == old(store.history)
                       + [HistoryEntry(|old(store.history)| + 1, row.id, Some(actor.value.id), actor.value.name,
                                       "Created", "Task created", stamp)])
            && (actor.Some? && store.foreignKeys && actor.value.id !in store.users ==>
                  resp == ServerError("Failed to create task") && store.history == old(store.history)))
      && (old(store.foreignKeys && !store.ReferencesExist(t)) ==>
            && resp == ServerError("Failed to create task")
            && store.tasks == old(store.tasks) && store.history == old(store.history))
  {
    if !Truthy(req.title) {
      return BadRequest("Task title is required");
    }
    var due := InitialDueDate(req, today, parseDate);
    if due.Failure? {
      return ServerError("Failed to create task");
    }
    var created := store.CreateTask(NewTaskOf(req, due.value), stamp);
    if created.Failure? {
      return ServerError("Failed to create task");
    }
    var row := created.value;
    if actor.Some? {
      var logged := store.LogTaskHistory(row.id, Some(actor.value.id), actor.value.name, "Created", "Task created", stamp);
      if logged.Failure? {
        return ServerError("Failed to create task");
      }
    }
    resp := Created(row);
  }

  /** The spawn step of a completion: create the next occurrence of `parent`
      and log its generation. Neither write can be refused, since the
      parent's references are valid whenever foreign keys are enforced. */
  method SpawnSuccessor(store: Store, parent: TaskRow, due: Day, stamp: Stamp)
    requires store.Valid() && store.clock <= stamp
    requires WellFormedRow(parent) && parent.id >= 0
    requires store.foreignKeys ==> RefOk(parent.clientId, store.clients) && RefOk(parent.doerId, store.users)
    modifies store
    ensures store.Valid() && old(store.clock) <= store.clock <= stamp
    ensures store.users == old(store.users) && store.clients == old(store.clients)
    ensures var child := InsertedRow(old(store.nextTaskId), Successor(parent, due), stamp);
      && old(store.nextTaskId) !in old(store.tasks)
      && store.tasks == old(store.tasks)[child.id := child]
      && store.history == old(store.history) + [SpawnEntry(|old(store.history)| + 1, child.id, parent.id, stamp)]
  {
    SuccessorRow(parent, due, store.nextTaskId, stamp);
    var created := store.CreateTask(Successor(parent, due), stamp);
    var child := created.value;
    var spawned := store.LogTaskHistory(child.id, None, Some("System"), "Auto-Generated",
                                        "Task auto-generated from recurring parent task #" + NatToString(parent.id),
                                        stamp);
  }

  /** The first two writes of a status update: the row's status and
      completion time, then the "Status Updated" entry, which enforced
      foreign keys refuse for an unknown task or user. */
  method RecordStatus(store: Store, id: int, status: string, actor: Option<Actor>, today: Day, stamp: Stamp)
    returns (logged: bool)
    requires store.Valid() && store.clock <= stamp
    modifies store
    ensures store.Valid() && old(store.clock) <= store.clock <= stamp
    ensures store.users == old(store.users) && store.clients == old(store.clients)
    ensures store.nextTaskId == old(store.nextTaskId)
    ensures store.tasks == StatusApplied(old(store.tasks), id, status, CompletedAtFor(status, today), stamp)
    ensures logged == old(store.AcceptsEntry(id, ActorId(actor)))
    ensures store.history == old(store.history)
      + (if logged then [StatusEntry(|old(store.history)| + 1, id, status, actor, stamp)] else [])
  {
    store.UpdateTaskStatus(id, status, CompletedAtFor(status, today), stamp);
    var r := store.LogTaskHistory(id, ActorId(actor), ActorName(actor), "Status Updated",
                                  "Status changed to " + status, stamp);
    logged := r.Success?;
  }

  /** The row a lookup by id finds, if any. */
  function Lookup(m: map<int, TaskRow>, id: int): (r: Option<TaskRow>)
    ensures r.Some? <==> id in m
    ensures r.Some? ==> r.value == m[id]
  {
    if id in m then Some(m[id]) else None
  }

  /** The due date of the next occurrence a status update creates, when it
      creates one: the update was logged, the new status is a completion,
      the task was found, it recurs, and its next due date is defined. */
  function SpawnedDue(logged: bool, parent: Option<TaskRow>, status: string, today: Day): (r: Option<Day>)
    ensures r.Some? <==>
      logged && IsCompletion(status) && parent.Some? && parent.value.frequency != OneTime
      && SuccessorDue(parent.value, today).Success?
    ensures r.Some? ==> r.value == SuccessorDue(parent.value, today).value
  {
    if logged && IsCompletion(status) && parent.Some? && parent.value.frequency != OneTime then
      match SuccessorDue(parent.value, today)
      case Success(d) => Some(d)
      case Failure(_) => None
    else None
  }

  /** The answer to a status update: 500 when the entry is refused, when a
      completion names no task, or when a recurring task's next due date is
      undefined; success otherwise. */
  function StatusResponse(logged: bool, parent: Option<TaskRow>, status: string, today: Day): (r: Response)
    ensures r == Ok || r == ServerError("Failed to update task status")
    ensures r == Ok <==>
      logged && (!IsCompletion(status)
                 || (parent.Some? && (parent.value.frequency == OneTime || SuccessorDue(parent.value, today).Success?)))
  {
    if !logged then ServerError("Failed to update task status")
    else if IsCompletion(status) && parent.None? then ServerError("Failed to update task status")
    else if IsCompletion(status) && parent.value.frequency != OneTime && SuccessorDue(parent.value, today).Failure? then
      ServerError("Failed to update task status")
    else Ok
  }

  /** The tasks table after a status update: the row rewritten and, when a
      successor is spawned, the successor under id `nextId`. */
  function TasksAfterStatus(m: map<int, TaskRow>, nextId: int, id: int, status: string, today: Day, stamp: Stamp,
                            due: Option<Day>): map<int, TaskRow>
    requires due.Some? ==> id in m
  {
    var updated := StatusApplied(m, id, status, CompletedAtFor(status, today), stamp);
    if due.Some? then updated[nextId := InsertedRow(nextId, Successor(m[id], due.value), stamp)] else updated
  }

  /** The history after a status update: the "Status Updated" entry when
      logged, then the "Auto-Generated" entry on the successor. */
  function HistoryAfterStatus(h: seq<HistoryEntry>, nextId: int, id: int, status: string, actor: Option<Actor>,
                              stamp: Stamp, logged: bool, due: Option<Day>): seq<HistoryEntry>
    requires due.Some? ==> id >= 0
  {
    h + (if logged then [StatusEntry(|h| + 1, id, status, actor, stamp)] else [])
      + (if due.Some? then [SpawnEntry(|h| + 2, nextId, id, stamp)] else [])
  }

  /** What the rest of a status update writes: on a logged completion of a
      recurring task, its successor under the fresh id `next` and the
      "Auto-Generated" entry; nothing otherwise. */
  predicate SpawnWrites(tasks1: map<int, TaskRow>, history1: seq<HistoryEntry>, next: int,
                        tasks2: map<int, TaskRow>, history2: seq<HistoryEntry>,
                        oldTask: Option<TaskRow>, id: int, status: string, today: Day, stamp: Stamp, logged: bool)
  {
    var due := SpawnedDue(logged, oldTask, status, today);
    && (due.Some? ==> next !in tasks1 && id >= 1)
    && tasks2 == (if due.Some? then tasks1[next := InsertedRow(next, Successor(oldTask.value, due.value), stamp)]
                  else tasks1)
    && history2 == history1 + (if due.Some? then [SpawnEntry(|history1| + 1, next, id, stamp)] else [])
  }

  /** The rest of a status update once the entry is written: on a logged
      completion of a recurring task, create its next occurrence. */
  method FinishStatus(store: Store, oldTask: Option<TaskRow>, id: int, status: string, today: Day, stamp: Stamp,
                      logged: bool)
    returns (resp: Response)
    requires store.Valid() && store.clock <= stamp
    requires oldTask.Some? ==> oldTask.value.id == id && id >= 1 && WellFormedRow(oldTask.value)
    requires oldTask.Some? && store.foreignKeys ==>
      RefOk(oldTask.value.clientId, store.clients) && RefOk(oldTask.value.doerId, store.users)
    modifies store
    ensures store.Valid() && old(store.clock) <= store.clock <= stamp
    ensures store.users == old(store.users) && store.clients == old(store.clients)
    ensures resp == StatusResponse(logged, oldTask, status, today)
    ensures SpawnWrites(old(store.tasks), old(store.history), old(store.nextTaskId), store.tasks, store.history,
                        oldTask, id, status, today, stamp, logged)
  {
    if !logged {
      return ServerError("Failed to update task status");
    }
    if IsCompletion(status) {
      if oldTask.None? {
        return ServerError("Failed to update task status");
      }
      var parent := oldTask.value;
      if parent.frequency != OneTime {
        var next := SuccessorDue(parent, today);
        if next.Failure? {
          return ServerError("Failed to update task status");
        }
        SpawnSuccessor(store, parent, next.value, stamp);
      }
    }
    resp := Ok;
  }

  /** PUT /:id/status: write the status and its completion time, log the
      change, and on a completion of a recurring task create its next
      occurrence and log that too. No rule restricts which status may follow
      which. */
  method UpdateStatusHandler(store: Store, id: int, status: string, actor: Option<Actor>, today: Day, stamp: Stamp)
    returns (resp: Response)
    requires store.Valid() && store.clock <= stamp
    modifies store
    ensures store.Valid()
    ensures store.users == old(store.users) && store.clients == old(store.clients)
    ensures var logged := old(store.AcceptsEntry(id, ActorId(actor)));
      var parent := Lookup(old(store.tasks), id);
      var due := SpawnedDue(logged, parent, status, today);
      && resp == StatusResponse(logged, parent, status, today)
      && (due.Some? ==> old(store.nextTaskId) !in old(store.tasks) && id >= 1)
      && store.tasks == TasksAfterStatus(old(store.tasks), old(store.nextTaskId), id, status, today, stamp, due)
      && store.history == HistoryAfterStatus(old(store.history), old(store.nextTaskId), id, status, actor, stamp, logged, due)
  {
    ghost var tasks0, history0, next0 := store.tasks, store.history, store.nextTaskId;
    var oldTask := Lookup(store.tasks, id);
    assert oldTask.Some? ==> oldTask.value.id == id && id >= 1 && WellFormedRow(oldTask.value);
    assert oldTask.Some? && store.foreignKeys ==>
      RefOk(oldTask.value.clientId, store.clients) && RefOk(oldTask.value.doerId, store.users);
    var logged := RecordStatus(store, id, status, actor, today, stamp);
    ghost var tasks1, history1 := store.tasks, store.history;
    resp := FinishStatus(store, oldTask, id, status, today, stamp, logged);
    StatusSteps(tasks0, history0, tasks1, history1, next0, store.tasks, store.history,
                oldTask, id, status, actor, today, stamp, logged);
  }

  /** A status update's two steps, the writes of `RecordStatus` and then those
      of `FinishStatus`, make up `TasksAfterStatus` and `HistoryAfterStatus`. */
  lemma StatusSteps(tasks0: map<int, TaskRow>, history0: seq<HistoryEntry>,
                    tasks1: map<int, TaskRow>, history1: seq<HistoryEntry>, next: int,
                    tasks2: map<int, TaskRow>, history2: seq<HistoryEntry>,
                    oldTask: Option<TaskRow>, id: int, status: string, actor: Option<Actor>, today: Day,
                    stamp: Stamp, logged: bool)
    requires oldTask == Lookup(tasks0, id)
    requires tasks1 == StatusApplied(tasks0, id, status, CompletedAtFor(status, today), stamp)
    requires history1 == history0 + (if logged then [StatusEntry(|history0| + 1, id, status, actor, stamp)] else [])
    requires SpawnWrites(tasks1, history1, next, tasks2, history2, oldTask, id, status, today, stamp, logged)
    ensures var due := SpawnedDue(logged, oldTask, status, today);
      && tasks2 == TasksAfterStatus(tasks0, next, id, status, today, stamp, due)
      && history2 == HistoryAfterStatus(history0, next, id, status, actor, stamp, logged, due)
  {
    var due := SpawnedDue(logged, oldTask, status, today);
    if due.Some? {
      assert logged && |history1| == |history0| + 1;
    }
  }

  /** No rule stops a completed task from being completed again: the row
      keeps its frequency, parameters and due date, so a second completion
      spawns another successor with the same due date. */
  lemma RecompletionSpawnsAgain(m: map<int, TaskRow>, next: int, id: int, status: string, again: string,
                                today: Day, stamp: Stamp)
    requires next !in m && IsCompletion(again)
    requires SpawnedDue(true, Lookup(m, id), status, today).Some?
    ensures var due := SpawnedDue(true, Lookup(m, id), status, today);
      var m' := TasksAfterStatus(m, next, id, status, today, stamp, due);
      && id in m' && next in m' && m'[next].status == NotStarted
      && SpawnedDue(true, Lookup(m', id), again, today) == due
  {
    var due := SpawnedDue(true, Lookup(m, id), status, today);
    var m' := TasksAfterStatus(m, next, id, status, today, stamp, due);
    assert m'[id].frequency == m[id].frequency && m'[id].logic == m[id].logic && m'[id].dueDate == m[id].dueDate;
    assert SuccessorDue(m'[id], today) == SuccessorDue(m[id], today);
  }

  /** PUT /:id/audit: write status, audit status and audit remarks, and log
      the change. It never creates a task. */
  method UpdateAuditHandler(store: Store, id: int, status: string, auditStatus: string, auditRemarks: string,
                            actor: Option<Actor>, stamp: Stamp)
    returns (resp: Response)
    requires store.Valid() && store.clock <= stamp
    modifies store
    ensures store.Valid()
    ensures store.users == old(store.users) && store.clients == old(store.clients)
    ensures store.tasks == AuditApplied(old(store.tasks), id, status, auditStatus, auditRemarks, stamp)
    ensures store.nextTaskId == old(store.nextTaskId)
    ensures old(store.AcceptsEntry(id, ActorId(actor))) ==>
      && resp == Ok
      && store.history == old(store.history) + [AuditEntry(|old(store.history)| + 1, id, auditStatus, actor, stamp)]
    ensures !old(store.AcceptsEntry(id, ActorId(actor))) ==>
      resp == ServerError("Failed to update task audit status") && store.history == old(store.history)
  {
    store.UpdateTaskAudit(id, status, auditStatus, auditRemarks, stamp);
    var logged := store.LogTaskHistory(id, ActorId(actor), ActorName(actor), "Audit Updated",
                                       "Audit status changed to " + auditStatus, stamp);
    if logged.Failure? {
      return ServerError("Failed to update task audit status");
    }
    resp := Ok;
  }

  /** GET /:id/history. */
  method TaskHistoryHandler(store: Store, id: int) returns (resp: Response)
    requires store.Valid()
    ensures resp.HistoryList?
    ensures forall e :: e in resp.entries <==> e in store.history && e.taskId == id
    ensures StampsDescending(resp.entries)
    ensures resp.entries == NewestFirst(store.history, id)
  {
    var entries := store.GetTaskHistory(id);
    resp := HistoryList(entries);
  }

  /** GET /: every task, newest first. */
  method AllTasksHandler(store: Store) returns (resp: Response)
    requires store.Valid()
    ensures resp.TaskList?
    ensures |resp.tasks| == store.nextTaskId - 1
    ensures forall id :: id in store.tasks ==> resp.tasks[store.nextTaskId - 1 - id] == store.ViewOf(store.tasks[id])
    ensures forall k, l :: 0 <= k < l < |resp.tasks| ==> resp.tasks[k].task.createdAt >= resp.tasks[l].task.createdAt
  {
    var views := store.GetAllTasks();
    resp := TaskList(views);
  }
}
