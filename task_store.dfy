/** The persistence layer: the users, clients, tasks and task_history tables
    and the service functions the API calls on them, as an in-memory store.
    Row identifiers are assigned the way AUTOINCREMENT assigns them, and
    CURRENT_TIMESTAMP is an explicit, non-decreasing `Stamp` argument. */
module TaskStore {
  import opened Util
  import opened Calendar
  import opened Statuses
  import opened DateCalculator
  import ServicesJson

  /** A CURRENT_TIMESTAMP value. Only its order matters. */
  type Stamp = int

  /** SQLite rejects a statement that would break a FOREIGN KEY clause. */
  datatype DbError = ForeignKeyViolation

  datatype UserRow = UserRow(id: int, name: string, email: string, role: string)

  datatype ClientRow = ClientRow(
    id: int, name: string, contactPerson: string, email: string, phone: string,
    services: string, createdAt: Stamp, updatedAt: Stamp)

  /** The `services` member of a client request body: an array, a string,
      or absent. */
  datatype ServicesInput = ServiceList(items: seq<string>) | ServiceText(text: string) | NoServices

  datatype ClientInput = ClientInput(
    name: string, contactPerson: Option<string>, email: Option<string>, phone: Option<string>,
    services: ServicesInput)

  /** A row of the tasks table. `logic` is the decoded `due_date_logic` text;
      `auditor_id` is never written by the application and is left out. */
  datatype TaskRow = TaskRow(
    id: int, title: string, clientId: Option<int>, doerId: Option<int>, remarks: string,
    frequency: string, logic: Params, dueDate: Option<Day>, status: string,
    completedAt: Option<Day>, auditStatus: string, auditRemarks: Option<string>,
    createdAt: Stamp, updatedAt: Stamp)

  /** The object handed to `createTask`; every member may be missing. */
  datatype NewTask = NewTask(
    title: string, clientId: Option<int>, doerId: Option<int>, remarks: Option<string>,
    frequency: Option<string>, logic: Option<Params>, dueDate: Option<Day>, status: Option<string>)

  datatype HistoryEntry = HistoryEntry(
    id: int, taskId: int, userId: Option<int>, userName: Option<string>,
    action: string, details: string, createdAt: Stamp)

  /** A task with the names its LEFT JOINs bring in. */
  datatype TaskView = TaskView(task: TaskRow, clientName: Option<string>, doerName: Option<string>)

  /** `x || null` on an id: a missing id and the id 0 both become NULL. */
  function NullIfFalsy(x: Option<int>): (r: Option<int>)
    ensures r != Some(0)
    ensures r.Some? ==> r == x
    ensures x.Some? && x.value != 0 ==> r == x
  {
    if x.Some? && x.value != 0 then x else None
  }

  /** `s || ""` on a string that may be missing. */
  function OrEmpty(s: Option<string>): (r: string)
    ensures Truthy(s) ==> r == s.value
    ensures !Truthy(s) ==> r == ""
  {
    if Truthy(s) then s.value else ""
  }

  /** The row `createTask` inserts: the given fields with their defaults
      filled in, and the columns it does not name at their schema defaults. */
  function InsertedRow(id: int, t: NewTask, stamp: Stamp): (r: TaskRow)
    ensures r.id == id && r.title == t.title && r.dueDate == t.dueDate
    ensures r.clientId == NullIfFalsy(t.clientId) && r.doerId == NullIfFalsy(t.doerId)
    ensures r.remarks == OrEmpty(t.remarks)
    ensures r.frequency != "" && r.status != ""
    ensures !Truthy(t.frequency) ==> r.frequency == OneTime
    ensures Truthy(t.frequency) ==> r.frequency == t.frequency.value
    ensures !Truthy(t.status) ==> r.status == NotStarted
    ensures Truthy(t.status) ==> r.status == t.status.value
    ensures t.logic.None? ==> r.logic == NoParams
    ensures t.logic.Some? ==> r.logic == t.logic.value
    ensures r.completedAt.None? && r.auditStatus == AuditPending && r.auditRemarks.None?
    ensures r.createdAt == stamp && r.updatedAt == stamp
  {
    TaskRow(
      id, t.title, NullIfFalsy(t.clientId), NullIfFalsy(t.doerId), OrEmpty(t.remarks),
      if Truthy(t.frequency) then t.frequency.value else OneTime,
      t.logic.GetOr(NoParams), t.dueDate,
      if Truthy(t.status) then t.status.value else NotStarted,
      None, AuditPending, None, stamp, stamp)
  }

  /** The `services` text a client row stores: an array is JSON-encoded, a
      non-empty string is kept as it is, anything else becomes "[]". */
  function NormalizeServices(s: ServicesInput): (text: string)
    ensures s.ServiceList? ==> ServicesJson.Decode(text) == Some(s.items)
    ensures s.ServiceText? && s.text != "" ==> text == s.text
    ensures s.NoServices? || s == ServiceText("") ==> text == "[]"
  {
    match s
    case ServiceList(items) => ServicesJson.DecodeEncode(items); ServicesJson.Encode(items)
    case ServiceText(text) => if text != "" then text else "[]"
    case NoServices => "[]"
  }

  /** A nullable reference column that is NULL or names an existing row. */
  predicate RefOk<V>(r: Option<int>, m: map<int, V>) {
    r.None? || r.value in m
  }

  /** The tasks table after `updateTaskStatus(id, status, completedAt)`. */
  function StatusApplied(m: map<int, TaskRow>, id: int, status: string, completedAt: Option<Day>, stamp: Stamp)
    : (r: map<int, TaskRow>)
    ensures r.Keys == m.Keys
    ensures forall k :: k in m && k != id ==> r[k] == m[k]
  {
    if id in m then m[id := m[id].(status := status, completedAt := completedAt, updatedAt := stamp)] else m
  }

  /** The tasks table after `updateTaskAudit(id, status, auditStatus, auditRemarks)`. */
  function AuditApplied(m: map<int, TaskRow>, id: int, status: string, auditStatus: string, auditRemarks: string,
                        stamp: Stamp): (r: map<int, TaskRow>)
    ensures r.Keys == m.Keys
    ensures forall k :: k in m && k != id ==> r[k] == m[k]
  {
    if id in m
    then m[id := m[id].(status := status, auditStatus := auditStatus, auditRemarks := Some(auditRemarks),
                        updatedAt := stamp)]
    else m
  }

  /** An audit update leaves every completion time as it was. */
  lemma AuditKeepsCompletedAt(m: map<int, TaskRow>, id: int, status: string, auditStatus: string,
                              auditRemarks: string, stamp: Stamp)
    ensures forall k :: k in m ==> AuditApplied(m, id, status, auditStatus, auditRemarks, stamp)[k].completedAt == m[k].completedAt
  {
  }

  /** The columns `createTask` normalises: no id 0 and no empty frequency. */
  predicate WellFormedRow(row: TaskRow) {
    row.clientId != Some(0) && row.doerId != Some(0) && row.frequency != ""
  }

  /** The history entries of task `taskId`, newest first: walking the log
      from its oldest entry, each match goes in front of those after it. */
  function NewestFirst(h: seq<HistoryEntry>, taskId: int): seq<HistoryEntry> {
    if h == [] then [] else NewestFirst(h[1..], taskId) + (if h[0].taskId == taskId then [h[0]] else [])
  }

  /** Exactly the entries of the log that belong to the task. */
  lemma {:induction false} NewestFirstMembers(h: seq<HistoryEntry>, taskId: int)
    ensures forall e :: e in NewestFirst(h, taskId) <==> e in h && e.taskId == taskId
  {
    if h != [] {
      NewestFirstMembers(h[1..], taskId);
      assert h == [h[0]] + h[1..];
    }
  }

  /** Entries in non-increasing timestamp order, as ORDER BY created_at DESC returns them. */
  predicate StampsDescending(r: seq<HistoryEntry>) {
    forall i, j :: 0 <= i < j < |r| ==> r[i].createdAt >= r[j].createdAt
  }

  /** A log written with non-decreasing timestamps comes out in
      non-increasing timestamp order. */
  lemma {:induction false} NewestFirstSorted(h: seq<HistoryEntry>, taskId: int)
    requires forall i, j :: 0 <= i < j < |h| ==> h[i].createdAt <= h[j].createdAt
    ensures StampsDescending(NewestFirst(h, taskId))
  {
    if h != [] {
      NewestFirstSorted(h[1..], taskId);
      NewestFirstMembers(h[1..], taskId);
      var rest := NewestFirst(h[1..], taskId);
      forall i | 0 <= i < |rest|
        ensures h[0].createdAt <= rest[i].createdAt
      {
        assert rest[i] in rest;
        var k :| 1 <= k < |h| && h[k] == rest[i];
      }
      var r := NewestFirst(h, taskId);
      forall i, j | 0 <= i < j < |r|
        ensures r[i].createdAt >= r[j].createdAt
      {
        if j < |rest| {
          assert r[i] == rest[i] && r[j] == rest[j];
          assert StampsDescending(rest);
        } else {
          assert r[i] == rest[i] && r[j] == h[0];
        }
      }
    }
  }

  /** The tasks table's own invariant: ids run from 1 to `next - 1`, each row
      carries its key and is well formed, no stamp is later than `clock`, and
      a larger id was created no earlier. */
  ghost predicate RowsValid(m: map<int, TaskRow>, next: int, clock: Stamp) {
    && (forall id :: id in m <==> 1 <= id < next)
    && (forall id :: id in m ==>
          m[id].id == id && WellFormedRow(m[id]) && m[id].createdAt <= clock && m[id].updatedAt <= clock)
    && (forall a, b :: a in m && b in m && a < b ==> m[a].createdAt <= m[b].createdAt)
  }

  /** History entries are numbered 1, 2, … in order and stamped in order. */
  ghost predicate HistoryValid(h: seq<HistoryEntry>, clock: Stamp) {
    && (forall i :: 0 <= i < |h| ==> h[i].id == i + 1 && h[i].createdAt <= clock)
    && (forall i, j :: 0 <= i < j < |h| ==> h[i].createdAt <= h[j].createdAt)
  }

  ghost predicate ClientsValid(c: map<int, ClientRow>, next: int, clock: Stamp) {
    forall id :: id in c ==> c[id].id == id && 1 <= id < next && c[id].updatedAt <= clock
  }

  /** Every task's client and doer exist, or are NULL. */
  ghost predicate RowRefs(m: map<int, TaskRow>, clients: map<int, ClientRow>, users: map<int, UserRow>) {
    forall id :: id in m ==> RefOk(m[id].clientId, clients) && RefOk(m[id].doerId, users)
  }

  /** Every entry's task exists and its user exists, or is NULL. */
  ghost predicate EntryRefs(h: seq<HistoryEntry>, m: map<int, TaskRow>, users: map<int, UserRow>) {
    forall i :: 0 <= i < |h| ==> h[i].taskId in m && RefOk(h[i].userId, users)
  }

  lemma RowsLater(m: map<int, TaskRow>, next: int, clock: Stamp, later: Stamp)
    requires RowsValid(m, next, clock) && clock <= later
    ensures RowsValid(m, next, later)
  {
  }

  lemma HistoryLater(h: seq<HistoryEntry>, clock: Stamp, later: Stamp)
    requires HistoryValid(h, clock) && clock <= later
    ensures HistoryValid(h, later)
  {
  }

  lemma ClientsLater(c: map<int, ClientRow>, next: int, clock: Stamp, later: Stamp)
    requires ClientsValid(c, next, clock) && clock <= later
    ensures ClientsValid(c, next, later)
  {
  }

  /** Rewriting a row's mutable columns keeps the table's invariant and its
      references. */
  lemma RowRewrite(m: map<int, TaskRow>, id: int, row: TaskRow, next: int, clock: Stamp, stamp: Stamp,
                   clients: map<int, ClientRow>, users: map<int, UserRow>)
    requires RowsValid(m, next, clock) && id in m && clock <= stamp
    requires row.id == id && row.clientId == m[id].clientId && row.doerId == m[id].doerId
    requires row.frequency == m[id].frequency && row.createdAt == m[id].createdAt && row.updatedAt <= stamp
    ensures RowsValid(m[id := row], next, stamp)
    ensures RowRefs(m, clients, users) ==> RowRefs(m[id := row], clients, users)
  {
    var m' := m[id := row];
    forall a, b | a in m' && b in m' && a < b
      ensures m'[a].createdAt <= m'[b].createdAt
    {
      assert m'[a].createdAt == m[a].createdAt && m'[b].createdAt == m[b].createdAt;
    }
  }

  /** Appending a row under the next id, stamped now, keeps the invariant. */
  lemma RowInsert(m: map<int, TaskRow>, next: int, row: TaskRow, clock: Stamp, stamp: Stamp)
    requires RowsValid(m, next, clock) && 1 <= next && clock <= stamp
    requires row.id == next && WellFormedRow(row) && row.createdAt == stamp && row.updatedAt == stamp
    ensures RowsValid(m[next := row], next + 1, stamp)
  {
    var m' := m[next := row];
    forall a, b | a in m' && b in m' && a < b
      ensures m'[a].createdAt <= m'[b].createdAt
    {
      if b == next {
        assert a in m;
      } else {
        assert m'[a] == m[a] && m'[b] == m[b];
      }
    }
  }

  /** Appending an entry numbered and stamped in order keeps the invariant. */
  lemma HistoryAppend(h: seq<HistoryEntry>, e: HistoryEntry, clock: Stamp, stamp: Stamp)
    requires HistoryValid(h, clock) && clock <= stamp
    requires e.id == |h| + 1 && e.createdAt == stamp
    ensures HistoryValid(h + [e], stamp)
  {
  }

  class Store {
    /** Whether SQLite enforces the FOREIGN KEY clauses of the schema; the
        application never sets the pragma, so this depends on the driver build. */
    const foreignKeys: bool
    var users: map<int, UserRow>
    var clients: map<int, ClientRow>
    var tasks: map<int, TaskRow>
    var history: seq<HistoryEntry>
    var nextClientId: int
    var nextTaskId: int
    /** The latest CURRENT_TIMESTAMP written. */
    var clock: Stamp

    ghost predicate ReferencesHold()
      reads this
    {
      RowRefs(tasks, clients, users) && EntryRefs(history, tasks, users)
    }

    ghost predicate Valid()
      reads this
    {
      && 1 <= nextTaskId && 1 <= nextClientId
      && RowsValid(tasks, nextTaskId, clock)
      && ClientsValid(clients, nextClientId, clock)
      && (forall id :: id in users ==> users[id].id == id)
      && HistoryValid(history, clock)
      && (foreignKeys ==> ReferencesHold())
    }

    /** A fresh database holding the given users and nothing else. */
    constructor (foreignKeys: bool, users: map<int, UserRow>)
      requires forall id :: id in users ==> users[id].id == id
      ensures Valid()
      ensures this.foreignKeys == foreignKeys && this.users == users
      ensures clients == map[] && tasks == map[] && history == []
    {
      this.foreignKeys := foreignKeys;
      this.users := users;
      clients := map[];
      tasks := map[];
      history := [];
      nextClientId := 1;
      nextTaskId := 1;
      clock := 0;
    }

    /** Whether the client and doer a new task names exist. */
    predicate ReferencesExist(t: NewTask)
      reads this
    {
      RefOk(NullIfFalsy(t.clientId), clients) && RefOk(NullIfFalsy(t.doerId), users)
    }

    /** The task with the names of its client and doer, NULL where the
        reference is NULL or dangling. */
    function ViewOf(row: TaskRow): (v: TaskView)
      reads this
      ensures v.task == row
      ensures v.clientName.Some? <==> row.clientId.Some? && row.clientId.value in clients
      ensures v.doerName.Some? <==> row.doerId.Some? && row.doerId.value in users
    {
      TaskView(
        row,
        if row.clientId.Some? && row.clientId.value in clients then Some(clients[row.clientId.value].name) else None,
        if row.doerId.Some? && row.doerId.value in users then Some(users[row.doerId.value].name) else None)
    }

    /** `createTask`: insert one row under the next id and return it. */
    method CreateTask(t: NewTask, stamp: Stamp) returns (r: Result<TaskRow, DbError>)
      requires Valid() && clock <= stamp
      modifies this
      ensures Valid() && old(clock) <= clock <= stamp
      ensures users == old(users) && clients == old(clients) && history == old(history)
      ensures nextClientId == old(nextClientId)
      ensures r.Success? <==> !foreignKeys || ReferencesExist(t)
      ensures r.Success? ==>
        && r.value == InsertedRow(old(nextTaskId), t, stamp)
        && old(nextTaskId) !in old(tasks)
        && tasks == old(tasks)[r.value.id := r.value]
        && nextTaskId == old(nextTaskId) + 1 && clock == stamp
      ensures r.Failure? ==> tasks == old(tasks) && nextTaskId == old(nextTaskId) && clock == old(clock)
    {
      if foreignKeys && !ReferencesExist(t) {
        return Failure(ForeignKeyViolation);
      }
      var row := InsertedRow(nextTaskId, t, stamp);
      RowInsert(tasks, nextTaskId, row, clock, stamp);
      HistoryLater(history, clock, stamp);
      ClientsLater(clients, nextClientId, clock, stamp);
      tasks := tasks[nextTaskId := row];
      nextTaskId := nextTaskId + 1;
      clock := stamp;
      r := Success(row);
    }

    /** `updateTaskStatus`: on the matching row, if any, rewrite `status`,
        `completed_at` and `updated_at`. */
    method UpdateTaskStatus(id: int, status: string, completedAt: Option<Day>, stamp: Stamp)
      requires Valid() && clock <= stamp
      modifies this
      ensures Valid() && old(clock) <= clock <= stamp
      ensures tasks == StatusApplied(old(tasks), id, status, completedAt, stamp)
      ensures users == old(users) && clients == old(clients) && history == old(history)
      ensures nextClientId == old(nextClientId) && nextTaskId == old(nextTaskId)
    {
      if id in tasks {
        RowRewrite(tasks, id, tasks[id].(status := status, completedAt := completedAt, updatedAt := stamp),
                   nextTaskId, clock, stamp, clients, users);
      } else {
        RowsLater(tasks, nextTaskId, clock, stamp);
      }
      HistoryLater(history, clock, stamp);
      ClientsLater(clients, nextClientId, clock, stamp);
      tasks := StatusApplied(tasks, id, status, completedAt, stamp);
      clock := stamp;
    }

    /** `updateTaskAudit`: on the matching row, if any, rewrite `status`,
        `audit_status`, `audit_remarks` and `updated_at`. */
    method UpdateTaskAudit(id: int, status: string, auditStatus: string, auditRemarks: string, stamp: Stamp)
      requires Valid() && clock <= stamp
      modifies this
      ensures Valid() && old(clock) <= clock <= stamp
      ensures tasks == AuditApplied(old(tasks), id, status, auditStatus, auditRemarks, stamp)
      ensures users == old(users) && clients == old(clients) && history == old(history)
      ensures nextClientId == old(nextClientId) && nextTaskId == old(nextTaskId)
    {
      if id in tasks {
        RowRewrite(tasks, id, tasks[id].(status := status, auditStatus := auditStatus,
                                         auditRemarks := Some(auditRemarks), updatedAt := stamp),
                   nextTaskId, clock, stamp, clients, users);
      } else {
        RowsLater(tasks, nextTaskId, clock, stamp);
      }
      HistoryLater(history, clock, stamp);
      ClientsLater(clients, nextClientId, clock, stamp);
      tasks := AuditApplied(tasks, id, status, auditStatus, auditRemarks, stamp);
      clock := stamp;
    }

    /** Whether an entry for `taskId` by `userId` satisfies the foreign keys. */
    predicate AcceptsEntry(taskId: int, userId: Option<int>)
      reads this
    {
      !foreignKeys || (taskId in tasks && RefOk(userId, users))
    }

    /** `logTaskHistory`: append one entry; with enforced foreign keys, the
        task and the user (when not NULL) must exist. */
    method LogTaskHistory(taskId: int, userId: Option<int>, userName: Option<string>,
                          action: string, details: string, stamp: Stamp)
      returns (r: Result<HistoryEntry, DbError>)
      requires Valid() && clock <= stamp
      modifies this
      ensures Valid() && old(clock) <= clock <= stamp
      ensures users == old(users) && clients == old(clients) && tasks == old(tasks)
      ensures nextClientId == old(nextClientId) && nextTaskId == old(nextTaskId)
      ensures r.Success? <==> AcceptsEntry(taskId, userId)
      ensures r.Success? ==>
        && r.value == HistoryEntry(|old(history)| + 1, taskId, userId, userName, action, details, stamp)
        && history == old(history) + [r.value]
      ensures r.Failure? ==> history == old(history)
    {
      if !AcceptsEntry(taskId, userId) {
        return Failure(ForeignKeyViolation);
      }
      var entry := HistoryEntry(|history| + 1, taskId, userId, userName, action, details, stamp);
      HistoryAppend(history, entry, clock, stamp);
      RowsLater(tasks, nextTaskId, clock, stamp);
      ClientsLater(clients, nextClientId, clock, stamp);
      history := history + [entry];
      clock := stamp;
      r := Success(entry);
    }

    /** `getTaskHistory`: the task's entries, newest first. */
    method GetTaskHistory(taskId: int) returns (r: seq<HistoryEntry>)
      requires Valid()
      ensures r == NewestFirst(history, taskId)
      ensures forall e :: e in r <==> e in history && e.taskId == taskId
      ensures StampsDescending(r)
    {
      var i := |history|;
      r := [];
      while i > 0
        invariant 0 <= i <= |history|
        invariant r == NewestFirst(history[i..], taskId)
      {
        i := i - 1;
        assert history[i..][1..] == history[i + 1..];
        if history[i].taskId == taskId {
          r := r + [history[i]];
        }
      }
      assert history[0..] == history;
      NewestFirstMembers(history, taskId);
      NewestFirstSorted(history, taskId);
    }

    /** `getAllTasks`: every task with its joined names, newest first. */
    method GetAllTasks() returns (r: seq<TaskView>)
      requires Valid()
      ensures |r| == nextTaskId - 1
      ensures forall k :: 0 <= k < |r| ==> nextTaskId - 1 - k in tasks && r[k] == ViewOf(tasks[nextTaskId - 1 - k])
      ensures forall id :: id in tasks ==> r[nextTaskId - 1 - id] == ViewOf(tasks[id])
      ensures forall k, l :: 0 <= k < l < |r| ==> r[k].task.createdAt >= r[l].task.createdAt
    {
      var id := nextTaskId - 1;
      r := [];
      while id >= 1
        invariant 0 <= id < nextTaskId
        invariant |r| == nextTaskId - 1 - id
        invariant forall k :: 0 <= k < |r| ==> nextTaskId - 1 - k in tasks && r[k] == ViewOf(tasks[nextTaskId - 1 - k])
      {
        r := r + [ViewOf(tasks[id])];
        id := id - 1;
      }
    }

    /** `createClient`: insert one client under the next id. */
    method CreateClient(c: ClientInput, stamp: Stamp) returns (row: ClientRow)
      requires Valid() && clock <= stamp
      modifies this
      ensures Valid() && old(clock) <= clock <= stamp
      ensures row == ClientRow(old(nextClientId), c.name, OrEmpty(c.contactPerson), OrEmpty(c.email),
                               OrEmpty(c.phone), NormalizeServices(c.services), stamp, stamp)
      ensures old(nextClientId) !in old(clients) && clients == old(clients)[row.id := row]
      ensures nextClientId == old(nextClientId) + 1
      ensures users == old(users) && tasks == old(tasks) && history == old(history) && nextTaskId == old(nextTaskId)
    {
      row := ClientRow(nextClientId, c.name, OrEmpty(c.contactPerson), OrEmpty(c.email),
                       OrEmpty(c.phone), NormalizeServices(c.services), stamp, stamp);
      clients := clients[nextClientId := row];
      nextClientId := nextClientId + 1;
      clock := stamp;
    }

    /** `updateClient`: rewrite the client's fields and return the row, or
        return nothing when no client has that id. */
    method UpdateClient(id: int, c: ClientInput, stamp: Stamp) returns (r: Option<ClientRow>)
      requires Valid() && clock <= stamp
      modifies this
      ensures Valid() && old(clock) <= clock <= stamp
      ensures id !in old(clients) ==> r.None? && clients == old(clients)
      ensures id in old(clients) ==>
        && r == Some(old(clients)[id].(name := c.name, contactPerson := OrEmpty(c.contactPerson),
                                       email := OrEmpty(c.email), phone := OrEmpty(c.phone),
                                       services := NormalizeServices(c.services), updatedAt := stamp))
        && clients == old(clients)[id := r.value]
      ensures users == old(users) && tasks == old(tasks) && history == old(history)
      ensures nextClientId == old(nextClientId) && nextTaskId == old(nextTaskId)
    {
      if id !in clients {
        return None;
      }
      var row := clients[id].(name := c.name, contactPerson := OrEmpty(c.contactPerson),
                              email := OrEmpty(c.email), phone := OrEmpty(c.phone),
                              services := NormalizeServices(c.services), updatedAt := stamp);
      clients := clients[id := row];
      clock := stamp;
      r := Some(row);
    }

    /** Whether some task names client `id`. */
    predicate ClientReferenced(id: int)
      reads this
    {
      exists tid :: tid in tasks && tasks[tid].clientId == Some(id)
    }

    /** `deleteClient`: true when a row was deleted, false when none matched;
        with enforced foreign keys a client a task names cannot be deleted. */
    method DeleteClient(id: int) returns (r: Result<bool, DbError>)
      requires Valid()
      modifies this
      ensures Valid()
      ensures r.Failure? <==> foreignKeys && id in old(clients) && ClientReferenced(id)
      ensures r.Success? ==> r.value == (id in old(clients)) && clients == old(clients) - {id}
      ensures r.Failure? ==> clients == old(clients)
      ensures users == old(users) && tasks == old(tasks) && history == old(history)
      ensures nextClientId == old(nextClientId) && nextTaskId == old(nextTaskId)
    {
      var referenced := exists tid | tid in tasks :: tasks[tid].clientId == Some(id);
      if foreignKeys && id in clients && referenced {
        return Failure(ForeignKeyViolation);
      }
      var existed := id in clients;
      clients := clients - {id};
      r := Success(existed);
    }

    /** Whether some task or history entry names user `id`. */
    predicate UserReferenced(id: int)
      reads this
    {
      || (exists tid :: tid in tasks && tasks[tid].doerId == Some(id))
      || (exists i :: 0 <= i < |history| && history[i].userId == Some(id))
    }

    /** `deleteUser`: true when a row was deleted, false when none matched;
        with enforced foreign keys a user a task or entry names cannot be deleted. */
    method DeleteUser(id: int) returns (r: Result<bool, DbError>)
      requires Valid()
      modifies this
      ensures Valid()
      ensures r.Failure? <==> foreignKeys && id in old(users) && UserReferenced(id)
      ensures r.Success? ==> r.value == (id in old(users)) && users == old(users) - {id}
      ensures r.Failure? ==> users == old(users)
      ensures clients == old(clients) && tasks == old(tasks) && history == old(history)
      ensures nextClientId == old(nextClientId) && nextTaskId == old(nextTaskId)
    {
      var referenced := (exists tid | tid in tasks :: tasks[tid].doerId == Some(id))
        || (exists i | 0 <= i < |history| :: history[i].userId == Some(id));
      if foreignKeys && id in users && referenced {
        return Failure(ForeignKeyViolation);
      }
      var existed := id in users;
      users := users - {id};
      r := Success(existed);
    }
  }
}
