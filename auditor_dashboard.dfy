/** The auditor's module: which tasks it lists, how they split into awaiting
    review and reviewed, the request an Approve or Reopen button sends, and
    the days left in the six-day review window. */
module AuditorDashboard {
  import opened Util
  import opened Statuses
  import opened TaskStore
  import Calendar

  /** A task the auditor sees: finished work, or work already reviewed. */
  predicate InAuditQueue(v: TaskView) {
    IsCompletion(v.task.status) || v.task.auditStatus != AuditPending
  }

  function AuditQueue(tasks: seq<TaskView>): (q: seq<TaskView>)
    ensures forall v :: v in q <==> v in tasks && InAuditQueue(v)
  {
    Filter(tasks, InAuditQueue)
  }

  predicate AwaitingAudit(v: TaskView) { v.task.auditStatus == AuditPending }
  predicate Reviewed(v: TaskView) { v.task.auditStatus != AuditPending }
  predicate ApprovedAudit(v: TaskView) { v.task.auditStatus == AuditApproved }
  predicate ReopenedAudit(v: TaskView) { v.task.auditStatus == AuditReopened }

  /** `pendingAudits`: the queued tasks still awaiting review, in order. */
  function PendingAudits(queue: seq<TaskView>): (r: seq<TaskView>)
    ensures forall v :: v in r <==> v in queue && v.task.auditStatus == AuditPending
    ensures |r| <= |queue|
  {
    Filter(queue, AwaitingAudit)
  }

  /** `completedAudits`: the queued tasks already approved or reopened. */
  function CompletedAudits(queue: seq<TaskView>): (r: seq<TaskView>)
    ensures forall v :: v in r <==> v in queue && v.task.auditStatus != AuditPending
    ensures |r| <= |queue|
  {
    Filter(queue, Reviewed)
  }

  /** `pendingAudits` and `completedAudits` split the queue: every listed
      task is in exactly one of them, as often as it is in the queue. */
  lemma AuditPartition(queue: seq<TaskView>)
    ensures |PendingAudits(queue)| + |CompletedAudits(queue)| == |queue|
    ensures multiset(PendingAudits(queue)) + multiset(CompletedAudits(queue)) == multiset(queue)
  {
    FilterPartition(queue, AwaitingAudit, Reviewed);
    forall v
      ensures (multiset(PendingAudits(queue)) + multiset(CompletedAudits(queue)))[v] == multiset(queue)[v]
    {
      FilterMultiset(queue, AwaitingAudit, v);
      FilterMultiset(queue, Reviewed, v);
    }
  }

  /** A task awaiting review in the auditor's queue is finished work. */
  lemma PendingAuditsAreCompletions(tasks: seq<TaskView>)
    ensures forall v :: v in PendingAudits(AuditQueue(tasks)) ==> IsCompletion(v.task.status)
  {
  }

  /** The Approved and Reopened cards together count no more tasks than
      `completedAudits` holds. */
  lemma {:induction false} ApprovedReopenedBound(done: seq<TaskView>)
    ensures Count(done, ApprovedAudit) + Count(done, ReopenedAudit) <= |done|
  {
    if done != [] {
      ApprovedReopenedBound(done[..|done| - 1]);
    }
  }

  /** The Approved and Reopened cards only count reviewed tasks. */
  lemma ApprovedReopenedReviewed(queue: seq<TaskView>)
    ensures Count(CompletedAudits(queue), ApprovedAudit) == Count(queue, ApprovedAudit)
    ensures Count(CompletedAudits(queue), ReopenedAudit) == Count(queue, ReopenedAudit)
  {
    FilterFilter(queue, Reviewed, ApprovedAudit, ApprovedAudit);
    FilterFilter(queue, Reviewed, ReopenedAudit, ReopenedAudit);
  }

  datatype AuditAction = Approve | Reopen

  /** The body of the `PUT /api/tasks/:id/audit` request a button sends. */
  datatype AuditRequest = AuditRequest(status: string, auditStatus: string, auditRemarks: string)

  /** `handleAuditAction`: the remarks typed for the task, or "" when there
      are none, with the status pair the action stands for. */
  function AuditRequestFor(taskId: int, action: AuditAction, remarks: map<int, string>): (req: AuditRequest)
    ensures action == Approve ==> req.status == Audited && req.auditStatus == AuditApproved
    ensures action == Reopen ==> req.status == InProgress && req.auditStatus == AuditReopened
    ensures taskId in remarks ==> req.auditRemarks == remarks[taskId]
    ensures taskId !in remarks ==> req.auditRemarks == ""
  {
    var text := if taskId in remarks && remarks[taskId] != "" then remarks[taskId] else "";
    match action
    case Approve => AuditRequest(Audited, AuditApproved, text)
    case Reopen => AuditRequest(InProgress, AuditReopened, text)
  }

  /** What the store does with the request: an approved task stays listed as
      reviewed and approved; a reopened one is back in progress, listed as
      reviewed and reopened, and no longer awaits review. */
  lemma AuditOutcome(m: map<int, TaskRow>, id: int, action: AuditAction, remarks: map<int, string>,
                     stamp: Stamp, clientName: Option<string>, doerName: Option<string>)
    requires id in m
    ensures var req := AuditRequestFor(id, action, remarks);
      var v := TaskView(AuditApplied(m, id, req.status, req.auditStatus, req.auditRemarks, stamp)[id],
                        clientName, doerName);
      && InAuditQueue(v) && Reviewed(v) && !AwaitingAudit(v)
      && (action == Approve <==> ApprovedAudit(v))
      && (action == Reopen <==> ReopenedAudit(v) && v.task.status == InProgress)
  {
  }

  /** A status update never touches the audit status, so a reopened task
      that its doer completes again stays among the reviewed tasks and does
      not come back to `pendingAudits`. */
  lemma StatusUpdateKeepsAudit(m: map<int, TaskRow>, id: int, status: string, completedAt: Option<Calendar.Day>,
                               stamp: Stamp, clientName: Option<string>, doerName: Option<string>)
    requires id in m && m[id].auditStatus == AuditReopened
    ensures var v := TaskView(StatusApplied(m, id, status, completedAt, stamp)[id], clientName, doerName);
      InAuditQueue(v) && ReopenedAudit(v) && !AwaitingAudit(v)
  {
  }

  /** Milliseconds in a day. */
  const DayMs := 86400000

  /** `getDaysRemaining`: 0 without a completion time; otherwise six minus
      the whole days, rounded up, between the completion and now, but not
      below 0. Times are milliseconds. */
  function DaysRemaining(completedAt: Option<int>, now: int): (r: int)
    ensures 0 <= r <= 6
    ensures completedAt.None? ==> r == 0
    ensures completedAt.Some? ==> (r == 6 <==> now == completedAt.value)
    ensures completedAt.Some? && r > 0 ==>
      var diff := if now >= completedAt.value then now - completedAt.value else completedAt.value - now;
      (5 - r) * DayMs < diff <= (6 - r) * DayMs
    ensures completedAt.Some? && r == 0 ==>
      var diff := if now >= completedAt.value then now - completedAt.value else completedAt.value - now;
      diff > 5 * DayMs
  {
    match completedAt
    case None => 0
    case Some(c) =>
      var diff := if now >= c then now - c else c - now;
      var days := (diff + DayMs - 1) / DayMs;
      if 6 - days < 0 then 0 else 6 - days
  }

  /** For a task completed on day `done`, seen on day `today` at the same
      time of day, the badge shows six minus the days between the two,
      and 0 from the sixth day on. */
  lemma DaysRemainingOverDays(done: Calendar.Day, today: Calendar.Day)
    ensures var d := if today >= done then today - done else done - today;
      DaysRemaining(Some(done * DayMs), today * DayMs) == if d >= 6 then 0 else 6 - d
  {
    var d := if today >= done then today - done else done - today;
    var diff := if today * DayMs >= done * DayMs then today * DayMs - done * DayMs else done * DayMs - today * DayMs;
    assert diff == d * DayMs;
    assert (d * DayMs + DayMs - 1) / DayMs == d;
  }
}
