/** The employee's workspace: the signed-in user's own tasks, which of them
    are pending, due today or overdue, and the completion rate. Dates are
    compared as whole days. */
module EmployeeDashboard {
  import opened Util
  import opened Calendar
  import opened TaskStore
  import opened TaskViews

  /** The tasks whose doer is the signed-in user; with nobody signed in the
      comparison is against `undefined`, which no task's doer equals. */
  function MyTasks(tasks: seq<TaskView>, userId: Option<int>): (r: seq<TaskView>)
    ensures forall v :: v in r <==> v in tasks && userId.Some? && v.task.doerId == userId
    ensures userId.None? ==> r == []
  {
    if userId.None? then []
    else Filter(tasks, (v: TaskView) => v.task.doerId == userId)
  }

  function PendingTasks(tasks: seq<TaskView>): (r: seq<TaskView>)
    ensures forall v :: v in r <==> v in tasks && PendingTask(v)
  {
    Filter(tasks, PendingTask)
  }

  predicate DueOn(v: TaskView, today: Day) {
    v.task.dueDate == Some(today)
  }

  predicate DueBefore(v: TaskView, today: Day) {
    v.task.dueDate.Some? && v.task.dueDate.value < today
  }

  /** The pending tasks whose due day is today. */
  function DueToday(pending: seq<TaskView>, today: Day): (r: seq<TaskView>)
    ensures forall v :: v in r <==> v in pending && DueOn(v, today)
  {
    Filter(pending, (v: TaskView) => DueOn(v, today))
  }

  /** The pending tasks whose due day has passed. */
  function Overdue(pending: seq<TaskView>, today: Day): (r: seq<TaskView>)
    ensures forall v :: v in r <==> v in pending && DueBefore(v, today)
  {
    Filter(pending, (v: TaskView) => DueBefore(v, today))
  }

  /** Due today and overdue are disjoint lists of pending tasks that have a
      due date; together they hold no more tasks than the pending list. */
  lemma DueTodayOverdueDisjoint(tasks: seq<TaskView>, today: Day)
    ensures var pending := PendingTasks(tasks);
      && (forall v :: v in DueToday(pending, today) ==> v !in Overdue(pending, today))
      && (forall v :: v in DueToday(pending, today) || v in Overdue(pending, today) ==>
            v in pending && v.task.dueDate.Some?)
      && |DueToday(pending, today)| + |Overdue(pending, today)| <= |pending|
  {
    DueCountsBound(PendingTasks(tasks), today);
  }

  lemma {:induction false} DueCountsBound(pending: seq<TaskView>, today: Day)
    ensures |Filter(pending, (v: TaskView) => DueOn(v, today))| + |Filter(pending, (v: TaskView) => DueBefore(v, today))| <= |pending|
  {
    if pending != [] {
      DueCountsBound(pending[..|pending| - 1], today);
    }
  }

  /** `completionRate`: the share of completed tasks (on time or late) as a
      percentage rounded half up, 0 when there are no tasks. */
  function CompletionRate(tasks: seq<TaskView>): (r: int)
    ensures 0 <= r <= 100
    ensures tasks == [] ==> r == 0
    ensures tasks != [] ==>
      var done := Count(tasks, DoneTask);
      2 * |tasks| * r - |tasks| <= 200 * done < 2 * |tasks| * r + |tasks|
    ensures tasks != [] && Count(tasks, DoneTask) == |tasks| ==> r == 100
    ensures Count(tasks, DoneTask) == 0 ==> r == 0
  {
    if |tasks| > 0 then
      var n, done := |tasks|, Count(tasks, DoneTask);
      var r := (200 * done + n) / (2 * n);
      RoundedShare(done, n, r);
      r
    else 0
  }

  /** `r` is `100 * done / n` rounded half up, between 0 and 100. */
  lemma RoundedShare(done: nat, n: nat, r: int)
    requires 0 < n && done <= n
    requires r == (200 * done + n) / (2 * n)
    ensures 0 <= r <= 100
    ensures 2 * n * r - n <= 200 * done < 2 * n * r + n
    ensures done == n ==> r == 100
    ensures done == 0 ==> r == 0
  {
    var q, m := 200 * done + n, 2 * n;
    assert q == m * r + q % m && 0 <= q % m < m;
    assert 2 * n * r == m * r;
    if r < 0 {
      ScaleMonotone(m, r, -1);
    }
    if r > 100 {
      ScaleMonotone(m, 101, r);
    }
    if done == n {
      assert q == m * 100 + n;
      if r < 100 {
        ScaleMonotone(m, r, 99);
      }
    }
    if done == 0 && r > 0 {
      ScaleMonotone(m, 1, r);
    }
  }

  lemma ScaleMonotone(a: int, x: int, y: int)
    requires a >= 0 && x <= y
    ensures a * x <= a * y
  {
    assert a * y - a * x == a * (y - x);
  }
}
