/** The administrator's dashboard: counters over every task, the per-doer
    tallies behind the bar chart, and the per-status counts behind the pie
    chart. Its input is the list `GET /api/tasks` returns. */
module AdminDashboard {
  import opened Util
  import opened Statuses
  import opened TaskStore
  import opened TaskViews

  /** The four stat cards. */
  datatype Counters = Counters(totalDue: nat, pending: nat, completed: nat, completedLate: nat)

  /** Every task is exactly one of pending, completed, late or not required. */
  lemma {:induction false} CountersPartition(tasks: seq<TaskView>)
    ensures Count(tasks, PendingTask) + Count(tasks, CompletedTask) + Count(tasks, LateTask)
            + Count(tasks, NotRequiredTask) == |tasks|
  {
    if tasks != [] {
      CountersPartition(tasks[..|tasks| - 1]);
    }
  }

  function CountersOf(tasks: seq<TaskView>): (c: Counters)
    ensures c.totalDue == |tasks|
    ensures c.pending + c.completed + c.completedLate + Count(tasks, NotRequiredTask) == c.totalDue
    ensures c.pending == |Filter(tasks, PendingTask)|
    ensures c.completed == |Filter(tasks, CompletedTask)|
    ensures c.completedLate == |Filter(tasks, LateTask)|
  {
    CountersPartition(tasks);
    Counters(|tasks|, Count(tasks, PendingTask), Count(tasks, CompletedTask), Count(tasks, LateTask))
  }

  /** One bar of the bar chart: a doer's name and how many of their tasks are
      pending, completed and completed late. */
  datatype DoerStat = DoerStat(name: string, pending: nat, completed: nat, late: nat)

  function Total(st: DoerStat): nat {
    st.pending + st.completed + st.late
  }

  /** A task counts towards the doer whose (non-empty) name it carries. */
  predicate ForDoer(v: TaskView, name: string) {
    v.doerName == Some(name) && name != ""
  }

  /** What one task adds to its doer's tally. */
  function Tally(st: DoerStat, status: string): DoerStat {
    if status == Completed then st.(completed := st.completed + 1)
    else if status == CompletedLate then st.(late := st.late + 1)
    else if status != NotRequired then st.(pending := st.pending + 1)
    else st
  }

  /** The tally the `reduce` accumulates for `name` over `tasks`. */
  function DoerTally(tasks: seq<TaskView>, name: string): DoerStat {
    if tasks == [] then DoerStat(name, 0, 0, 0)
    else
      var st := DoerTally(tasks[..|tasks| - 1], name);
      var v := tasks[|tasks| - 1];
      if ForDoer(v, name) then Tally(st, v.task.status) else st
  }

  /** Each field of a doer's tally counts exactly the doer's tasks in that
      state, so each task adds one to at most one field and a "Not Required"
      task adds to none. */
  lemma {:induction false} DoerTallyCounts(tasks: seq<TaskView>, name: string)
    ensures DoerTally(tasks, name).name == name
    ensures DoerTally(tasks, name).completed == Count(tasks, v => ForDoer(v, name) && CompletedTask(v))
    ensures DoerTally(tasks, name).late == Count(tasks, v => ForDoer(v, name) && LateTask(v))
    ensures DoerTally(tasks, name).pending == Count(tasks, v => ForDoer(v, name) && PendingTask(v))
    ensures Total(DoerTally(tasks, name)) + Count(tasks, v => ForDoer(v, name) && NotRequiredTask(v))
            == Count(tasks, v => ForDoer(v, name))
  {
    if tasks != [] {
      DoerTallyCounts(tasks[..|tasks| - 1], name);
    }
  }

  /** No name is listed twice. */
  predicate Distinct(keys: seq<string>) {
    forall j, k :: 0 <= j < k < |keys| ==> keys[j] != keys[k]
  }

  /** The non-empty doer names of `tasks`, each once, in the order of their
      first appearance: the insertion order of the keys of `doerStats`. */
  function DoerNames(tasks: seq<TaskView>): seq<string> {
    if tasks == [] then []
    else
      var names := DoerNames(tasks[..|tasks| - 1]);
      var v := tasks[|tasks| - 1];
      if Truthy(v.doerName) && v.doerName.value !in names then names + [v.doerName.value] else names
  }

  /** `doerStats` and, in insertion order, the doer names whose stats make up
      `barChartData`. */
  method DoerStats(tasks: seq<TaskView>) returns (stats: map<string, DoerStat>, order: seq<string>)
    ensures forall name :: name in stats <==> exists k :: 0 <= k < |tasks| && ForDoer(tasks[k], name)
    ensures forall name :: name in stats ==> stats[name] == DoerTally(tasks, name)
    ensures forall name :: name in stats <==> name in order
    ensures Distinct(order)
    ensures order == DoerNames(tasks)
  {
    stats, order := map[], [];
    var i := 0;
    while i < |tasks|
      invariant 0 <= i <= |tasks|
      invariant forall name :: name in stats <==> exists k :: 0 <= k < i && ForDoer(tasks[k], name)
      invariant forall name :: name in stats ==> stats[name] == DoerTally(tasks[..i], name)
      invariant forall name :: name !in stats ==> DoerTally(tasks[..i], name) == DoerStat(name, 0, 0, 0)
      invariant forall name :: name in stats <==> name in order
      invariant Distinct(order)
      invariant order == DoerNames(tasks[..i])
    {
      var v := tasks[i];
      assert tasks[..i + 1][..i] == tasks[..i];
      if Truthy(v.doerName) {
        var name := v.doerName.value;
        if name !in stats {
          order := order + [name];
          stats := stats[name := DoerStat(name, 0, 0, 0)];
        }
        stats := stats[name := Tally(stats[name], v.task.status)];
      }
      i := i + 1;
    }
    assert tasks[..i] == tasks;
  }

  /** The status of every task, in order. */
  function StatusesOf(tasks: seq<TaskView>): (r: seq<string>)
    ensures |r| == |tasks|
    ensures forall k :: 0 <= k < |tasks| ==> r[k] == tasks[k].task.status
  {
    if tasks == [] then [] else StatusesOf(tasks[..|tasks| - 1]) + [tasks[|tasks| - 1].task.status]
  }

  /** The counts of the statuses listed in `keys`. */
  function SumOver(keys: seq<string>, counts: map<string, nat>): nat
    requires forall k :: k in keys ==> k in counts
  {
    if keys == [] then 0 else SumOver(keys[..|keys| - 1], counts) + counts[keys[|keys| - 1]]
  }

  lemma {:induction false} SumOverOther(keys: seq<string>, counts: map<string, nat>, x: string, n: nat)
    requires forall k :: k in keys ==> k in counts
    requires x !in keys
    ensures SumOver(keys, counts[x := n]) == SumOver(keys, counts)
  {
    if keys != [] {
      SumOverOther(keys[..|keys| - 1], counts, x, n);
    }
  }

  lemma {:induction false} SumOverIncrement(keys: seq<string>, counts: map<string, nat>, x: string)
    requires forall k :: k in keys ==> k in counts
    requires Distinct(keys)
    requires x in keys
    ensures SumOver(keys, counts[x := counts[x] + 1]) == SumOver(keys, counts) + 1
  {
    var init, last := keys[..|keys| - 1], keys[|keys| - 1];
    if last == x {
      assert x !in init;
      SumOverOther(init, counts, x, counts[x] + 1);
    } else {
      SumOverIncrement(init, counts, x);
    }
  }

  /** The `reduce` callback of `statusCounts`: `(acc[status] || 0) + 1`. */
  function Bump(counts: map<string, nat>, status: string): map<string, nat> {
    counts[status := (if status in counts then counts[status] else 0) + 1]
  }

  /** Bumping a status keeps the map equal to the multiset of the statuses seen. */
  lemma BumpCounts(counts: map<string, nat>, seen: seq<string>, status: string)
    requires forall s :: s in counts <==> s in seen
    requires forall s :: s in counts ==> counts[s] == multiset(seen)[s]
    ensures forall s :: s in Bump(counts, status) <==> s in seen + [status]
    ensures forall s :: s in Bump(counts, status) ==> Bump(counts, status)[s] == multiset(seen + [status])[s]
  {
    assert multiset(seen + [status]) == multiset(seen) + multiset{status};
  }

  /** Bumping a status, and appending it to the keys when it is new, keeps the
      keys those of the map, without repetition, and adds one to their sum. */
  lemma BumpKeys(counts: map<string, nat>, keys: seq<string>, status: string)
    requires Distinct(keys)
    requires forall s :: s in counts <==> s in keys
    ensures var keys' := if status in counts then keys else keys + [status];
      && Distinct(keys')
      && (forall s :: s in Bump(counts, status) <==> s in keys')
      && SumOver(keys', Bump(counts, status)) == SumOver(keys, counts) + 1
  {
    if status in counts {
      SumOverIncrement(keys, counts, status);
    } else {
      SumOverOther(keys, counts, status, 1);
    }
  }

  /** What `statusCounts` holds after the statuses `seen`: their multiset,
      with its keys listed once each in `keys`, summing to their number. */
  ghost predicate Tallied(counts: map<string, nat>, keys: seq<string>, seen: seq<string>) {
    && (forall s :: s in counts <==> s in seen)
    && (forall s :: s in counts ==> counts[s] == multiset(seen)[s])
    && (forall s :: s in counts <==> s in keys)
    && Distinct(keys)
    && SumOver(keys, counts) == |seen|
  }

  lemma TalliedStep(counts: map<string, nat>, keys: seq<string>, seen: seq<string>, status: string)
    requires Tallied(counts, keys, seen)
    ensures Tallied(Bump(counts, status), if status in counts then keys else keys + [status], seen + [status])
  {
    BumpCounts(counts, seen, status);
    BumpKeys(counts, keys, status);
  }

  /** `statusCounts`, with its keys in insertion order (what `Object.keys`
      lists for keys that do not look like array indices). Each count is the
      number of tasks with that status, and the counts add up to the number
      of tasks. */
  method StatusCounts(tasks: seq<TaskView>) returns (counts: map<string, nat>, keys: seq<string>)
    ensures forall s :: s in counts <==> s in StatusesOf(tasks)
    ensures forall s :: s in counts ==> counts[s] == multiset(StatusesOf(tasks))[s]
    ensures forall s :: s in counts <==> s in keys
    ensures Distinct(keys)
    ensures SumOver(keys, counts) == |tasks|
  {
    counts, keys := map[], [];
    ghost var seen: seq<string> := [];
    var i := 0;
    while i < |tasks|
      invariant 0 <= i <= |tasks|
      invariant seen == StatusesOf(tasks[..i])
      invariant Tallied(counts, keys, seen)
    {
      var status := tasks[i].task.status;
      assert tasks[..i + 1][..i] == tasks[..i];
      TalliedStep(counts, keys, seen, status);
      if status !in counts {
        keys := keys + [status];
      }
      counts := Bump(counts, status);
      seen := seen + [status];
      i := i + 1;
    }
    assert tasks[..i] == tasks;
  }

  /** One slice of the pie chart. */
  datatype Slice = Slice(name: string, value: nat)

  predicate Descending(s: seq<Slice>) {
    forall i, j :: 0 <= i < j < |s| ==> s[i].value >= s[j].value
  }

  /** Places `x` after every slice at least as large, as a stable sort does. */
  function Insert(x: Slice, s: seq<Slice>): (r: seq<Slice>)
    ensures multiset(r) == multiset(s) + multiset{x}
    ensures |r| == |s| + 1
  {
    if s == [] then [x]
    else if s[0].value >= x.value then
      assert s == [s[0]] + s[1..];
      [s[0]] + Insert(x, s[1..])
    else
      [x] + s
  }

  lemma {:induction false} InsertDescending(x: Slice, s: seq<Slice>)
    requires Descending(s)
    ensures Descending(Insert(x, s))
  {
    if s != [] && s[0].value >= x.value {
      InsertDescending(x, s[1..]);
      var rest := Insert(x, s[1..]);
      forall k | 0 <= k < |rest|
        ensures rest[k].value <= s[0].value
      {
        assert rest[k] in multiset(s[1..]) + multiset{x};
        if rest[k] != x {
          assert rest[k] in s[1..];
        }
      }
      assert Insert(x, s) == [s[0]] + rest;
    }
  }

  /** `sort((a, b) => b.value - a.value)`: a stable sort into non-increasing order. */
  function SortDescending(s: seq<Slice>): (r: seq<Slice>)
    ensures Descending(r)
    ensures multiset(r) == multiset(s)
    ensures |r| == |s|
  {
    if s == [] then []
    else
      assert s == s[..|s| - 1] + [s[|s| - 1]];
      InsertDescending(s[|s| - 1], SortDescending(s[..|s| - 1]));
      Insert(s[|s| - 1], SortDescending(s[..|s| - 1]))
  }

  /** `pieChartData`: one slice per counted status, largest first. */
  function PieChartData(keys: seq<string>, counts: map<string, nat>): (r: seq<Slice>)
    requires forall k :: k in keys ==> k in counts
    ensures Descending(r)
    ensures |r| == |keys|
    ensures forall x :: x in r <==> x.name in keys && x.value == counts[x.name]
  {
    var slices := seq(|keys|, i requires 0 <= i < |keys| => Slice(keys[i], counts[keys[i]]));
    var r := SortDescending(slices);
    assert forall x :: x in r <==> x in multiset(slices);
    assert forall x :: x in slices <==> x.name in keys && x.value == counts[x.name] by {
      forall x
        ensures x in slices <==> x.name in keys && x.value == counts[x.name]
      {
        if x.name in keys && x.value == counts[x.name] {
          var i :| 0 <= i < |keys| && keys[i] == x.name;
          assert slices[i] == x;
        }
      }
    }
    r
  }
}
