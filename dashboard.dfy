/**
 * The derived values the dashboard page shows: the greeting, the status
 * counts, the pending count, the "upcoming" slice and its badge labels.
 * The clock's hour is a parameter.
 */
module Dashboard {
  import opened Wrappers
  import TaskApi

  /** `getGreeting()` for the hour `new Date().getHours()` returns. */
  function Greeting(hour: int): (g: string)
    ensures g == "Good morning" <==> hour < 12
    ensures g == "Good afternoon" <==> 12 <= hour < 18
    ensures g == "Good evening" <==> 18 <= hour
  {
    if hour < 12 then "Good morning"
    else if hour < 18 then "Good afternoon"
    else "Good evening"
  }

  /** `name.split(' ')[0]`: the characters before the first space. */
  function FirstWord(name: string): (w: string)
    ensures w <= name
    ensures ' ' !in w
    ensures |w| < |name| ==> name[|w|] == ' '
  {
    if name == [] || name[0] == ' ' then [] else [name[0]] + FirstWord(name[1..])
  }

  /** The first word of "first rest…" is `first`, whatever follows the space. */
  lemma {:induction false} FirstWordOfFullName(first: string, rest: string)
    requires ' ' !in first
    ensures FirstWord(first + " " + rest) == first
  {
    if first != [] {
      assert (first + " " + rest)[1..] == first[1..] + " " + rest;
      FirstWordOfFullName(first[1..], rest);
    }
  }

  datatype Stats = Stats(total: nat, todo: nat, inProgress: nat, done: nat)

  /** The list the page works on: the query's data, or `[]` while there is none. */
  function TasksShown(data: Option<seq<TaskApi.Task>>): seq<TaskApi.Task> {
    data.GetOr([])
  }

  /** The `stats` object: the length and three `filter(...).length` counts. */
  function StatsOf(data: Option<seq<TaskApi.Task>>): (s: Stats)
    ensures data.None? ==> s == Stats(0, 0, 0, 0)
    ensures s.total == |TasksShown(data)|
    ensures s.todo == |TaskApi.WithStatus(TasksShown(data), "todo")|
    ensures s.inProgress == |TaskApi.WithStatus(TasksShown(data), "in-progress")|
    ensures s.done == |TaskApi.WithStatus(TasksShown(data), "done")|
    ensures s.todo <= s.total && s.inProgress <= s.total && s.done <= s.total
  {
    var ts := TasksShown(data);
    Stats(|ts|,
          |TaskApi.WithStatus(ts, "todo")|,
          |TaskApi.WithStatus(ts, "in-progress")|,
          |TaskApi.WithStatus(ts, "done")|)
  }

  /** The number shown as "tasks pending": `stats.todo + stats.inProgress`.
      It never exceeds the total, and under the three workflow statuses it is
      the number of tasks not done. */
  function Pending(data: Option<seq<TaskApi.Task>>): (p: nat)
    ensures p == StatsOf(data).todo + StatsOf(data).inProgress
    ensures p <= StatsOf(data).total
    ensures WorkflowStatuses(TasksShown(data)) ==> p == |NotDone(TasksShown(data))|
  {
    var ts := TasksShown(data);
    TwoCountsBounded(ts, "todo", "in-progress");
    CountsPartitionIf(ts);
    StatsOf(data).todo + StatsOf(data).inProgress
  }

  /** Tasks with two different statuses are disjoint, so their counts sum to
      at most the list length. */
  lemma {:induction false} TwoCountsBounded(ts: seq<TaskApi.Task>, a: string, b: string)
    requires a != b
    ensures |TaskApi.WithStatus(ts, a)| + |TaskApi.WithStatus(ts, b)| <= |ts|
  {
    if ts != [] {
      TwoCountsBounded(ts[1..], a, b);
    }
  }

  /** Every task's status is one of the three workflow states. */
  ghost predicate WorkflowStatuses(ts: seq<TaskApi.Task>) {
    forall t :: t in ts ==> t.status in {"todo", "in-progress", "done"}
  }

  /** `tasks.filter(t => t.status !== 'done')`, in list order. */
  function NotDone(ts: seq<TaskApi.Task>): (r: seq<TaskApi.Task>)
    ensures |r| == |ts| - |TaskApi.WithStatus(ts, "done")|
    ensures forall t :: t in r <==> t in ts && t.status != "done"
  {
    if ts == [] then []
    else if ts[0].status != "done" then [ts[0]] + NotDone(ts[1..])
    else NotDone(ts[1..])
  }

  /** Filtering keeps list order and every occurrence: it distributes over
      concatenation, and (`NotDoneSingle`) keeps a single task exactly when
      it is not done. */
  lemma {:induction false} NotDoneAppend(a: seq<TaskApi.Task>, b: seq<TaskApi.Task>)
    ensures NotDone(a + b) == NotDone(a) + NotDone(b)
  {
    if a == [] {
      assert a + b == b;
    } else {
      assert (a + b)[1..] == a[1..] + b;
      NotDoneAppend(a[1..], b);
      assert [a[0]] + (NotDone(a[1..]) + NotDone(b)) == ([a[0]] + NotDone(a[1..])) + NotDone(b);
    }
  }

  lemma NotDoneSingle(t: TaskApi.Task)
    ensures NotDone([t]) == if t.status != "done" then [t] else []
  {
    assert [t][1..] == [];
  }

  /** A status outside the workflow, which `updateTask` accepts. */
  predicate OffWorkflow(t: TaskApi.Task) {
    t.status != "todo" && t.status != "in-progress" && t.status != "done"
  }

  /** Todo and in-progress tasks are among those not done; a task with a
      status outside the workflow is not done but counted in neither. */
  lemma {:induction false} PendingBelowNotDone(ts: seq<TaskApi.Task>)
    ensures |TaskApi.WithStatus(ts, "todo")| + |TaskApi.WithStatus(ts, "in-progress")| <= |NotDone(ts)|
    ensures (exists i :: 0 <= i < |ts| && OffWorkflow(ts[i])) ==>
      |TaskApi.WithStatus(ts, "todo")| + |TaskApi.WithStatus(ts, "in-progress")| < |NotDone(ts)|
  {
    if ts != [] {
      PendingBelowNotDone(ts[1..]);
      if exists i :: 0 <= i < |ts| && OffWorkflow(ts[i]) {
        var i :| 0 <= i < |ts| && OffWorkflow(ts[i]);
        if i > 0 {
          assert OffWorkflow(ts[1..][i - 1]);
        }
      }
    }
  }

  /** With a task outside the workflow on the page, the pending count is
      smaller than the number of tasks not done: the task can be listed as
      upcoming without being counted as pending. */
  lemma OffWorkflowNotPending(data: Option<seq<TaskApi.Task>>)
    requires exists i :: 0 <= i < |TasksShown(data)| && OffWorkflow(TasksShown(data)[i])
    ensures Pending(data) < |NotDone(TasksShown(data))|
  {
    PendingBelowNotDone(TasksShown(data));
  }

  /** `recentTasks`: the first four tasks that are not done. */
  function Upcoming(data: Option<seq<TaskApi.Task>>): (r: seq<TaskApi.Task>)
    ensures r <= NotDone(TasksShown(data))
    ensures |r| == if |NotDone(TasksShown(data))| < 4 then |NotDone(TasksShown(data))| else 4
    ensures forall t :: t in r ==> t in TasksShown(data) && t.status != "done"
  {
    var pending := NotDone(TasksShown(data));
    if |pending| <= 4 then pending else pending[..4]
  }

  /** The badge text of an upcoming row. */
  function BadgeLabel(status: string): (text: string)
    ensures text == "In Progress" <==> status == "in-progress"
    ensures text == "To Do" <==> status != "in-progress"
  {
    if status == "in-progress" then "In Progress" else "To Do"
  }

  /** `CountsPartition` where its premise holds. */
  lemma CountsPartitionIf(ts: seq<TaskApi.Task>)
    ensures WorkflowStatuses(ts) ==>
      |NotDone(ts)| == |TaskApi.WithStatus(ts, "todo")| + |TaskApi.WithStatus(ts, "in-progress")|
  {
    if WorkflowStatuses(ts) {
      CountsPartition(ts);
    }
  }

  /** Under the three workflow states, the counts partition the list. */
  lemma {:induction false} CountsPartition(ts: seq<TaskApi.Task>)
    requires WorkflowStatuses(ts)
    ensures |TaskApi.WithStatus(ts, "todo")| + |TaskApi.WithStatus(ts, "in-progress")|
          + |TaskApi.WithStatus(ts, "done")| == |ts|
    ensures |NotDone(ts)| == |TaskApi.WithStatus(ts, "todo")| + |TaskApi.WithStatus(ts, "in-progress")|
  {
    if ts != [] {
      assert forall t :: t in ts[1..] ==> t in ts;
      CountsPartition(ts[1..]);
    }
  }

  /** The dashboard's numbers agree: the three counts sum to the total, the
      pending count is the number of tasks not done, and the upcoming list
      holds four of them, or all of them when fewer are pending. */
  lemma StatsConsistent(data: Option<seq<TaskApi.Task>>)
    requires WorkflowStatuses(TasksShown(data))
    ensures var s := StatsOf(data);
      && s.todo + s.inProgress + s.done == s.total
      && Pending(data) == s.total - s.done
      && |Upcoming(data)| == if Pending(data) < 4 then Pending(data) else 4
  {
    CountsPartition(TasksShown(data));
  }

  /** The greeting for a user named "Alex Johnson" in the afternoon. */
  lemma GreetingExample()
    ensures Greeting(15) + ", " + FirstWord("Alex Johnson") == "Good afternoon, Alex"
  {
    assert "Alex Johnson" == "Alex" + " " + "Johnson";
    FirstWordOfFullName("Alex", "Johnson");
  }
}
