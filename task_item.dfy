/**
 * The task row's logic: which status the advance button moves a task to,
 * the button's label, which buttons are shown, and which handler each
 * button calls with which arguments.
 */
module TaskItem {
  import opened Wrappers
  import TaskApi

  /** `statusOptions`, in workflow order. */
  const StatusOptions: seq<string> := ["todo", "in-progress", "done"]

  /** `xs.indexOf(x)`: the first position of `x`, or -1. */
  function IndexOf(xs: seq<string>, x: string): (r: int)
    ensures -1 <= r < |xs|
    ensures r == -1 <==> x !in xs
    ensures r >= 0 ==> xs[r] == x && x !in xs[..r]
  {
    if xs == [] then -1
    else if xs[0] == x then 0
    else
      var k := IndexOf(xs[1..], x);
      assert k >= 0 ==> xs[1..][..k] == xs[1..k + 1];
      if k == -1 then -1 else k + 1
  }

  /** `statusOptions[statusOptions.indexOf(status) + 1]`; `None` stands for
      `undefined`, read past the end. */
  function NextStatus(status: string): (r: Option<string>)
    ensures r.None? <==> status == "done"
    ensures r.Some? ==> r.value in StatusOptions && r.value != status
  {
    var i := IndexOf(StatusOptions, status) + 1;
    if i < |StatusOptions| then Some(StatusOptions[i]) else None
  }

  /** The workflow moves forward one step at a time and stops at done; a
      status outside the workflow is sent back to its start. */
  lemma NextStatusTable(s: string)
    ensures NextStatus("todo") == Some("in-progress")
    ensures NextStatus("in-progress") == Some("done")
    ensures NextStatus("done") == None
    ensures s !in StatusOptions ==> NextStatus(s) == Some("todo")
  {
    assert IndexOf(StatusOptions, "todo") == 0;
    assert IndexOf(StatusOptions, "in-progress") == 1;
    assert IndexOf(StatusOptions, "done") == 2;
  }

  /** Within the workflow, the next status is the following option. */
  lemma NextIsForward(s: string)
    requires s in StatusOptions && NextStatus(s).Some?
    ensures NextStatus(s).value in StatusOptions
    ensures IndexOf(StatusOptions, NextStatus(s).value) == IndexOf(StatusOptions, s) + 1
  {
    NextStatusTable(s);
  }

  /** Two advances take a new task to done, after which there is no advance. */
  lemma AdvanceTwiceReachesDone()
    ensures NextStatus(NextStatus("todo").value) == Some("done")
    ensures NextStatus(NextStatus(NextStatus("todo").value).value) == None
  {
    NextStatusTable("todo");
  }

  /** The advance button's label for the status it moves to. */
  function AdvanceLabel(next: string): (text: string)
    ensures next == "in-progress" ==> text == "Move to In Progress"
    ensures next != "in-progress" ==> text == "Move to Done"
  {
    "Move to " + (if next == "in-progress" then "In Progress" else "Done")
  }

  datatype Button = Advance | View | Delete

  /** A call of one of the row's three callbacks. */
  datatype HandlerCall =
    | StatusChange(id: int, status: string)
    | ViewDetails(id: int)
    | DeleteTask(id: int)

  /** The buttons the row renders: advance only while there is a next status. */
  function Buttons(task: TaskApi.Task): (bs: seq<Button>)
    ensures Advance in bs <==> NextStatus(task.status).Some?
    ensures View in bs && Delete in bs
  {
    (if NextStatus(task.status).Some? then [Advance] else []) + [View, Delete]
  }

  /** The callback a rendered button calls, with its arguments. */
  function Click(task: TaskApi.Task, b: Button): (call: HandlerCall)
    requires b in Buttons(task)
    ensures b.Advance? ==> call == StatusChange(task.id, NextStatus(task.status).value)
    ensures b.View? ==> call == ViewDetails(task.id)
    ensures b.Delete? ==> call == DeleteTask(task.id)
  {
    match b
    case Advance => StatusChange(task.id, NextStatus(task.status).value)
    case View => ViewDetails(task.id)
    case Delete => DeleteTask(task.id)
  }

  /** A done task shows no advance button; a task outside the workflow shows
      one that sets it to todo under the label "Move to Done". */
  lemma RowExamples(t: TaskApi.Task)
    ensures t.status == "done" ==> Buttons(t) == [View, Delete]
    ensures t.status !in StatusOptions ==>
      Click(t, Advance) == StatusChange(t.id, "todo") && AdvanceLabel("todo") == "Move to Done"
  {
    NextStatusTable(t.status);
  }
}
