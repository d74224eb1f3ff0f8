/**
 * The in-memory task repository: a module-level list of task records and an
 * id counter, with list / get / create / update / delete.
 *
 * Ids are plain integers here; the repository coerces string route
 * parameters with `Number(id)` before comparing. The simulated latency is dropped and
 * every operation is synchronous.
 */
module TaskApi {
  import opened Wrappers

  /** A stored task. `id`, `status` and `createdAt` are always present;
      the other fields are present only when the creator supplied them. */
  datatype Task = Task(
    id: int,
    title: Option<string>,
    description: Option<string>,
    status: string,
    createdAt: string,
    priority: Option<string>)

  /** A partial record (the `taskData` of a create, the `updates` of an update):
      a field is `Some` exactly when the object carries that key. */
  datatype Fields = Fields(
    id: Option<int>,
    title: Option<string>,
    description: Option<string>,
    status: Option<string>,
    createdAt: Option<string>,
    priority: Option<string>)

  /** The `{ success: true }` marker returned by a delete. */
  datatype Ack = Ack(success: bool)

  const NotFound: string := "Task not found"

  /** The six records the module starts with; the counter starts at 7. */
  const Seed: seq<Task> := [
    Task(1, Some("Review Q1 marketing proposal"), Some("Go through the marketing deck and provide feedback by EOD"), "done", "2025-01-28", Some("high")),
    Task(2, Some("Fix checkout page bug"), Some("Users reporting payment button not responding on mobile Safari"), "in-progress", "2025-01-30", Some("high")),
    Task(3, Some("Prepare client presentation"), Some("Create slides for the Acme Corp project kickoff meeting on Friday"), "in-progress", "2025-02-01", Some("medium")),
    Task(4, Some("Update user documentation"), Some("Add new features from v2.3 release to the help center"), "todo", "2025-02-02", Some("low")),
    Task(5, Some("Schedule team retrospective"), Some("Book meeting room and send calendar invites for sprint retro"), "todo", "2025-02-03", Some("medium")),
    Task(6, Some("Review pull requests"), Some("Check pending PRs from the frontend team before release"), "todo", "2025-02-03", Some("high"))
  ]

  const SeedNextId: int := 7

  // ---------------------------------------------------------------------
  // Specification functions over the stored list
  // ---------------------------------------------------------------------

  /** The tasks of `ts` whose status is `status`, in store order. */
  function WithStatus(ts: seq<Task>, status: string): (r: seq<Task>)
    ensures |r| <= |ts|
    ensures forall t :: t in r <==> t in ts && t.status == status
  {
    if ts == [] then []
    else if ts[0].status == status then [ts[0]] + WithStatus(ts[1..], status)
    else WithStatus(ts[1..], status)
  }

  /** True when the filter argument selects a status: JavaScript's
      `statusFilter && statusFilter !== 'all'` (a missing or empty filter is falsy). */
  predicate SelectsStatus(filter: Option<string>) {
    filter.Some? && filter.value != "" && filter.value != "all"
  }

  /** The index of the first task with id `id`, or -1 (`findIndex`). */
  function IndexOfId(ts: seq<Task>, id: int): (r: int)
    ensures -1 <= r < |ts|
    ensures r == -1 <==> forall j :: 0 <= j < |ts| ==> ts[j].id != id
    ensures r >= 0 ==> ts[r].id == id && forall j :: 0 <= j < r ==> ts[j].id != id
  {
    if ts == [] then -1
    else if ts[0].id == id then 0
    else
      var k := IndexOfId(ts[1..], id);
      if k == -1 then -1 else k + 1
  }

  /** Presence-based override: the patch's value when the patch carries the key. */
  function Over<T>(patch: Option<T>, base: T): T {
    if patch.Some? then patch.value else base
  }

  function OverOpt<T>(patch: Option<T>, base: Option<T>): Option<T> {
    if patch.Some? then patch else base
  }

  /** `{ ...t, ...updates }`: every key present in `updates` wins. */
  function Merge(t: Task, updates: Fields): (r: Task)
    ensures updates.id.Some? ==> r.id == updates.id.value
    ensures updates.id.None? ==> r.id == t.id
    ensures updates.title.Some? ==> r.title == updates.title
    ensures updates.title.None? ==> r.title == t.title
    ensures updates.description.Some? ==> r.description == updates.description
    ensures updates.description.None? ==> r.description == t.description
    ensures updates.status.Some? ==> r.status == updates.status.value
    ensures updates.status.None? ==> r.status == t.status
    ensures updates.createdAt.Some? ==> r.createdAt == updates.createdAt.value
    ensures updates.createdAt.None? ==> r.createdAt == t.createdAt
    ensures updates.priority.Some? ==> r.priority == updates.priority
    ensures updates.priority.None? ==> r.priority == t.priority
  {
    Task(
      Over(updates.id, t.id),
      OverOpt(updates.title, t.title),
      OverOpt(updates.description, t.description),
      Over(updates.status, t.status),
      Over(updates.createdAt, t.createdAt),
      OverOpt(updates.priority, t.priority))
  }

  /** `{ id: nextId, ...taskData, status: 'todo', createdAt: today }`:
      the data is spread after the id, so an `id` in the data wins, and
      the status and date written afterwards win over the data. */
  function NewRecord(nextId: int, data: Fields, today: string): (r: Task)
    ensures data.id.Some? ==> r.id == data.id.value
    ensures data.id.None? ==> r.id == nextId
    ensures r.status == "todo" && r.createdAt == today
    ensures r.title == data.title && r.description == data.description && r.priority == data.priority
  {
    Task(
      Over(data.id, nextId),
      data.title,
      data.description,
      "todo",
      today,
      data.priority)
  }

  /** `ts` with the record at `i` taken out (`splice(i, 1)`). */
  function Removed(ts: seq<Task>, i: nat): (r: seq<Task>)
    requires i < |ts|
    ensures |r| == |ts| - 1
    ensures forall j :: 0 <= j < i ==> r[j] == ts[j]
    ensures forall j :: i <= j < |r| ==> r[j] == ts[j + 1]
  {
    ts[..i] + ts[i + 1..]
  }

  /** Ids are pairwise distinct and all below the counter, so the next
      allocated id is fresh. */
  ghost predicate FreshIds(ts: seq<Task>, nextId: int) {
    && (forall i :: 0 <= i < |ts| ==> ts[i].id < nextId)
    && (forall i, j :: 0 <= i < j < |ts| ==> ts[i].id != ts[j].id)
  }

  // ---------------------------------------------------------------------
  // The store
  // ---------------------------------------------------------------------

  class TaskStore {
    var tasks: seq<Task>
    var nextId: int

    /** The module's initial state. */
    constructor ()
      ensures tasks == Seed && nextId == SeedNextId
    {
      tasks := Seed;
      nextId := SeedNextId;
    }

    /** `fetchTasks(statusFilter)`: a copy of every task, or of those with the
        selected status. */
    method FetchTasks(filter: Option<string>) returns (r: seq<Task>)
      ensures !SelectsStatus(filter) ==> r == tasks
      ensures SelectsStatus(filter) ==> r == WithStatus(tasks, filter.value)
    {
      if SelectsStatus(filter) {
        r := WithStatus(tasks, filter.value);
      } else {
        r := tasks;
      }
    }

    /** `fetchTaskById(id)`: the first task with that id, or "Task not found". */
    method FetchTaskById(id: int) returns (r: Result<Task>)
      ensures r.Err? <==> forall j :: 0 <= j < |tasks| ==> tasks[j].id != id
      ensures r.Err? ==> r.error == NotFound
      ensures r.Ok? ==> exists k :: 0 <= k < |tasks| && tasks[k] == r.value
      ensures r.Ok? ==> r.value.id == id
      ensures r.Ok? ==> r.value == tasks[IndexOfId(tasks, id)]
    {
      var k := IndexOfId(tasks, id);
      if k == -1 {
        r := Err(NotFound);
      } else {
        r := Ok(tasks[k]);
      }
    }

    /** `createTask(taskData)`: allocates the next id, appends the new record
        and returns it. No field of the data is validated. */
    method CreateTask(data: Fields, today: string) returns (t: Task)
      modifies this
      ensures nextId == old(nextId) + 1
      ensures tasks == old(tasks) + [t]
      ensures t == NewRecord(old(nextId), data, today)
      ensures t.status == "todo" && t.createdAt == today
      ensures t.title == data.title && t.description == data.description
      ensures data.id.None? ==> t.id == old(nextId)
      ensures data.id.Some? ==> t.id == data.id.value
    {
      t := NewRecord(nextId, data, today);
      nextId := nextId + 1;
      tasks := tasks + [t];
    }

    /** `updateTask(id, updates)`: shallow-merges the updates into the first
        task with that id and returns the merged record. */
    method UpdateTask(id: int, updates: Fields) returns (r: Result<Task>)
      modifies this
      ensures nextId == old(nextId)
      ensures r.Err? <==> forall j :: 0 <= j < |old(tasks)| ==> old(tasks)[j].id != id
      ensures r.Err? ==> r.error == NotFound && tasks == old(tasks)
      ensures r.Ok? ==>
        var k := IndexOfId(old(tasks), id);
        && r.value == Merge(old(tasks)[k], updates)
        && tasks == old(tasks)[k := r.value]
    {
      var k := IndexOfId(tasks, id);
      if k == -1 {
        r := Err(NotFound);
      } else {
        var merged := Merge(tasks[k], updates);
        tasks := tasks[k := merged];
        r := Ok(merged);
      }
    }

    /** `deleteTask(id)`: removes the first task with that id. */
    method DeleteTask(id: int) returns (r: Result<Ack>)
      modifies this
      ensures nextId == old(nextId)
      ensures r.Err? <==> forall j :: 0 <= j < |old(tasks)| ==> old(tasks)[j].id != id
      ensures r.Err? ==> r.error == NotFound && tasks == old(tasks)
      ensures r.Ok? ==> r.value == Ack(true) && tasks == Removed(old(tasks), IndexOfId(old(tasks), id))
    {
      var k := IndexOfId(tasks, id);
      if k == -1 {
        r := Err(NotFound);
      } else {
        tasks := Removed(tasks, k);
        r := Ok(Ack(true));
      }
    }
  }

  // ---------------------------------------------------------------------
  // Properties
  // ---------------------------------------------------------------------

  /** Filtering keeps store order: it distributes over concatenation. */
  lemma {:induction false} WithStatusAppend(a: seq<Task>, b: seq<Task>, status: string)
    ensures WithStatus(a + b, status) == WithStatus(a, status) + WithStatus(b, status)
  {
    if a == [] {
      assert a + b == b;
    } else {
      assert (a + b)[1..] == a[1..] + b;
      WithStatusAppend(a[1..], b, status);
    }
  }

  /** Filtering by a status that every task has returns the list itself;
      filtering by one no task has returns nothing. */
  lemma {:induction false} WithStatusExtremes(ts: seq<Task>, status: string)
    ensures (forall t :: t in ts ==> t.status == status) ==> WithStatus(ts, status) == ts
    ensures (forall t :: t in ts ==> t.status != status) ==> WithStatus(ts, status) == []
  {
    if ts != [] {
      assert forall t :: t in ts[1..] ==> t in ts;
      WithStatusExtremes(ts[1..], status);
    }
  }

  /** An empty patch is the identity, merging the same patch twice is merging
      it once, and a merge leaves the record as it was exactly when every key
      the patch carries already holds that value. */
  lemma MergeLaws(t: Task, p: Fields)
    ensures Merge(t, Fields(None, None, None, None, None, None)) == t
    ensures Merge(Merge(t, p), p) == Merge(t, p)
    ensures Merge(t, p) == t <==>
      && (p.id.Some? ==> p.id.value == t.id)
      && (p.title.Some? ==> p.title == t.title)
      && (p.description.Some? ==> p.description == t.description)
      && (p.status.Some? ==> p.status.value == t.status)
      && (p.createdAt.Some? ==> p.createdAt.value == t.createdAt)
      && (p.priority.Some? ==> p.priority == t.priority)
  {
  }

  /** A created record ignores any `status` or `createdAt` in the data and
      keeps a blank title as given (the store does not validate). */
  lemma NewRecordIgnoresStatus(n: int, title: string, today: string)
    ensures var t := NewRecord(n, Fields(None, Some(title), None, Some("done"), Some("1999-01-01"), None), today);
      t.status == "todo" && t.createdAt == today && t.title == Some(title) && t.id == n
  {
  }

  /** The seed satisfies the fresh-id invariant with counter 7. */
  lemma SeedHasFreshIds()
    ensures FreshIds(Seed, SeedNextId)
  {
  }

  /** Creating without a caller-supplied id keeps ids fresh and distinct. */
  lemma CreateKeepsFreshIds(ts: seq<Task>, nextId: int, data: Fields, today: string)
    requires FreshIds(ts, nextId) && data.id.None?
    ensures FreshIds(ts + [NewRecord(nextId, data, today)], nextId + 1)
  {
  }

  /** A caller-supplied id is stored as given, so it can duplicate an existing id. */
  lemma CreateWithIdCanDuplicate()
    ensures var t := NewRecord(SeedNextId, Fields(Some(1), Some("x"), None, None, None, None), "2025-02-04");
      t.id == Seed[0].id && !FreshIds(Seed + [t], SeedNextId + 1)
  {
    var t := NewRecord(SeedNextId, Fields(Some(1), Some("x"), None, None, None, None), "2025-02-04");
    var s := Seed + [t];
    assert s[0].id == s[6].id;
  }

  /** An update that does not carry an id keeps ids fresh and distinct. */
  lemma UpdateKeepsFreshIds(ts: seq<Task>, nextId: int, k: nat, updates: Fields)
    requires FreshIds(ts, nextId) && k < |ts| && updates.id.None?
    ensures FreshIds(ts[k := Merge(ts[k], updates)], nextId)
  {
  }

  /** Deleting keeps ids fresh and distinct. */
  lemma DeleteKeepsFreshIds(ts: seq<Task>, nextId: int, k: nat)
    requires FreshIds(ts, nextId) && k < |ts|
    ensures FreshIds(Removed(ts, k), nextId)
  {
    var r := Removed(ts, k);
    forall i, j | 0 <= i < j < |r| ensures r[i].id != r[j].id {
      var i' := if i < k then i else i + 1;
      var j' := if j < k then j else j + 1;
      assert r[i] == ts[i'] && r[j] == ts[j'] && i' < j';
    }
  }

  /** With distinct ids, deleting an id removes every task with that id, so a
      second delete of the same id finds nothing. */
  lemma DeleteTwiceFails(ts: seq<Task>, nextId: int, id: int)
    requires FreshIds(ts, nextId)
    requires IndexOfId(ts, id) != -1
    ensures IndexOfId(Removed(ts, IndexOfId(ts, id)), id) == -1
  {
    var k := IndexOfId(ts, id);
    var r := Removed(ts, k);
    forall j | 0 <= j < |r| ensures r[j].id != id {
      if j < k {
        assert r[j] == ts[j];
      } else {
        assert r[j] == ts[j + 1] && ts[k].id == id;
      }
    }
  }

  /** The second delete of an id succeeds when a create duplicated it:
      the distinct-ids premise above is needed. */
  lemma DuplicateIdSurvivesOneDelete()
    ensures var ts := [Seed[0], Seed[0].(title := Some("copy"))];
      IndexOfId(ts, 1) == 0 && IndexOfId(Removed(ts, 0), 1) == 0
  {
    var ts := [Seed[0], Seed[0].(title := Some("copy"))];
    assert Removed(ts, 0) == [ts[1]];
  }

  /** A client run on the seeded store: a blank title is stored, the id
      counter advances, and a second delete of the same id fails. */
  method StoreScenario()
  {
    var store := new TaskStore();
    var t := store.CreateTask(Fields(None, Some("   "), None, None, None, None), "2025-02-04");
    assert t.id == 7 && t.title == Some("   ") && store.nextId == 8;
    assert |store.tasks| == 7 && store.tasks[6].id == 7;
    var first := store.DeleteTask(7);
    assert first.Ok?;
    SeedHasFreshIds();
    CreateKeepsFreshIds(Seed, SeedNextId, Fields(None, Some("   "), None, None, None, None), "2025-02-04");
    DeleteTwiceFails(Seed + [t], 8, 7);
    var second := store.DeleteTask(7);
    assert second == Err(NotFound);
  }
}
