/**
 * The achievement tracker: a pure transition function over a tagged action,
 * its achievement table, and the view the hook derives from the state.
 *
 * `Date.now()` is the explicit parameter `now` (milliseconds). Reading and
 * writing the persisted blob is I/O and stays outside; `Persisted` gives the
 * blob's contents and `Hydrate` takes a parsed blob as its payload.
 */
module Achievements {
  import opened Wrappers
  import Ascii

  datatype Status = Idle | Unlocking | Celebrating

  datatype State = State(
    status: Status,
    unlocked: seq<string>,
    tasksCreated: int,
    tasksCompleted: int,
    lastTaskCreatedAt: Option<int>)

  /** The fields a `HYDRATE` payload may carry (`Some` when the key is present). */
  datatype Payload = Payload(
    status: Option<Status>,
    unlocked: Option<seq<string>>,
    tasksCreated: Option<int>,
    tasksCompleted: Option<int>,
    lastTaskCreatedAt: Option<Option<int>>)

  datatype Action =
    | TaskCreated
    | TaskCompleted
    | UnlockExplorer
    | UnlockCodeReader
    | CelebrationComplete
    | Hydrate(payload: Payload)
    // An action whose `type` is none of the six handled tags; the reducer's
    // `default` branch. The tag is a label only: a dispatch with a handled
    // tag is one of the constructors above, never this one.
    | Unrecognised(tag: string)

  datatype Achievement = Achievement(id: string, name: string, description: string, icon: string)

  const FirstTask := "first_task"
  const TaskMaster := "task_master"
  const SpeedDemon := "speed_demon"
  const Explorer := "explorer"
  const CodeReader := "code_reader"

  /** A completion within this many milliseconds of the last creation is fast. */
  const SpeedWindow := 60000

  /** The `ACHIEVEMENTS` table, keyed by the upper-cased id. */
  const Catalogue: map<string, Achievement> := map[
    "FIRST_TASK" := Achievement(FirstTask, "First Steps", "Create your first task", "\U{1F3AF}"),
    "TASK_MASTER" := Achievement(TaskMaster, "Task Master", "Complete 5 tasks", "\U{2B50}"),
    "SPEED_DEMON" := Achievement(SpeedDemon, "Speed Demon", "Complete a task within 1 minute of creating it", "\U{26A1}"),
    "EXPLORER" := Achievement(Explorer, "Explorer", "You found the secret achievements system!", "\U{1F50D}"),
    "CODE_READER" := Achievement(CodeReader, "Code Reader", "You read the source code!", "\U{1F440}")
  ]

  const Initial: State := State(Idle, [], 0, 0, None)

  /** JavaScript truthiness of the last-created timestamp: null and 0 are falsy. */
  predicate HasLastCreated(s: State) {
    s.lastTaskCreatedAt.Some? && s.lastTaskCreatedAt.value != 0
  }

  /** `list` with `id` pushed when it is not already there. */
  function AddOnce(list: seq<string>, id: string): (r: seq<string>)
    ensures id in r && list <= r
    ensures id in list ==> r == list
    ensures id !in list ==> r == list + [id]
  {
    if id in list then list else list + [id]
  }

  predicate NoDuplicates(list: seq<string>) {
    forall i, j :: 0 <= i < j < |list| ==> list[i] != list[j]
  }

  /** The status after a counting event: unlocking exactly when the list grew. */
  function StatusAfter(before: seq<string>, after: seq<string>): Status {
    if |after| > |before| then Unlocking else Idle
  }

  function OnTaskCreated(s: State, now: int): State {
    var n := s.tasksCreated + 1;
    var list := if n == 1 then AddOnce(s.unlocked, FirstTask) else s.unlocked;
    s.(status := StatusAfter(s.unlocked, list), tasksCreated := n,
       lastTaskCreatedAt := Some(now), unlocked := list)
  }

  function OnTaskCompleted(s: State, now: int): State {
    var n := s.tasksCompleted + 1;
    var list1 := if n >= 5 then AddOnce(s.unlocked, TaskMaster) else s.unlocked;
    var list2 :=
      if HasLastCreated(s) && now - s.lastTaskCreatedAt.value < SpeedWindow
      then AddOnce(list1, SpeedDemon) else list1;
    s.(status := StatusAfter(s.unlocked, list2), tasksCompleted := n, unlocked := list2)
  }

  function OnUnlock(s: State, id: string): State {
    if id in s.unlocked then s else s.(status := Unlocking, unlocked := s.unlocked + [id])
  }

  /** `{ ...state, ...payload }`: every field the payload carries overwrites. */
  function OnHydrate(s: State, p: Payload): State {
    State(
      if p.status.Some? then p.status.value else s.status,
      if p.unlocked.Some? then p.unlocked.value else s.unlocked,
      if p.tasksCreated.Some? then p.tasksCreated.value else s.tasksCreated,
      if p.tasksCompleted.Some? then p.tasksCompleted.value else s.tasksCompleted,
      if p.lastTaskCreatedAt.Some? then p.lastTaskCreatedAt.value else s.lastTaskCreatedAt)
  }

  /** `achievementReducer(state, action)` with the clock read as `now`. */
  function Reduce(s: State, a: Action, now: int): (r: State)
    // Outside hydration the unlock list only grows, by distinct ids, and the
    // counters never decrease.
    ensures !a.Hydrate? ==> s.unlocked <= r.unlocked
    ensures !a.Hydrate? && NoDuplicates(s.unlocked) ==> NoDuplicates(r.unlocked)
    ensures !a.Hydrate? ==> r.tasksCreated >= s.tasksCreated && r.tasksCompleted >= s.tasksCompleted
    // Every id the reducer adds is one of the table's ids.
    ensures !a.Hydrate? ==> forall id :: id in r.unlocked && id !in s.unlocked ==> Known(id)
    // Counting events report whether the list grew.
    ensures a.TaskCreated? || a.TaskCompleted? ==>
      (r.status == Unlocking <==> |r.unlocked| > |s.unlocked|) && r.status != Celebrating
    ensures a.UnlockExplorer? || a.UnlockCodeReader? ==>
      r == s || (r.status == Unlocking && |r.unlocked| == |s.unlocked| + 1)
    ensures a.CelebrationComplete? ==> r == s.(status := Idle)
    ensures a.Unrecognised? ==> r == s
  {
    match a
    case TaskCreated => OnTaskCreated(s, now)
    case TaskCompleted => OnTaskCompleted(s, now)
    case UnlockExplorer => OnUnlock(s, Explorer)
    case UnlockCodeReader => OnUnlock(s, CodeReader)
    case CelebrationComplete => s.(status := Idle)
    case Hydrate(p) => OnHydrate(s, p)
    case Unrecognised(_) => s
  }

  /** The ids of the table's entries. */
  predicate Known(id: string) {
    id == FirstTask || id == TaskMaster || id == SpeedDemon || id == Explorer || id == CodeReader
  }

  /** `ACHIEVEMENTS[id.toUpperCase()]`: the table entry an unlocked id stands for. */
  function Describe(id: string): (r: Option<Achievement>)
    ensures r.Some? <==> Ascii.Upper(id) in Catalogue
    ensures r.Some? ==> r.value == Catalogue[Ascii.Upper(id)]
  {
    var key := Ascii.Upper(id);
    if key in Catalogue then Some(Catalogue[key]) else None
  }

  /** The snapshot the hook writes after each change: the list and the counters. */
  function Persisted(s: State): (p: Payload)
    ensures p.unlocked == Some(s.unlocked)
    ensures p.tasksCreated == Some(s.tasksCreated) && p.tasksCompleted == Some(s.tasksCompleted)
    ensures p.status.None? && p.lastTaskCreatedAt.None?
  {
    Payload(None, Some(s.unlocked), Some(s.tasksCreated), Some(s.tasksCompleted), None)
  }

  /** Replays actions, each paired with the clock reading at its dispatch. */
  function Run(s: State, actions: seq<(Action, int)>): State
    decreases |actions|
  {
    if actions == [] then s
    else Run(Reduce(s, actions[0].0, actions[0].1), actions[1..])
  }

  // ---------------------------------------------------------------------
  // Properties
  // ---------------------------------------------------------------------

  /** Every id the reducer can add is the id of the table entry stored under
      its upper-cased form, so the hook's lookup is defined for it. */
  lemma DescribeKnown(id: string)
    requires Known(id)
    ensures Describe(id).Some? && Describe(id).value.id == id
  {
    if id == FirstTask { TableKey(FirstTask, "FIRST_TASK"); }
    else if id == TaskMaster { TableKey(TaskMaster, "TASK_MASTER"); }
    else if id == SpeedDemon { TableKey(SpeedDemon, "SPEED_DEMON"); }
    else if id == Explorer { TableKey(Explorer, "EXPLORER"); }
    else { TableKey(CodeReader, "CODE_READER"); }
  }

  /** The entry stored under `key` is the one `id` looks up. */
  lemma TableKey(id: string, key: string)
    requires key in Catalogue && Catalogue[key].id == id
    requires |id| == |key|
    requires forall i :: 0 <= i < |id| ==> Ascii.UpperChar(id[i]) == key[i]
    ensures Describe(id) == Some(Catalogue[key]) && Describe(id).value.id == id
  {
    UpperIs(id, key);
  }

  /** Upper-casing an id letter by letter. */
  lemma UpperIs(id: string, key: string)
    requires |id| == |key|
    requires forall i :: 0 <= i < |id| ==> Ascii.UpperChar(id[i]) == key[i]
    ensures Ascii.Upper(id) == key
  {
  }

  /** `TASK_CREATED`: counts the creation, stamps the time, and adds
      `first_task` only when the new count is 1 and it is missing. */
  lemma TaskCreatedEffect(s: State, now: int)
    ensures var r := Reduce(s, TaskCreated, now);
      && r.tasksCreated == s.tasksCreated + 1
      && r.lastTaskCreatedAt == Some(now)
      && r.tasksCompleted == s.tasksCompleted
      && (r.unlocked == s.unlocked + [FirstTask] <==> s.tasksCreated == 0 && FirstTask !in s.unlocked)
      && (r.unlocked == s.unlocked <==> !(s.tasksCreated == 0 && FirstTask !in s.unlocked))
  {
  }

  /** `TASK_COMPLETED`: counts the completion, leaves the creation fields
      alone, and adds `task_master` from the fifth completion and
      `speed_demon` within a minute of the last creation, each once. */
  lemma TaskCompletedEffect(s: State, now: int)
    ensures var r := Reduce(s, TaskCompleted, now);
      && r.tasksCompleted == s.tasksCompleted + 1
      && r.tasksCreated == s.tasksCreated
      && r.lastTaskCreatedAt == s.lastTaskCreatedAt
      && (TaskMaster in r.unlocked <==> TaskMaster in s.unlocked || s.tasksCompleted + 1 >= 5)
      && (SpeedDemon in r.unlocked <==>
            SpeedDemon in s.unlocked ||
            (HasLastCreated(s) && now - s.lastTaskCreatedAt.value < SpeedWindow))
      && (forall id :: id in r.unlocked ==> id in s.unlocked || id == TaskMaster || id == SpeedDemon)
  {
  }

  /** An explicit unlock returns the state itself when the id is already
      there, and otherwise appends that one id and enters unlocking, nothing
      else changed; so it is idempotent. */
  lemma UnlockIdempotent(s: State, now: int, later: int)
    ensures Explorer in s.unlocked ==> Reduce(s, UnlockExplorer, now) == s
    ensures Explorer !in s.unlocked ==>
      Reduce(s, UnlockExplorer, now) == s.(status := Unlocking, unlocked := s.unlocked + [Explorer])
    ensures CodeReader in s.unlocked ==> Reduce(s, UnlockCodeReader, now) == s
    ensures CodeReader !in s.unlocked ==>
      Reduce(s, UnlockCodeReader, now) == s.(status := Unlocking, unlocked := s.unlocked + [CodeReader])
    ensures Reduce(Reduce(s, UnlockExplorer, now), UnlockExplorer, later) == Reduce(s, UnlockExplorer, now)
    ensures Reduce(Reduce(s, UnlockCodeReader, now), UnlockCodeReader, later) == Reduce(s, UnlockCodeReader, now)
    ensures Explorer in Reduce(s, UnlockExplorer, now).unlocked
    ensures CodeReader in Reduce(s, UnlockCodeReader, now).unlocked
  {
  }

  /** `HYDRATE` overwrites exactly what the payload carries, with no merging:
      a persisted snapshot with a smaller counter lowers the counter. */
  lemma HydrateOverwrites(s: State, p: Payload, now: int)
    ensures var r := Reduce(s, Hydrate(p), now);
      && (p.unlocked.Some? ==> r.unlocked == p.unlocked.value)
      && (p.unlocked.None? ==> r.unlocked == s.unlocked)
      && (p.tasksCreated.Some? ==> r.tasksCreated == p.tasksCreated.value)
      && (p.tasksCreated.None? ==> r.tasksCreated == s.tasksCreated)
      && (p.tasksCompleted.Some? ==> r.tasksCompleted == p.tasksCompleted.value)
      && (p.tasksCompleted.None? ==> r.tasksCompleted == s.tasksCompleted)
      && (p.status.Some? ==> r.status == p.status.value)
      && (p.status.None? ==> r.status == s.status)
      && (p.lastTaskCreatedAt.Some? ==> r.lastTaskCreatedAt == p.lastTaskCreatedAt.value)
      && (p.lastTaskCreatedAt.None? ==> r.lastTaskCreatedAt == s.lastTaskCreatedAt)
  {
  }

  /** Hydrating a state's own snapshot changes nothing, and hydrating it into
      the initial state restores the list and counters, idle. */
  lemma PersistRoundTrip(s: State, now: int)
    ensures Reduce(s, Hydrate(Persisted(s)), now) == s
    ensures Reduce(Initial, Hydrate(Persisted(s)), now) ==
      State(Idle, s.unlocked, s.tasksCreated, s.tasksCompleted, None)
  {
  }

  /** A run without hydration only extends the unlock list and never lowers a counter. */
  lemma {:induction false} RunGrows(s: State, actions: seq<(Action, int)>)
    requires forall i :: 0 <= i < |actions| ==> !actions[i].0.Hydrate?
    ensures s.unlocked <= Run(s, actions).unlocked
    ensures Run(s, actions).tasksCreated >= s.tasksCreated
    ensures Run(s, actions).tasksCompleted >= s.tasksCompleted
    ensures NoDuplicates(s.unlocked) ==> NoDuplicates(Run(s, actions).unlocked)
    decreases |actions|
  {
    if actions != [] {
      var next := Reduce(s, actions[0].0, actions[0].1);
      RunGrows(next, actions[1..]);
    }
  }

  /** A run without hydration from a state whose ids are all in the table
      keeps them so: the hook's lookup never yields `undefined`. */
  lemma {:induction false} RunKeepsLookupDefined(s: State, actions: seq<(Action, int)>)
    requires forall i :: 0 <= i < |actions| ==> !actions[i].0.Hydrate?
    requires forall id :: id in s.unlocked ==> Known(id)
    ensures forall id :: id in Run(s, actions).unlocked ==> Known(id) && Describe(id).Some?
    decreases |actions|
  {
    if actions == [] {
      forall id | id in s.unlocked ensures Describe(id).Some? {
        DescribeKnown(id);
      }
    } else {
      var next := Reduce(s, actions[0].0, actions[0].1);
      RunKeepsLookupDefined(next, actions[1..]);
    }
  }

  /** Five completions from a fresh start unlock `task_master`. */
  lemma FiveCompletionsUnlockTaskMaster(s: State, t: int)
    requires s.tasksCompleted == 0
    ensures var r := Run(s, [(TaskCompleted, t), (TaskCompleted, t), (TaskCompleted, t), (TaskCompleted, t), (TaskCompleted, t)]);
      r.tasksCompleted == 5 && TaskMaster in r.unlocked
  {
    var s1 := Reduce(s, TaskCompleted, t);
    var s2 := Reduce(s1, TaskCompleted, t);
    var s3 := Reduce(s2, TaskCompleted, t);
    var s4 := Reduce(s3, TaskCompleted, t);
    var s5 := Reduce(s4, TaskCompleted, t);
    assert s5.tasksCompleted == 5 && TaskMaster in s5.unlocked;
    var acts := [(TaskCompleted, t), (TaskCompleted, t), (TaskCompleted, t), (TaskCompleted, t), (TaskCompleted, t)];
    assert Run(s, acts) == Run(s1, acts[1..]);
    assert Run(s1, acts[1..]) == Run(s2, acts[2..]);
    assert Run(s2, acts[2..]) == Run(s3, acts[3..]);
    assert Run(s3, acts[3..]) == Run(s4, acts[4..]);
    assert Run(s4, acts[4..]) == Run(s5, acts[5..]);
  }

  /** A completion `d` milliseconds after a creation at a nonzero time
      unlocks `speed_demon` exactly when `d` is under a minute. */
  lemma SpeedDemonWindow(s: State, created: int, d: int)
    requires created != 0 && SpeedDemon !in s.unlocked
    ensures var r := Reduce(Reduce(s, TaskCreated, created), TaskCompleted, created + d);
      SpeedDemon in r.unlocked <==> d < SpeedWindow
  {
    TaskCompletedEffect(Reduce(s, TaskCreated, created), created + d);
  }

  /** After hydrating `first_task` with one creation, a further creation
      counts 2 and does not unlock `first_task` again. */
  lemma HydratedFirstTaskNotRepeated(now: int, later: int)
    ensures var p := Payload(None, Some([FirstTask]), Some(1), Some(0), None);
      var r := Reduce(Reduce(Initial, Hydrate(p), now), TaskCreated, later);
      r.tasksCreated == 2 && r.unlocked == [FirstTask] && r.status == Idle
  {
  }

  /** The hook's view: `isUnlocking` and the looked-up achievements. */
  function IsUnlocking(s: State): (b: bool)
    ensures b <==> s.status == Unlocking
  {
    s.status == Unlocking
  }

  /** The celebration modal shows after an explicit unlock exactly when the id
      was new or a celebration was already pending. */
  lemma UnlockShowsCelebration(s: State, now: int)
    ensures IsUnlocking(Reduce(s, UnlockExplorer, now)) <==> Explorer !in s.unlocked || IsUnlocking(s)
    ensures IsUnlocking(Reduce(s, UnlockCodeReader, now)) <==> CodeReader !in s.unlocked || IsUnlocking(s)
    ensures !IsUnlocking(Reduce(s, CelebrationComplete, now))
  {
  }

  function Unlocked(s: State): (r: seq<Option<Achievement>>)
    ensures |r| == |s.unlocked|
    ensures forall i :: 0 <= i < |r| ==> r[i] == Describe(s.unlocked[i])
  {
    seq(|s.unlocked|, i requires 0 <= i < |s.unlocked| => Describe(s.unlocked[i]))
  }
}
