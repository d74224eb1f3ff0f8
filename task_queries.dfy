/**
 * The query-key algebra of the task hooks and the cache entries each
 * mutation marks stale when it succeeds.
 *
 * A query key is an array compared element by element. An element is a
 * string or a number, and the two never compare equal ("3" is not 3), which
 * is how the query library matches a key against a prefix. The cache itself
 * is not modelled: only which keys a successful mutation invalidates.
 */
module TaskQueries {
  import opened Wrappers
  import TaskApi

  /** One element of a query key. */
  datatype Seg = Str(s: string) | Num(n: int)

  type Key = seq<Seg>

  /** `taskKeys.all`. */
  const All: Key := [Str("tasks")]

  /** `taskKeys.lists()`. */
  function Lists(): Key { All + [Str("list")] }

  /** `taskKeys.list(filters)`. */
  function List(filters: Seg): Key { Lists() + [filters] }

  /** `taskKeys.details()`. */
  function Details(): Key { All + [Str("detail")] }

  /** `taskKeys.detail(id)`. */
  function Detail(id: Seg): Key { Details() + [id] }

  /** An invalidation with prefix `p` reaches exactly the keys that extend `p`. */
  predicate Reaches(p: Key, key: Key) { p <= key }

  /** Some prefix in `prefixes` reaches `key`. */
  predicate Invalidated(prefixes: seq<Key>, key: Key) {
    exists p :: p in prefixes && Reaches(p, key)
  }

  // ---------------------------------------------------------------------
  // Key algebra
  // ---------------------------------------------------------------------

  /** `lists()` heads every list key and `details()` every detail key, and
      neither family reaches the other. */
  lemma KeyFamilies(f: Seg, id: Seg)
    ensures Reaches(Lists(), List(f)) && Reaches(Details(), Detail(id))
    ensures Reaches(All, List(f)) && Reaches(All, Detail(id))
    ensures !Reaches(Lists(), Detail(id)) && !Reaches(Details(), List(f))
    ensures !Reaches(Lists(), Details()) && !Reaches(Details(), Lists())
  {
    assert Detail(id)[1] == Str("detail") && Lists()[1] == Str("list");
    assert List(f)[1] == Str("list") && Details()[1] == Str("detail");
  }

  /** Keys are injective in their parameter. */
  lemma KeysInjective(f1: Seg, f2: Seg, a: Seg, b: Seg)
    ensures List(f1) == List(f2) <==> f1 == f2
    ensures Detail(a) == Detail(b) <==> a == b
    ensures List(f1) != Detail(a)
  {
    if List(f1) == List(f2) { assert List(f1)[2] == f1 && List(f2)[2] == f2; }
    if Detail(a) == Detail(b) { assert Detail(a)[2] == a && Detail(b)[2] == b; }
    assert List(f1)[1] != Detail(a)[1];
  }

  // ---------------------------------------------------------------------
  // Queries
  // ---------------------------------------------------------------------

  /** What a query hook hands to the library: its key, the filter its fetcher
      passes on, and whether the query may run. */
  datatype ListQuery = ListQuery(key: Key, fetchFilter: string)
  datatype DetailQuery = DetailQuery(key: Key, fetchId: Seg, enabled: bool)

  /** JavaScript truthiness of an id: the empty string and 0 are falsy. */
  predicate Truthy(id: Seg) {
    match id
    case Str(s) => s != ""
    case Num(n) => n != 0
  }

  /** `useTasks(statusFilter = 'all')`: the key and the fetcher use the same filter. */
  function TasksQuery(statusFilter: Option<string>): (q: ListQuery)
    ensures q.key == List(Str(q.fetchFilter))
    ensures statusFilter.None? ==> q.fetchFilter == "all"
    ensures statusFilter.Some? ==> q.fetchFilter == statusFilter.value
  {
    var f := statusFilter.GetOr("all");
    ListQuery(List(Str(f)), f)
  }

  /** `useTask(id)`: keyed by the id as given, enabled only when it is truthy. */
  function TaskQuery(id: Seg): (q: DetailQuery)
    ensures q.key == Detail(id) && q.fetchId == id
    ensures q.enabled <==> Truthy(id)
    ensures id == Str("") || id == Num(0) ==> !q.enabled
  {
    DetailQuery(Detail(id), id, Truthy(id))
  }

  /** Two list queries share a cache entry only when they fetch with the same
      filter, so they always read the same data from the same store. */
  lemma SameKeySameData(f1: Option<string>, f2: Option<string>)
    requires TasksQuery(f1).key == TasksQuery(f2).key
    ensures TasksQuery(f1).fetchFilter == TasksQuery(f2).fetchFilter
  {
    KeysInjective(Str(TasksQuery(f1).fetchFilter), Str(TasksQuery(f2).fetchFilter), Num(0), Num(0));
  }

  // ---------------------------------------------------------------------
  // Invalidation on mutation success
  // ---------------------------------------------------------------------

  /** `useCreateTask`: on success, every list query. */
  function CreateInvalidations(r: Result<TaskApi.Task>): (ps: seq<Key>)
    ensures r.Err? ==> ps == []
    ensures r.Ok? ==> Lists() in ps
    ensures forall p :: p in ps ==> p == Lists()
  {
    if r.Ok? then [Lists()] else []
  }

  /** `useUpdateTask`: on success, every list query and the detail query of
      the id in the record the store returned. */
  function UpdateInvalidations(r: Result<TaskApi.Task>): (ps: seq<Key>)
    ensures r.Err? ==> ps == []
    ensures r.Ok? ==> Lists() in ps && Detail(Num(r.value.id)) in ps
    ensures r.Ok? ==> forall p :: p in ps ==> p == Lists() || p == Detail(Num(r.value.id))
  {
    if r.Ok? then [Lists(), Detail(Num(r.value.id))] else []
  }

  /** `useDeleteTask`: on success, every list query. */
  function DeleteInvalidations(r: Result<TaskApi.Ack>): (ps: seq<Key>)
    ensures r.Err? ==> ps == []
    ensures r.Ok? ==> Lists() in ps
    ensures forall p :: p in ps ==> p == Lists()
  {
    if r.Ok? then [Lists()] else []
  }

  /** A create invalidates exactly the list keys, and only when it succeeds. */
  lemma CreateInvalidatesLists(r: Result<TaskApi.Task>, key: Key)
    ensures Invalidated(CreateInvalidations(r), key) <==> r.Ok? && Reaches(Lists(), key)
  {
    if r.Ok? && Reaches(Lists(), key) {
      assert Lists() in CreateInvalidations(r);
    }
  }

  /** A delete invalidates exactly the list keys; no detail key, not even the
      deleted task's, and nothing when it fails. */
  lemma DeleteInvalidatesLists(r: Result<TaskApi.Ack>, key: Key, id: Seg)
    ensures Invalidated(DeleteInvalidations(r), key) <==> r.Ok? && Reaches(Lists(), key)
    ensures !Invalidated(DeleteInvalidations(r), Detail(id))
  {
    if r.Ok? && Reaches(Lists(), key) {
      assert Lists() in DeleteInvalidations(r);
    }
    KeyFamilies(Num(0), id);
  }

  /** An update invalidates the list keys and the returned record's detail
      key (with anything below it), and nothing when it fails. */
  lemma UpdateInvalidatesListsAndDetail(r: Result<TaskApi.Task>, key: Key)
    ensures Invalidated(UpdateInvalidations(r), key) <==>
      r.Ok? && (Reaches(Lists(), key) || Reaches(Detail(Num(r.value.id)), key))
  {
    if r.Ok? && Reaches(Lists(), key) {
      assert Lists() in UpdateInvalidations(r);
    }
    if r.Ok? && Reaches(Detail(Num(r.value.id)), key) {
      assert Detail(Num(r.value.id)) in UpdateInvalidations(r);
    }
  }

  /** The detail key comes from the returned record: an update that rewrites
      the id invalidates the new id's detail entry, not the old one's. */
  lemma UpdateUsesReturnedId(t: TaskApi.Task, updates: TaskApi.Fields)
    requires updates.id.Some? && updates.id.value != t.id
    ensures var r := Ok(TaskApi.Merge(t, updates));
      && Invalidated(UpdateInvalidations(r), Detail(Num(updates.id.value)))
      && !Invalidated(UpdateInvalidations(r), Detail(Num(t.id)))
  {
    var r := Ok(TaskApi.Merge(t, updates));
    UpdateInvalidatesListsAndDetail(r, Detail(Num(updates.id.value)));
    UpdateInvalidatesListsAndDetail(r, Detail(Num(t.id)));
    KeyFamilies(Num(0), Num(t.id));
    assert Detail(Num(updates.id.value))[2] != Detail(Num(t.id))[2];
  }

  /** The detail page keys its query by the route parameter, a string, while a
      successful update invalidates the detail key built from the record's
      numeric id: the page's own entry is never marked stale. */
  lemma DetailPageEntryMissed(t: TaskApi.Task, routeId: string)
    ensures !Invalidated(UpdateInvalidations(Ok(t)), TaskQuery(Str(routeId)).key)
  {
    var key := TaskQuery(Str(routeId)).key;
    UpdateInvalidatesListsAndDetail(Ok(t), key);
    KeyFamilies(Num(0), Str(routeId));
    assert key[2] == Str(routeId) && Detail(Num(t.id))[2] == Num(t.id);
  }

  /** No update, successful or not, reaches a detail key whose id is a string. */
  lemma NoStringDetailReached(r: Result<TaskApi.Task>, id: string)
    ensures !Invalidated(UpdateInvalidations(r), Detail(Str(id)))
  {
    if r.Ok? {
      DetailPageEntryMissed(r.value, id);
    }
  }

  /** The update invalidation with the mutation's own id argument added, so
      the entry the caller keyed by that argument is refreshed as well. */
  function UpdateInvalidationsFixed(id: Seg, r: Result<TaskApi.Task>): seq<Key> {
    if r.Ok? then [Lists(), Detail(Num(r.value.id)), Detail(id)] else []
  }

  /** With the fix, a successful update reaches the caller's detail entry, in
      whichever form the caller keyed it, and still reaches everything the
      original reaches; a failed update still invalidates nothing. */
  lemma FixedUpdateReachesCallerEntry(id: Seg, r: Result<TaskApi.Task>, key: Key)
    ensures r.Ok? ==> Invalidated(UpdateInvalidationsFixed(id, r), TaskQuery(id).key)
    ensures Invalidated(UpdateInvalidations(r), key) ==> Invalidated(UpdateInvalidationsFixed(id, r), key)
    ensures r.Err? ==> !Invalidated(UpdateInvalidationsFixed(id, r), key)
  {
    if r.Ok? {
      assert Detail(id) in UpdateInvalidationsFixed(id, r);
      assert Reaches(Detail(id), TaskQuery(id).key);
    }
    if Invalidated(UpdateInvalidations(r), key) {
      var p :| p in UpdateInvalidations(r) && Reaches(p, key);
      assert p in UpdateInvalidationsFixed(id, r);
    }
  }

  /** Which mutation ran, with its argument. */
  datatype Mutation =
    | CreateTask(data: TaskApi.Fields)
    | UpdateTask(id: Seg, updates: TaskApi.Fields)
    | DeleteTask(id: Seg)

  /** The prefixes a settled mutation invalidates, as the hooks are written.
      `result` is the create or update outcome, `deleted` the delete outcome. */
  function InvalidationsAfter(m: Mutation, result: Result<TaskApi.Task>, deleted: Result<TaskApi.Ack>): (ps: seq<Key>)
    ensures m.CreateTask? ==> forall key :: Invalidated(ps, key) <==> result.Ok? && Reaches(Lists(), key)
    ensures m.UpdateTask? ==> forall key :: Invalidated(ps, key) <==>
      result.Ok? && (Reaches(Lists(), key) || Reaches(Detail(Num(result.value.id)), key))
    ensures m.DeleteTask? ==> forall key :: Invalidated(ps, key) <==> deleted.Ok? && Reaches(Lists(), key)
    // A detail query keyed by a string id is never refreshed.
    ensures forall id :: !Invalidated(ps, Detail(Str(id)))
    ensures forall key :: Invalidated(ps, key) ==> Reaches(All, key)
  {
    match m
    case CreateTask(_) =>
      assert forall key :: Invalidated(CreateInvalidations(result), key) <==> result.Ok? && Reaches(Lists(), key) by {
        forall key { CreateInvalidatesLists(result, key); }
      }
      assert forall id :: !Reaches(Lists(), Detail(Str(id))) by {
        forall id { KeyFamilies(Num(0), Str(id)); }
      }
      CreateInvalidations(result)
    case UpdateTask(_, _) =>
      assert forall key :: Invalidated(UpdateInvalidations(result), key) <==>
          result.Ok? && (Reaches(Lists(), key) || Reaches(Detail(Num(result.value.id)), key)) by {
        forall key { UpdateInvalidatesListsAndDetail(result, key); }
      }
      assert forall id :: !Invalidated(UpdateInvalidations(result), Detail(Str(id))) by {
        forall id { NoStringDetailReached(result, id); }
      }
      UpdateInvalidations(result)
    case DeleteTask(_) =>
      assert forall key :: Invalidated(DeleteInvalidations(deleted), key) <==> deleted.Ok? && Reaches(Lists(), key) by {
        forall key { DeleteInvalidatesLists(deleted, key, Num(0)); }
      }
      assert forall id :: !Invalidated(DeleteInvalidations(deleted), Detail(Str(id))) by {
        forall id { DeleteInvalidatesLists(deleted, Detail(Str(id)), Str(id)); }
      }
      DeleteInvalidations(deleted)
  }

  /** The same with the corrected update, which also names the mutation's own
      id argument: everything the hooks as written invalidate, and in addition
      the detail entry keyed by that argument, whatever its type. */
  function InvalidationsAfterFixed(m: Mutation, result: Result<TaskApi.Task>, deleted: Result<TaskApi.Ack>): (ps: seq<Key>)
    ensures m.UpdateTask? && result.Ok? ==> Invalidated(ps, TaskQuery(m.id).key)
    ensures forall key :: Invalidated(InvalidationsAfter(m, result, deleted), key) ==> Invalidated(ps, key)
    ensures forall key :: Invalidated(ps, key) ==> Reaches(All, key)
  {
    match m
    case UpdateTask(id, _) =>
      assert forall key :: Invalidated(UpdateInvalidations(result), key) ==>
          Invalidated(UpdateInvalidationsFixed(id, result), key) by {
        forall key { FixedUpdateReachesCallerEntry(id, result, key); }
      }
      FixedUpdateReachesCallerEntry(id, result, Detail(id));
      UpdateInvalidationsFixed(id, result)
    case _ => InvalidationsAfter(m, result, deleted)
  }
}
