/**
 * The client's task state: the task list, the task being viewed, the loading
 * flag, the last error and the list filters. Every reducer and every pending,
 * fulfilled and rejected case of the nine request thunks is a method that
 * updates the state in place.
 */
module TaskSlice {
  import opened Options
  import Sequences
  import opened TaskModel

  /** The list filters the task page reads. */
  datatype Filters = Filters(status: string, priority: string, sortBy: string, sortOrder: string)

  /** A `setFilters` payload: the keys it carries. */
  datatype FilterPatch = FilterPatch(
    status: Option<string>, priority: Option<string>, sortBy: Option<string>, sortOrder: Option<string>)

  const DefaultFilters := Filters("all", "all", "createdAt", "desc")

  /** `{ ...filters, ...patch }`: each key the patch carries overrides, the rest stay. */
  function Overlay(f: Filters, p: FilterPatch): (r: Filters)
    ensures r.status == (if p.status.Some? then p.status.value else f.status)
    ensures r.priority == (if p.priority.Some? then p.priority.value else f.priority)
    ensures r.sortBy == (if p.sortBy.Some? then p.sortBy.value else f.sortBy)
    ensures r.sortOrder == (if p.sortOrder.Some? then p.sortOrder.value else f.sortOrder)
  {
    Filters(p.status.GetOr(f.status), p.priority.GetOr(f.priority), p.sortBy.GetOr(f.sortBy), p.sortOrder.GetOr(f.sortOrder))
  }

  /** An empty patch changes nothing, and applying the same patch twice is applying it once. */
  lemma OverlayLaws(f: Filters, p: FilterPatch)
    ensures Overlay(f, FilterPatch(None, None, None, None)) == f
    ensures Overlay(Overlay(f, p), p) == Overlay(f, p)
  {
  }

  /** `findIndex(task => task._id === id)`: the first position holding `id`, or -1. */
  function IndexOfId(ts: seq<Task>, id: Id): (r: int)
    ensures -1 <= r < |ts|
    ensures r >= 0 ==> ts[r].id == id && forall i :: 0 <= i < r ==> ts[i].id != id
    ensures r == -1 <==> forall i :: 0 <= i < |ts| ==> ts[i].id != id
  {
    Sequences.FirstIndex(ts, (t: Task) => t.id == id)
  }

  /** `filter(task => task._id !== id)`. */
  function RemoveId(ts: seq<Task>, id: Id): (r: seq<Task>)
    ensures forall t :: t in r <==> t in ts && t.id != id
    ensures |r| <= |ts|
  {
    if ts == [] then []
    else
      assert forall t :: t in ts <==> t == ts[0] || t in ts[1..];
      (if ts[0].id != id then [ts[0]] else []) + RemoveId(ts[1..], id)
  }

  /** Removal keeps the order of what remains: it acts piece by piece on a concatenation. */
  lemma {:induction false} RemoveIdSplits(a: seq<Task>, b: seq<Task>, id: Id)
    ensures RemoveId(a + b, id) == RemoveId(a, id) + RemoveId(b, id)
  {
    if a == [] {
      assert a + b == b;
    } else {
      assert (a + b)[1..] == a[1..] + b;
      RemoveIdSplits(a[1..], b, id);
    }
  }

  /** Removing an id that is not there changes nothing, so removing twice is removing once. */
  lemma {:induction false} RemoveIdAbsent(ts: seq<Task>, id: Id)
    requires forall t :: t in ts ==> t.id != id
    ensures RemoveId(ts, id) == ts
  {
    if ts != [] {
      assert ts[0] in ts;
      assert forall t :: t in ts[1..] ==> t in ts;
      RemoveIdAbsent(ts[1..], id);
    }
  }

  lemma RemoveIdIdempotent(ts: seq<Task>, id: Id)
    ensures RemoveId(RemoveId(ts, id), id) == RemoveId(ts, id)
  {
    RemoveIdAbsent(RemoveId(ts, id), id);
  }

  /** Which request a pending, fulfilled or rejected case belongs to. */
  datatype Request =
    | GetAll | GetById | CreateOne | UpdateOne | DeleteOne | FilterByStatus | WithQuery | UpdateStatus | UpdatePriority

  class Slice {
    var tasks: seq<Task>
    var currentTask: Option<Task>
    var loading: bool
    var error: Option<string>
    var filters: Filters

    /** The initial state. */
    constructor ()
      ensures tasks == [] && currentTask == None && !loading && error == None && filters == DefaultFilters
    {
      tasks := [];
      currentTask := None;
      loading := false;
      error := None;
      filters := DefaultFilters;
    }

    method ClearError()
      modifies this
      ensures error == None
      ensures tasks == old(tasks) && currentTask == old(currentTask) && loading == old(loading) && filters == old(filters)
    {
      error := None;
    }

    method ClearCurrentTask()
      modifies this
      ensures currentTask == None
      ensures tasks == old(tasks) && loading == old(loading) && error == old(error) && filters == old(filters)
    {
      currentTask := None;
    }

    method SetFilters(p: FilterPatch)
      modifies this
      ensures filters == Overlay(old(filters), p)
      ensures tasks == old(tasks) && currentTask == old(currentTask) && loading == old(loading) && error == old(error)
    {
      filters := Overlay(filters, p);
    }

    method ResetFilters()
      modifies this
      ensures filters == DefaultFilters
      ensures tasks == old(tasks) && currentTask == old(currentTask) && loading == old(loading) && error == old(error)
    {
      filters := DefaultFilters;
    }

    /** Optimistic edit: the payload's keys merged into the first task with its id, if any. */
    method UpdateTaskLocally(id: Id, patch: Body)
      modifies this
      ensures var i := IndexOfId(old(tasks), id);
        tasks == if i == -1 then old(tasks) else old(tasks)[i := Merge(old(tasks)[i], patch)]
      ensures currentTask == old(currentTask) && loading == old(loading) && error == old(error) && filters == old(filters)
    {
      var i := IndexOfId(tasks, id);
      if i != -1 {
        tasks := tasks[i := Merge(tasks[i], patch)];
      }
    }

    /** Optimistic removal: every task with the id goes, the rest keep their order. */
    method DeleteTaskLocally(id: Id)
      modifies this
      ensures tasks == RemoveId(old(tasks), id)
      ensures currentTask == old(currentTask) && loading == old(loading) && error == old(error) && filters == old(filters)
    {
      tasks := RemoveId(tasks, id);
    }

    /** Every pending case: a request is in flight and the last error is cleared. */
    method Pending(r: Request)
      modifies this
      ensures loading && error == None
      ensures tasks == old(tasks) && currentTask == old(currentTask) && filters == old(filters)
    {
      loading := true;
      error := None;
    }

    /** Every rejected case: the request is over and its message is the error. */
    method Rejected(r: Request, message: string)
      modifies this
      ensures !loading && error == Some(message)
      ensures tasks == old(tasks) && currentTask == old(currentTask) && filters == old(filters)
    {
      loading := false;
      error := Some(message);
    }

    /** `getAllTasks`, `filterTask` and `getTasksWithQuery` fulfilled: the list is replaced wholesale. */
    method ListFulfilled(r: Request, payload: seq<Task>)
      requires r in {GetAll, FilterByStatus, WithQuery}
      modifies this
      ensures tasks == payload && !loading && error == None
      ensures currentTask == old(currentTask) && filters == old(filters)
    {
      loading := false;
      tasks := payload;
      error := None;
    }

    method GetByIdFulfilled(payload: Task)
      modifies this
      ensures currentTask == Some(payload) && !loading && error == None
      ensures tasks == old(tasks) && filters == old(filters)
    {
      loading := false;
      currentTask := Some(payload);
      error := None;
    }

    /** The created task goes to the front. */
    method CreateFulfilled(payload: Task)
      modifies this
      ensures tasks == [payload] + old(tasks) && |tasks| == |old(tasks)| + 1
      ensures !loading && error == None
      ensures currentTask == old(currentTask) && filters == old(filters)
    {
      loading := false;
      tasks := [payload] + tasks;
      error := None;
    }

    /** The first task with the payload's id is replaced, and so is the viewed task when it has that id. */
    method UpdateFulfilled(payload: Task)
      modifies this
      ensures var i := IndexOfId(old(tasks), payload.id);
        tasks == if i == -1 then old(tasks) else old(tasks)[i := payload]
      ensures currentTask == if old(currentTask).Some? && old(currentTask).value.id == payload.id then Some(payload) else old(currentTask)
      ensures !loading && error == None && filters == old(filters)
    {
      loading := false;
      var i := IndexOfId(tasks, payload.id);
      if i != -1 {
        tasks := tasks[i := payload];
      }
      if currentTask.Some? && currentTask.value.id == payload.id {
        currentTask := Some(payload);
      }
      error := None;
    }

    /** Every task with the deleted id goes; the viewed task is cleared when it has that id. */
    method DeleteFulfilled(id: Id)
      modifies this
      ensures tasks == RemoveId(old(tasks), id)
      ensures currentTask == if old(currentTask).Some? && old(currentTask).value.id == id then None else old(currentTask)
      ensures !loading && error == None && filters == old(filters)
    {
      loading := false;
      tasks := RemoveId(tasks, id);
      if currentTask.Some? && currentTask.value.id == id {
        currentTask := None;
      }
      error := None;
    }

    /** Only the status of the first matching task, and of the viewed task when it matches, changes. */
    method StatusFulfilled(id: Id, status: string)
      modifies this
      ensures var i := IndexOfId(old(tasks), id);
        tasks == if i == -1 then old(tasks) else old(tasks)[i := old(tasks)[i].(status := status)]
      ensures currentTask ==
        if old(currentTask).Some? && old(currentTask).value.id == id then Some(old(currentTask).value.(status := status))
        else old(currentTask)
      ensures !loading && error == None && filters == old(filters)
    {
      loading := false;
      var i := IndexOfId(tasks, id);
      if i != -1 {
        tasks := tasks[i := tasks[i].(status := status)];
      }
      if currentTask.Some? && currentTask.value.id == id {
        currentTask := Some(currentTask.value.(status := status));
      }
      error := None;
    }

    /** Only the priority of the first matching task, and of the viewed task when it matches, changes. */
    method PriorityFulfilled(id: Id, priority: string)
      modifies this
      ensures var i := IndexOfId(old(tasks), id);
        tasks == if i == -1 then old(tasks) else old(tasks)[i := old(tasks)[i].(priority := priority)]
      ensures currentTask ==
        if old(currentTask).Some? && old(currentTask).value.id == id then Some(old(currentTask).value.(priority := priority))
        else old(currentTask)
      ensures !loading && error == None && filters == old(filters)
    {
      loading := false;
      var i := IndexOfId(tasks, id);
      if i != -1 {
        tasks := tasks[i := tasks[i].(priority := priority)];
      }
      if currentTask.Some? && currentTask.value.id == id {
        currentTask := Some(currentTask.value.(priority := priority));
      }
      error := None;
    }
  }

  /**
   * A replacement by id keeps the length and every other entry, and touches
   * nothing when no task has the id.
   */
  lemma ReplaceFirstKeepsOthers(ts: seq<Task>, t: Task)
    ensures var i := IndexOfId(ts, t.id);
      var r := if i == -1 then ts else ts[i := t];
      && |r| == |ts|
      && (forall k :: 0 <= k < |ts| && k != i ==> r[k] == ts[k])
      && (i >= 0 ==> r[i] == t)
      && (i == -1 ==> r == ts)
  {
  }

  /** A status change touches only the status field of one task. */
  lemma StatusChangeTouchesOneField(ts: seq<Task>, id: Id, status: string)
    requires IndexOfId(ts, id) >= 0
    ensures var i := IndexOfId(ts, id);
      var r := ts[i := ts[i].(status := status)];
      && r[i].status == status
      && forall f :: f != Status ==> Get(r[i], f) == Get(ts[i], f)
  {
  }

  /** Optimistic and confirmed deletion agree, and deleting twice is deleting once. */
  method DeleteTwiceIsOnce(s: Slice, id: Id)
    modifies s
    ensures s.tasks == RemoveId(old(s.tasks), id)
  {
    s.DeleteFulfilled(id);
    s.DeleteTaskLocally(id);
    RemoveIdIdempotent(old(s.tasks), id);
  }
}
