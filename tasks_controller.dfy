/**
 * The task request handlers: list with optional filters and sort, get by id,
 * create, partial update, delete and filter by status, every one scoped to
 * the authenticated caller's id. The document store is an in-memory sequence
 * of task records held by `TaskStore`; a store exception (including a path id
 * that is not a well-formed ObjectId) is the `fault` parameter, answered with
 * 500. The validation result the route chain leaves on the request is the
 * `errors` parameter.
 */
module TasksController {
  import opened Options
  import opened TaskModel
  import Strings
  import Sorting

  /** The query string of a list request. */
  datatype Query = Query(status: Option<string>, priority: Option<string>, sort: Option<string>)

  /** The document-store filter: the owner always, status and priority only when given. */
  datatype StoreFilter = StoreFilter(userId: Id, status: Option<string>, priority: Option<string>)

  function BuildFilter(caller: Id, q: Query): (f: StoreFilter)
    ensures f.userId == caller
    ensures f.status == (if Truthy(q.status) then q.status else None)
    ensures f.priority == (if Truthy(q.priority) then q.priority else None)
  {
    var f := StoreFilter(caller, None, None);
    var f := if Truthy(q.status) then f.(status := q.status) else f;
    if Truthy(q.priority) then f.(priority := q.priority) else f
  }

  predicate Matches(t: Task, f: StoreFilter) {
    && t.userId == f.userId
    && (f.status.Some? ==> t.status == f.status.value)
    && (f.priority.Some? ==> t.priority == f.priority.value)
  }

  /** `Task.find(filter)`: the matching tasks, in stored order. */
  function Select(ts: seq<Task>, f: StoreFilter): (r: seq<Task>)
    ensures forall t :: t in r <==> t in ts && Matches(t, f)
    ensures forall t :: multiset(r)[t] == if Matches(t, f) then multiset(ts)[t] else 0
    ensures |r| <= |ts|
  {
    if ts == [] then []
    else
      assert forall t :: t in ts <==> t == ts[0] || t in ts[1..];
      assert ts == [ts[0]] + ts[1..];
      (if Matches(ts[0], f) then [ts[0]] else []) + Select(ts[1..], f)
  }

  datatype SortOption = NewestFirst | OldestFirst | DueDateFirst | PriorityDescending

  /** The sort option of a list request; any value but the three names is the default. */
  function BuildSort(sort: Option<string>): (o: SortOption)
    ensures o == OldestFirst <==> sort == Some("oldest")
    ensures o == DueDateFirst <==> sort == Some("dueDate")
    ensures o == PriorityDescending <==> sort == Some("priority")
  {
    var o := NewestFirst;
    var o := if sort == Some("oldest") then OldestFirst else o;
    var o := if sort == Some("dueDate") then DueDateFirst else o;
    if sort == Some("priority") then PriorityDescending else o
  }

  /** The store orders a missing due date before every date. */
  predicate DueLessEq(a: Option<Date>, b: Option<Date>) {
    a.None? || (b.Some? && a.value.millis <= b.value.millis)
  }

  /**
   * Whether `a` may be returned before `b`. `PriorityDescending` is the
   * store's descending order on the priority text, not a severity ranking.
   */
  predicate Precedes(a: Task, b: Task, o: SortOption) {
    match o
    case NewestFirst => a.createdAt >= b.createdAt
    case OldestFirst => a.createdAt <= b.createdAt
    case DueDateFirst => DueLessEq(a.dueDate, b.dueDate)
    case PriorityDescending => Strings.LessEq(b.priority, a.priority)
  }

  function Order(o: SortOption): (Task, Task) -> bool {
    (a: Task, b: Task) => Precedes(a, b, o)
  }

  /** Each sort option is a total preorder, so a sorted answer exists and is well defined up to ties. */
  lemma OrderIsTotalPreorder(o: SortOption)
    ensures Sorting.Total(Order(o)) && Sorting.Transitive(Order(o))
  {
    if o == PriorityDescending {
      forall a: Task, b: Task ensures Order(o)(a, b) || Order(o)(b, a) {
        Strings.LessEqTotal(a.priority, b.priority);
      }
      forall a: Task, b: Task, c: Task | Order(o)(a, b) && Order(o)(b, c) ensures Order(o)(a, c) {
        Strings.LessEqTransitive(c.priority, b.priority, a.priority);
      }
    }
  }

  /**
   * With `sort=priority` a "low" task comes before a "high" one and a "medium"
   * task before a "low" one: the text order, not high > medium > low.
   */
  lemma PrioritySortIsTextual(r: seq<Task>, i: int, j: int)
    requires Sorting.Sorted(r, Order(PriorityDescending))
    requires 0 <= i < |r| && 0 <= j < |r|
    requires (r[i].priority == "low" && r[j].priority == "high") || (r[i].priority == "medium" && r[j].priority == "low")
    ensures i < j
  {
    if j < i {
      assert false;
    }
  }

  /**
   * The store's answer for `sort=priority` on three tasks ranked low, high
   * and medium is medium, low, high, whatever order they were stored in.
   */
  lemma PrioritySortExample(r: seq<Task>, low: Task, high: Task, medium: Task)
    requires low.priority == "low" && high.priority == "high" && medium.priority == "medium"
    requires multiset(r) == multiset([low, high, medium])
    requires Sorting.Sorted(r, Order(PriorityDescending))
    ensures r == [medium, low, high]
  {
    assert |r| == 3 by {
      assert |multiset(r)| == |multiset([low, high, medium])| == 3;
    }
    assert low in multiset(r) && high in multiset(r) && medium in multiset(r);
    var l :| 0 <= l < |r| && r[l] == low;
    var h :| 0 <= h < |r| && r[h] == high;
    var m :| 0 <= m < |r| && r[m] == medium;
    PrioritySortIsTextual(r, l, h);
    PrioritySortIsTextual(r, m, l);
  }

  /** The tasks `caller` may see under `id`. */
  predicate Owns(t: Task, id: Id, caller: Id) {
    t.id == id && t.userId == caller
  }

  /** `findOne({ _id: id, userId: caller })`: the first index owned under `id`, or -1. */
  function FindOwned(ts: seq<Task>, id: Id, caller: Id): (r: int)
    ensures -1 <= r < |ts|
    ensures r >= 0 ==> Owns(ts[r], id, caller) && forall i :: 0 <= i < r ==> !Owns(ts[i], id, caller)
    ensures r == -1 <==> forall i :: 0 <= i < |ts| ==> !Owns(ts[i], id, caller)
  {
    if ts == [] then -1
    else if Owns(ts[0], id, caller) then 0
    else
      var k := FindOwned(ts[1..], id, caller);
      assert forall i :: 1 <= i < |ts| ==> ts[i] == ts[1..][i - 1];
      if k == -1 then -1 else k + 1
  }

  /** A task owned by one user is not found for any other user: a missing task and a foreign one look the same. */
  lemma {:induction false} ForeignTaskNotFound(ts: seq<Task>, k: int, other: Id)
    requires UniqueIds(ts) && 0 <= k < |ts| && ts[k].userId != other
    ensures FindOwned(ts, ts[k].id, other) == -1
  {
    forall i | 0 <= i < |ts| ensures !Owns(ts[i], ts[k].id, other) {
      if i != k {
        assert ts[i].id != ts[k].id by {
          if i < k { assert ts[i].id != ts[k].id; } else { assert ts[k].id != ts[i].id; }
        }
      }
    }
  }

  /** `new Task({ ...body, userId })`, with the schema's defaults for status and priority. */
  function NewTask(id: Id, owner: Id, b: Body, now: int): (t: Task)
    ensures t.id == id && t.createdAt == now && t.userId == owner
    ensures forall f :: f != Owner && Has(b, f) ==> Get(t, f) == BodyValue(b, f)
    ensures !Has(b, Status) ==> t.status == DefaultStatus
    ensures !Has(b, Priority) ==> t.priority == DefaultPriority
    ensures !Has(b, Description) ==> t.description == None
    ensures !Has(b, DueDate) ==> t.dueDate == None
  {
    var defaults := Task(id, owner, "", None, DefaultStatus, DefaultPriority, None, now);
    Merge(defaults, b).(userId := owner)
  }

  /**
   * An update body that carries `userId` moves the task to that user: the
   * key loop copies every key, the owner included.
   */
  lemma UpdateBodyCanReassignOwner(t: Task, b: Body, caller: Id)
    requires Owns(t, t.id, caller) && b.userId.Some? && b.userId.value != caller
    ensures !Owns(Merge(t, b), t.id, caller)
  {
    assert Get(Merge(t, b), Owner) == BodyValue(b, Owner);
  }

  /** What a handler sends back. */
  datatype Reply =
    | Listed(count: nat, tasks: seq<Task>)
    | Found(task: Task)
    | Created(task: Task)
    | Updated(task: Task)
    | Deleted
    | Invalid(errors: seq<FieldError>)
    | NotFound
    | ServerError(message: string)
  {
    function Status(): int {
      match this
      case Listed(_, _) => 200
      case Found(_) => 200
      case Created(_) => 201
      case Updated(_) => 200
      case Deleted => 200
      case Invalid(_) => 400
      case NotFound => 404
      case ServerError(_) => 500
    }

    /** The tasks the reply discloses. */
    function Disclosed(): seq<Task> {
      match this
      case Listed(_, ts) => ts
      case Found(t) => [t]
      case Created(t) => [t]
      case Updated(t) => [t]
      case _ => []
    }
  }

  /** The sort `filterTask` applies: newest first. */
  const FilterSort: SortOption := NewestFirst

  /** The answer of a list query: the selected tasks in an order the store may return. */
  method Answer(ts: seq<Task>, f: StoreFilter, o: SortOption) returns (r: Reply)
    ensures r.Listed? && r.count == |r.tasks|
    ensures multiset(r.tasks) == multiset(Select(ts, f))
    ensures Sorting.Sorted(r.tasks, Order(o))
    ensures forall t :: t in r.tasks ==> t in ts && Matches(t, f)
  {
    var selected := Select(ts, f);
    var sorted := Sorting.Sort(selected, Order(o));
    OrderIsTotalPreorder(o);
    Sorting.SortSorted(selected, Order(o));
    forall t | t in sorted ensures t in selected {
      assert t in multiset(sorted);
    }
    r := Listed(|sorted|, sorted);
  }

  /** The task collection. */
  class TaskStore {
    var tasks: seq<Task>

    ghost predicate Valid()
      reads this
    {
      UniqueIds(tasks)
    }

    constructor ()
      ensures Valid() && tasks == []
    {
      tasks := [];
    }

    /** `getAllTasks`: the caller's tasks matching the given filters, in the requested order. */
    method GetAllTasks(caller: Id, q: Query, fault: bool) returns (r: Reply)
      ensures fault ==> r == ServerError("Server error fetching tasks")
      ensures !fault ==> r.Listed? && r.count == |r.tasks|
      ensures !fault ==> multiset(r.tasks) == multiset(Select(tasks, BuildFilter(caller, q)))
      ensures !fault ==> Sorting.Sorted(r.tasks, Order(BuildSort(q.sort)))
      ensures !fault ==> forall t :: t in r.tasks ==> t in tasks && t.userId == caller
      ensures !fault && Truthy(q.status) ==> forall t :: t in r.tasks ==> t.status == q.status.value
      ensures !fault && Truthy(q.priority) ==> forall t :: t in r.tasks ==> t.priority == q.priority.value
    {
      if fault {
        return ServerError("Server error fetching tasks");
      }
      r := Answer(tasks, BuildFilter(caller, q), BuildSort(q.sort));
    }

    /** `getTaskById`: found only when both the id and the owner match. */
    method GetTaskById(caller: Id, id: Id, fault: bool) returns (r: Reply)
      ensures fault ==> r == ServerError("Server error fetching task")
      ensures !fault ==> (r.Found? <==> exists i :: 0 <= i < |tasks| && Owns(tasks[i], id, caller))
      ensures !fault && r.Found? ==> r.task in tasks && Owns(r.task, id, caller)
      ensures !fault && !r.Found? ==> r == NotFound
    {
      if fault {
        return ServerError("Server error fetching task");
      }
      var i := FindOwned(tasks, id, caller);
      if i == -1 {
        return NotFound;
      }
      r := Found(tasks[i]);
    }

    /** `createTask`: rejected on validation errors; otherwise stored with the caller as owner. */
    method CreateTask(caller: Id, body: Body, errors: seq<FieldError>, now: int, fault: bool) returns (r: Reply)
      requires Valid()
      modifies this
      ensures Valid()
      ensures errors != [] ==> r == Invalid(errors) && tasks == old(tasks)
      ensures errors == [] && fault ==> r == ServerError("Server error creating task") && tasks == old(tasks)
      ensures errors == [] && !fault ==>
        && r == Created(NewTask(FreshId(TaskIds(old(tasks))), caller, body, now))
        && tasks == old(tasks) + [r.task]
        && r.task.userId == caller
        && forall t :: t in old(tasks) ==> t.id != r.task.id
    {
      if errors != [] {
        return Invalid(errors);
      }
      if fault {
        return ServerError("Server error creating task");
      }
      var ids := TaskIds(tasks);
      var task := NewTask(FreshId(ids), caller, body, now);
      assert forall i :: 0 <= i < |tasks| ==> tasks[i].id != task.id by {
        forall i | 0 <= i < |tasks| ensures tasks[i].id != task.id {
          assert ids[i] == tasks[i].id;
        }
      }
      tasks := tasks + [task];
      r := Created(task);
    }

    /**
     * `updateTask`: validation first, then the owner-scoped lookup, then every
     * key of the body assigned to the found task.
     */
    method UpdateTask(caller: Id, id: Id, body: Body, keys: seq<Field>, errors: seq<FieldError>, fault: bool)
      returns (r: Reply)
      requires Valid() && IsKeyList(body, keys)
      modifies this
      ensures Valid()
      ensures errors != [] ==> r == Invalid(errors) && tasks == old(tasks)
      ensures errors == [] && fault ==> r == ServerError("Server error updating task") && tasks == old(tasks)
      ensures errors == [] && !fault && FindOwned(old(tasks), id, caller) == -1 ==>
        r == NotFound && tasks == old(tasks)
      ensures errors == [] && !fault && FindOwned(old(tasks), id, caller) >= 0 ==>
        var i := FindOwned(old(tasks), id, caller);
        tasks == old(tasks)[i := Merge(old(tasks)[i], body)] && r == Updated(tasks[i])
    {
      if errors != [] {
        return Invalid(errors);
      }
      if fault {
        return ServerError("Server error updating task");
      }
      var i := FindOwned(tasks, id, caller);
      if i == -1 {
        return NotFound;
      }
      var task := AssignKeys(tasks[i], body, keys);
      assert task.id == tasks[i].id;
      tasks := tasks[i := task];
      r := Updated(task);
    }

    /** `deleteTask`: removes the one task owned under `id`, or answers 404. */
    method DeleteTask(caller: Id, id: Id, fault: bool) returns (r: Reply)
      requires Valid()
      modifies this
      ensures Valid()
      ensures fault ==> r == ServerError("Server error deleting task") && tasks == old(tasks)
      ensures !fault && FindOwned(old(tasks), id, caller) == -1 ==> r == NotFound && tasks == old(tasks)
      ensures !fault && FindOwned(old(tasks), id, caller) >= 0 ==>
        var i := FindOwned(old(tasks), id, caller);
        r == Deleted && tasks == old(tasks)[..i] + old(tasks)[i + 1..]
    {
      if fault {
        return ServerError("Server error deleting task");
      }
      var i := FindOwned(tasks, id, caller);
      if i == -1 {
        return NotFound;
      }
      RemovalKeepsUniqueIds(tasks, i);
      tasks := tasks[..i] + tasks[i + 1..];
      r := Deleted;
    }

    /** `filterTask`: the caller's tasks whose status is exactly `status`, newest first. */
    method FilterTask(caller: Id, status: string, fault: bool) returns (r: Reply)
      ensures fault ==> r == ServerError("Server error filtering tasks")
      ensures !fault ==> r.Listed? && r.count == |r.tasks|
      ensures !fault ==> multiset(r.tasks) == multiset(Select(tasks, StoreFilter(caller, Some(status), None)))
      ensures !fault ==> Sorting.Sorted(r.tasks, Order(FilterSort))
      ensures !fault ==> forall t :: t in r.tasks ==> t in tasks && t.userId == caller && t.status == status
    {
      if fault {
        return ServerError("Server error filtering tasks");
      }
      r := Answer(tasks, StoreFilter(caller, Some(status), None), FilterSort);
    }
  }

  /**
   * `Object.keys(body).forEach(key => task[key] = body[key])`: whatever the
   * key order, each key the body carries takes the body's value and every
   * other field keeps its value.
   */
  method AssignKeys(t: Task, body: Body, keys: seq<Field>) returns (r: Task)
    requires IsKeyList(body, keys)
    ensures r == Merge(t, body)
    ensures forall f :: Get(r, f) == if Has(body, f) then BodyValue(body, f) else Get(t, f)
  {
    r := t;
    var i := 0;
    while i < |keys|
      invariant 0 <= i <= |keys|
      invariant r.id == t.id && r.createdAt == t.createdAt
      invariant forall f :: Get(r, f) == if f in keys[..i] then BodyValue(body, f) else Get(t, f)
    {
      assert keys[..i + 1] == keys[..i] + [keys[i]];
      assert keys[i] !in keys[..i];
      r := Assign(r, body, keys[i]);
      i := i + 1;
    }
    assert keys[..i] == keys;
    FieldsDetermineTask(r, Merge(t, body));
  }

  lemma RemovalKeepsUniqueIds(ts: seq<Task>, i: int)
    requires UniqueIds(ts) && 0 <= i < |ts|
    ensures UniqueIds(ts[..i] + ts[i + 1..])
  {
    var r := ts[..i] + ts[i + 1..];
    forall a, b | 0 <= a < b < |r| ensures r[a].id != r[b].id {
      var a' := if a < i then a else a + 1;
      var b' := if b < i then b else b + 1;
      assert r[a] == ts[a'] && r[b] == ts[b'];
    }
  }

  /** After a successful delete no task is left under that id, for any caller: deleting again answers 404. */
  lemma {:induction false} DeletedTaskIsGone(ts: seq<Task>, id: Id, caller: Id, anyone: Id)
    requires UniqueIds(ts) && FindOwned(ts, id, caller) >= 0
    ensures var i := FindOwned(ts, id, caller); FindOwned(ts[..i] + ts[i + 1..], id, anyone) == -1
  {
    var i := FindOwned(ts, id, caller);
    var r := ts[..i] + ts[i + 1..];
    forall k | 0 <= k < |r| ensures r[k].id != id {
      var k' := if k < i then k else k + 1;
      assert r[k] == ts[k'];
      if k' < i { assert ts[k'].id != ts[i].id; } else { assert ts[i].id != ts[k'].id; }
    }
  }

  /** A path status outside the three statuses matches nothing: 200 with an empty list. */
  lemma {:induction false} UnknownStatusSelectsNothing(ts: seq<Task>, caller: Id, status: string)
    requires forall t :: t in ts ==> t.status in Statuses
    requires status !in Statuses
    ensures Select(ts, StoreFilter(caller, Some(status), None)) == []
  {
    if ts != [] {
      assert ts[0] in ts;
      UnknownStatusSelectsNothing(ts[1..], caller, status);
    }
  }

  /** A task appended under a fresh id is found at the end, by its owner. */
  lemma {:induction false} FindAppended(ts: seq<Task>, t: Task)
    requires forall x :: x in ts ==> x.id != t.id
    ensures FindOwned(ts + [t], t.id, t.userId) == |ts|
  {
    var all := ts + [t];
    forall i | 0 <= i < |ts| ensures !Owns(all[i], t.id, t.userId) {
      assert all[i] == ts[i] && ts[i] in ts;
    }
    assert Owns(all[|ts|], t.id, t.userId);
  }

  /** A created task is then found by id, with exactly the fields it was created with. */
  method CreateThenGet(store: TaskStore, caller: Id, body: Body, now: int)
    returns (created: Reply, fetched: Reply)
    requires store.Valid()
    modifies store
    ensures created.Created? && fetched == Found(created.task)
    ensures created.task.userId == caller
    ensures forall f :: f != Owner && Has(body, f) ==> Get(fetched.task, f) == BodyValue(body, f)
  {
    created := store.CreateTask(caller, body, [], now, false);
    FindAppended(old(store.tasks), created.task);
    fetched := store.GetTaskById(caller, created.task.id, false);
  }

  /** Deleting the same id twice: the second call answers 404 and changes nothing. */
  method DeleteTwice(store: TaskStore, caller: Id, id: Id) returns (first: Reply, second: Reply)
    requires store.Valid()
    modifies store
    ensures first == Deleted ==> second == NotFound
    ensures second == NotFound
    ensures store.Valid()
  {
    ghost var before := store.tasks;
    first := store.DeleteTask(caller, id, false);
    if first == Deleted {
      DeletedTaskIsGone(before, id, caller, caller);
    }
    second := store.DeleteTask(caller, id, false);
  }
}
