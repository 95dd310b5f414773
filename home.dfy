/**
 * The task page's visible list: the tasks matching the search box and the
 * status and priority selectors, ordered by the chosen key and direction;
 * the badge style fallbacks; and the overdue test, with the clock passed in.
 */
module Home {
  import opened Options
  import opened TaskModel
  import Strings
  import Sorting

  /** `includes` on lower-cased text (ASCII letters only are folded). */
  predicate MatchesSearch(t: Task, search: string) {
    var term := Strings.ToLower(search);
    Strings.Contains(Strings.ToLower(t.title), term)
    || (t.description.Some? && Strings.Contains(Strings.ToLower(t.description.value), term))
  }

  predicate Shown(t: Task, search: string, status: string, priority: string) {
    && MatchesSearch(t, search)
    && (status == "all" || t.status == status)
    && (priority == "all" || t.priority == priority)
  }

  /** The filter step: the shown tasks, in list order. */
  function FilterTasks(ts: seq<Task>, search: string, status: string, priority: string): (r: seq<Task>)
    ensures forall t :: t in r <==> t in ts && Shown(t, search, status, priority)
    ensures |r| <= |ts|
  {
    if ts == [] then []
    else
      assert forall t :: t in ts <==> t == ts[0] || t in ts[1..];
      (if Shown(ts[0], search, status, priority) then [ts[0]] else []) + FilterTasks(ts[1..], search, status, priority)
  }

  /** The empty search term with both selectors on "all" shows every task, in order. */
  lemma {:induction false} EmptySearchShowsAll(ts: seq<Task>)
    ensures FilterTasks(ts, "", "all", "all") == ts
  {
    if ts != [] {
      assert Strings.OccursAt(Strings.ToLower(ts[0].title), "", 0);
      assert Strings.ToLower("") == "";
      EmptySearchShowsAll(ts[1..]);
    }
  }

  /** `{ high: 3, medium: 2, low: 1 }[p]`; any other value ranks 0. */
  function Rank(p: string): (n: int)
    ensures p == "high" ==> n == 3
    ensures p == "medium" ==> n == 2
    ensures p == "low" ==> n == 1
    ensures p !in Priorities ==> n == 0
  {
    if p == "high" then 3 else if p == "medium" then 2 else if p == "low" then 1 else 0
  }

  /** `new Date(dueDate || 0)`: a missing due date is time 0. */
  function DueTime(d: Option<Date>): int {
    if d.Some? then d.value.millis else 0
  }

  /**
   * The comparator is the difference of two keys, `b`'s minus `a`'s for
   * "desc" and the other way round for any other order; this is the key
   * the ascending sort uses. An unknown `sortBy` gives every task key 0.
   */
  function Key(t: Task, sortBy: string, sortOrder: string): (k: int)
    ensures sortBy !in {"createdAt", "dueDate", "priority"} ==> k == 0
  {
    var k :=
      if sortBy == "createdAt" then t.createdAt
      else if sortBy == "dueDate" then DueTime(t.dueDate)
      else if sortBy == "priority" then Rank(t.priority)
      else 0;
    if sortOrder == "desc" then -k else k
  }

  predicate Before(a: Task, b: Task, sortBy: string, sortOrder: string) {
    Key(a, sortBy, sortOrder) <= Key(b, sortBy, sortOrder)
  }

  function Order(sortBy: string, sortOrder: string): (Task, Task) -> bool {
    (a: Task, b: Task) => Before(a, b, sortBy, sortOrder)
  }

  /** `Array.prototype.sort` with the comparator, which is stable. */
  function SortTasks(ts: seq<Task>, sortBy: string, sortOrder: string): (r: seq<Task>)
    ensures multiset(r) == multiset(ts)
    ensures Sorting.Sorted(r, Order(sortBy, sortOrder))
  {
    var r := Sorting.Sort(ts, Order(sortBy, sortOrder));
    Sorting.SortSorted(ts, Order(sortBy, sortOrder));
    r
  }

  /** `filteredTasks`: filter, then sort. */
  function VisibleTasks(ts: seq<Task>, search: string, status: string, priority: string, sortBy: string, sortOrder: string)
    : (r: seq<Task>)
    ensures forall t :: t in r <==> t in ts && Shown(t, search, status, priority)
    ensures |r| <= |ts|
    ensures Sorting.Sorted(r, Order(sortBy, sortOrder))
  {
    var shown := FilterTasks(ts, search, status, priority);
    var r := SortTasks(shown, sortBy, sortOrder);
    assert forall t :: t in r <==> t in multiset(shown);
    assert |r| == |multiset(r)| == |multiset(shown)| == |shown|;
    r
  }

  /** An unknown sort key keeps the filtered order. */
  lemma UnknownSortKeepsOrder(ts: seq<Task>, sortBy: string, sortOrder: string)
    requires sortBy !in {"createdAt", "dueDate", "priority"}
    ensures SortTasks(ts, sortBy, sortOrder) == ts
  {
    Sorting.SortAllTiesIdentity(ts, Order(sortBy, sortOrder));
  }

  /** By priority, descending: high, then medium, then low. */
  lemma PriorityDescendingRanks(r: seq<Task>, i: int, j: int)
    requires Sorting.Sorted(r, Order("priority", "desc")) && 0 <= i < j < |r|
    ensures Rank(r[i].priority) >= Rank(r[j].priority)
    ensures r[j].priority == "high" ==> r[i].priority == "high"
    ensures r[i].priority == "low" ==> r[j].priority !in {"high", "medium"}
  {
    assert Before(r[i], r[j], "priority", "desc");
  }

  /** [low, high, medium] sorted by priority, descending, is [high, medium, low]. */
  lemma PriorityDescendingExample(low: Task, high: Task, medium: Task)
    requires low.priority == "low" && high.priority == "high" && medium.priority == "medium"
    ensures SortTasks([low, high, medium], "priority", "desc") == [high, medium, low]
  {
    var le := Order("priority", "desc");
    assert Key(low, "priority", "desc") == -1 && Key(high, "priority", "desc") == -3;
    assert Key(medium, "priority", "desc") == -2;
    assert le(high, medium) && !le(low, high) && !le(low, medium);
    Sorting.SortThreeFirstLast(low, high, medium, le);
  }

  /** By creation time: newest first for "desc", oldest first otherwise. */
  lemma CreatedAtOrder(r: seq<Task>, sortOrder: string, i: int, j: int)
    requires Sorting.Sorted(r, Order("createdAt", sortOrder)) && 0 <= i < j < |r|
    ensures sortOrder == "desc" ==> r[i].createdAt >= r[j].createdAt
    ensures sortOrder != "desc" ==> r[i].createdAt <= r[j].createdAt
  {
    assert Before(r[i], r[j], "createdAt", sortOrder);
  }

  /**
   * By due date, with every due date after the epoch: undated tasks come
   * first ascending and last descending.
   */
  lemma UndatedPlacement(r: seq<Task>, sortOrder: string, i: int, j: int)
    requires Sorting.Sorted(r, Order("dueDate", sortOrder))
    requires 0 <= i < |r| && 0 <= j < |r|
    requires r[i].dueDate.None? && r[j].dueDate.Some? && r[j].dueDate.value.millis > 0
    ensures sortOrder == "desc" ==> j < i
    ensures sortOrder != "desc" ==> i < j
  {
    if i == j {
    } else if i < j {
      assert Before(r[i], r[j], "dueDate", sortOrder);
    } else {
      assert Before(r[j], r[i], "dueDate", sortOrder);
    }
  }

  /** The badge colours; anything outside the known values gets the gray default. */
  datatype Tone = Red | Yellow | Green | Blue | Gray

  function PriorityTone(p: string): (c: Tone)
    ensures c == Gray <==> p !in Priorities
    ensures p == "high" ==> c == Red
  {
    if p == "high" then Red else if p == "medium" then Yellow else if p == "low" then Green else Gray
  }

  function StatusTone(s: string): (c: Tone)
    ensures c == Gray <==> s !in Statuses
    ensures s == "completed" ==> c == Green
  {
    if s == "pending" then Yellow else if s == "in-progress" then Blue else if s == "completed" then Green else Gray
  }

  /** A task is overdue when it is not completed and its due date is before `now`. */
  function IsOverdue(dueDate: Option<Date>, status: string, now: int): (r: bool)
    ensures dueDate.None? || status == "completed" ==> !r
    ensures r <==> dueDate.Some? && status != "completed" && dueDate.value.millis < now
  {
    if dueDate.None? || status == "completed" then false else dueDate.value.millis < now
  }
}
