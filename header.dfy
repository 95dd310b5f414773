/**
 * The header's task statistics and notification badge. `tasks` may be
 * undefined before the list has loaded.
 */
module Header {
  import opened Options
  import opened TaskModel
  import Sequences

  /** `tasks.filter(task => task.status === status).length`. */
  function CountStatus(ts: seq<Task>, status: string): (n: nat)
    ensures n <= |ts|
    ensures n == |ts| <==> forall i :: 0 <= i < |ts| ==> ts[i].status == status
    ensures n == 0 <==> forall i :: 0 <= i < |ts| ==> ts[i].status != status
  {
    if ts == [] then 0
    else
      var rest := CountStatus(ts[1..], status);
      assert forall i :: 1 <= i < |ts| ==> ts[i] == ts[1..][i - 1];
      (if ts[0].status == status then 1 else 0) + rest
  }

  /** The count is how often `status` occurs among the tasks' statuses. */
  lemma {:induction false} CountStatusIsMultiplicity(ts: seq<Task>, status: string)
    ensures CountStatus(ts, status) == multiset(Sequences.Project(ts, (t: Task) => t.status))[status]
  {
    if ts != [] {
      var f := (t: Task) => t.status;
      Sequences.ProjectCons(ts, f);
      CountStatusIsMultiplicity(ts[1..], status);
      assert multiset(Sequences.Project(ts, f)) == multiset{ts[0].status} + multiset(Sequences.Project(ts[1..], f));
    }
  }

  /** Tasks with one status are not counted under another: the three counts together are at most the total. */
  lemma {:induction false} CountsWithinTotal(ts: seq<Task>)
    ensures CountStatus(ts, "pending") + CountStatus(ts, "completed") + CountStatus(ts, "in-progress") <= |ts|
  {
    if ts != [] {
      CountsWithinTotal(ts[1..]);
    }
  }

  /** The header's numbers. */
  datatype Stats = Stats(pending: nat, completed: nat, inProgress: nat, total: nat, completionRate: int)

  /**
   * `Math.round(completed / total * 100)` in exact arithmetic: the nearest
   * integer to the percentage, halves rounded up.
   */
  function RoundedPercent(part: nat, whole: nat): (r: int)
    requires 0 < whole && part <= whole
    ensures 0 <= r <= 100
    ensures part == whole ==> r == 100
    ensures part == 0 ==> r == 0
    ensures 2 * whole * r <= 200 * part + whole < 2 * whole * (r + 1)
  {
    RoundingFacts(part, whole);
    (200 * part + whole) / (2 * whole)
  }

  lemma RoundingFacts(part: nat, whole: nat)
    requires 0 < whole && part <= whole
    ensures var r := (200 * part + whole) / (2 * whole);
      && 0 <= r <= 100
      && (part == whole ==> r == 100)
      && (part == 0 ==> r == 0)
      && 2 * whole * r <= 200 * part + whole < 2 * whole * (r + 1)
  {
    var n := 200 * part + whole;
    var d := 2 * whole;
    var q := n / d;
    assert n == d * q + n % d && 0 <= n % d < d;
    if q > 100 {
      MulMonotone(d, 101, q);
    }
    if q < 0 {
      MulMonotone(d, q, -1);
    }
    if part == whole {
      assert n == d * 100 + whole;
      DivUnique(n, d, 100);
    }
    if part == 0 {
      DivUnique(n, d, 0);
    }
  }

  /** Multiplying by a positive factor keeps order. */
  lemma MulMonotone(d: int, a: int, b: int)
    requires d > 0 && a <= b
    ensures d * a <= d * b
  {
    assert d * b - d * a == d * (b - a);
  }

  lemma DivUnique(n: int, d: int, q: int)
    requires d > 0 && d * q <= n < d * q + d
    ensures n / d == q
  {
    var k := n / d;
    assert n == d * k + n % d;
    if k > q {
      MulMonotone(d, q + 1, k);
    } else if k < q {
      MulMonotone(d, k + 1, q);
    }
  }

  function TaskStats(tasks: Option<seq<Task>>): (s: Stats)
    ensures tasks.None? || tasks.value == [] ==> s == Stats(0, 0, 0, 0, 0)
    ensures s.pending + s.completed + s.inProgress <= s.total
    ensures 0 <= s.completionRate <= 100
    ensures tasks.Some? && tasks.value != [] && s.completed == s.total ==> s.completionRate == 100
    ensures tasks.Some? ==> s.total == |tasks.value| && s.completed == CountStatus(tasks.value, "completed")
    ensures tasks.Some? ==>
      s.pending == CountStatus(tasks.value, "pending") && s.inProgress == CountStatus(tasks.value, "in-progress")
    ensures tasks.Some? && tasks.value != [] ==> s.completionRate == RoundedPercent(s.completed, s.total)
  {
    if tasks.None? then Stats(0, 0, 0, 0, 0)
    else
      var ts := tasks.value;
      var completed := CountStatus(ts, "completed");
      CountsWithinTotal(ts);
      Stats(
        CountStatus(ts, "pending"), completed, CountStatus(ts, "in-progress"), |ts|,
        if |ts| > 0 then RoundedPercent(completed, |ts|) else 0)
  }

  datatype Notification = Notification(id: nat, title: string, read: bool)

  /** The fixed notification list. */
  const Notifications: seq<Notification> := [
    Notification(1, "Task Completed", false),
    Notification(2, "Due Tomorrow", false),
    Notification(3, "Team Update", true)
  ]

  function Unread(ns: seq<Notification>): (n: nat)
    ensures n <= |ns|
    ensures n == 0 <==> forall i :: 0 <= i < |ns| ==> ns[i].read
  {
    if ns == [] then 0
    else
      var rest := Unread(ns[1..]);
      assert forall i :: 1 <= i < |ns| ==> ns[i] == ns[1..][i - 1];
      (if !ns[0].read then 1 else 0) + rest
  }

  /** The badge counts the unread flags: how often `false` occurs among the `read` fields. */
  lemma {:induction false} UnreadIsMultiplicity(ns: seq<Notification>)
    ensures Unread(ns) == multiset(Sequences.Project(ns, (n: Notification) => n.read))[false]
  {
    if ns != [] {
      var f := (n: Notification) => n.read;
      Sequences.ProjectCons(ns, f);
      UnreadIsMultiplicity(ns[1..]);
      assert multiset(Sequences.Project(ns, f)) == multiset{ns[0].read} + multiset(Sequences.Project(ns[1..], f));
    }
  }

  lemma UnreadBadge()
    ensures Unread(Notifications) == 2
  {
    assert Notifications[1..][1..][1..] == [];
  }
}
