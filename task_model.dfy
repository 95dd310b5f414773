/**
 * The records the backend stores and the frontend holds: users, tasks, and
 * the task keys a request body (or a client-side payload) may carry. The
 * document schemas are not part of this model; the fields are the ones the
 * controllers, validators, slice and pages read and write.
 */
module TaskModel {
  import opened Options
  import Sequences

  /** Task and user identifiers (document ObjectIds), compared as text. */
  type Id = string

  /** A date: the instant in epoch milliseconds, and its text as received. */
  datatype Date = Date(millis: int, text: string)

  /** A credential record; `password` holds the stored hash. */
  datatype User = User(id: Id, username: string, email: string, password: string)

  datatype Task = Task(
    id: Id,
    userId: Id,
    title: string,
    description: Option<string>,
    status: string,
    priority: string,
    dueDate: Option<Date>,
    createdAt: int)

  const Statuses: seq<string> := ["pending", "in-progress", "completed"]
  const Priorities: seq<string> := ["low", "medium", "high"]
  const DefaultStatus: string := "pending"
  const DefaultPriority: string := "medium"

  /** A value JavaScript treats as true: present and not the empty string. */
  predicate Truthy(v: Option<string>) {
    v.Some? && v.value != ""
  }

  /** One entry of a validation result: the offending field and its message. */
  datatype FieldError = FieldError(field: string, message: string)

  /** The task keys of a request body; `None` is a key the body does not carry. */
  datatype Body = Body(
    title: Option<string>,
    description: Option<string>,
    status: Option<string>,
    priority: Option<string>,
    dueDate: Option<Date>,
    userId: Option<Id>)

  datatype Field = Title | Description | Status | Priority | DueDate | Owner

  /** A field's value, in one vocabulary for all fields. */
  datatype Value = Text(text: string) | OptText(optText: Option<string>) | OptDate(optDate: Option<Date>)

  predicate Has(b: Body, f: Field) {
    match f
    case Title => b.title.Some?
    case Description => b.description.Some?
    case Status => b.status.Some?
    case Priority => b.priority.Some?
    case DueDate => b.dueDate.Some?
    case Owner => b.userId.Some?
  }

  /** `task[key]`. */
  function Get(t: Task, f: Field): Value {
    match f
    case Title => Text(t.title)
    case Description => OptText(t.description)
    case Status => Text(t.status)
    case Priority => Text(t.priority)
    case DueDate => OptDate(t.dueDate)
    case Owner => Text(t.userId)
  }

  /** `body[key]` for a key the body carries. */
  function BodyValue(b: Body, f: Field): Value
    requires Has(b, f)
  {
    match f
    case Title => Text(b.title.value)
    case Description => OptText(b.description)
    case Status => Text(b.status.value)
    case Priority => Text(b.priority.value)
    case DueDate => OptDate(b.dueDate)
    case Owner => Text(b.userId.value)
  }

  /** `Object.keys(body)`: every key the body carries, each once, in any order. */
  predicate IsKeyList(b: Body, keys: seq<Field>) {
    && (forall f :: f in keys <==> Has(b, f))
    && (forall i, j :: 0 <= i < j < |keys| ==> keys[i] != keys[j])
  }

  /** `task[key] = body[key]`: one key assigned, nothing else touched. */
  function Assign(t: Task, b: Body, f: Field): (r: Task)
    requires Has(b, f)
    ensures Get(r, f) == BodyValue(b, f)
    ensures forall g :: g != f ==> Get(r, g) == Get(t, g)
    ensures r.id == t.id && r.createdAt == t.createdAt
  {
    match f
    case Title => t.(title := b.title.value)
    case Description => t.(description := b.description)
    case Status => t.(status := b.status.value)
    case Priority => t.(priority := b.priority.value)
    case DueDate => t.(dueDate := b.dueDate)
    case Owner => t.(userId := b.userId.value)
  }

  /** `{ ...t, ...b }`: the object spread of a body over a task. */
  function Merge(t: Task, b: Body): (r: Task)
    ensures forall f :: Get(r, f) == if Has(b, f) then BodyValue(b, f) else Get(t, f)
    ensures r.id == t.id && r.createdAt == t.createdAt
  {
    t.(title := b.title.GetOr(t.title),
       description := if b.description.Some? then b.description else t.description,
       status := b.status.GetOr(t.status),
       priority := b.priority.GetOr(t.priority),
       dueDate := if b.dueDate.Some? then b.dueDate else t.dueDate,
       userId := b.userId.GetOr(t.userId))
  }

  /** A task is determined by its identity, creation time and field values. */
  lemma FieldsDetermineTask(r: Task, t: Task)
    requires r.id == t.id && r.createdAt == t.createdAt
    requires forall f :: Get(r, f) == Get(t, f)
    ensures r == t
  {
    assert Get(r, Title) == Get(t, Title) && Get(r, Description) == Get(t, Description);
    assert Get(r, Status) == Get(t, Status) && Get(r, Priority) == Get(t, Priority);
    assert Get(r, DueDate) == Get(t, DueDate) && Get(r, Owner) == Get(t, Owner);
  }

  /** Every task has a distinct id. */
  ghost predicate UniqueIds(ts: seq<Task>) {
    forall i, j :: 0 <= i < j < |ts| ==> ts[i].id != ts[j].id
  }

  function MaxLength(ids: seq<Id>): (n: nat)
    ensures forall i :: 0 <= i < |ids| ==> |ids[i]| <= n
  {
    if ids == [] then 0
    else
      var m := MaxLength(ids[1..]);
      assert forall i :: 1 <= i < |ids| ==> ids[i] == ids[1..][i - 1];
      if |ids[0]| > m then |ids[0]| else m
  }

  /** An identifier none of `ids` uses (the store's id generation, abstracted). */
  function FreshId(ids: seq<Id>): (id: Id)
    ensures id !in ids && id != ""
  {
    var n := MaxLength(ids);
    seq(n + 1, _ => 'x')
  }

  function TaskIds(ts: seq<Task>): (ids: seq<Id>)
    ensures |ids| == |ts| && forall i :: 0 <= i < |ts| ==> ids[i] == ts[i].id
  {
    Sequences.Project(ts, (t: Task) => t.id)
  }
}
