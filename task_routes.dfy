/**
 * The task routes: the body validation chains of create and update, and the
 * dispatch that runs the authentication guard before every task handler.
 * A chain trims title and description in the body it passes on, and reports
 * every failed rule, field by field in chain order.
 */
module TaskRoutes {
  import opened Options
  import opened TaskModel
  import Strings
  import AuthMiddleware
  import TasksController

  const MaxTitle: nat := 200
  const MaxDescription: nat := 1000

  /** A rule of a chain that a body can fail. */
  datatype Rule =
    | TitleRequired | TitleEmpty | TitleTooLong | DescriptionTooLong | BadStatus | BadPriority | BadDueDate
  {
    /** The error the validation result records for this rule. */
    function Error(): FieldError {
      match this
      case TitleRequired => FieldError("title", "Title is required")
      case TitleEmpty => FieldError("title", "Title cannot be empty")
      case TitleTooLong => FieldError("title", "Title cannot exceed 200 characters")
      case DescriptionTooLong => FieldError("description", "Description cannot exceed 1000 characters")
      case BadStatus => FieldError("status", "Invalid status")
      case BadPriority => FieldError("priority", "Invalid priority")
      case BadDueDate => FieldError("dueDate", "Due date must be a valid date")
    }
  }

  /** `validationResult(req).array()`: the failed rules' errors, in order. */
  function Report(rules: seq<Rule>): (r: seq<FieldError>)
    ensures |r| == |rules|
    ensures forall i :: 0 <= i < |rules| ==> r[i] == rules[i].Error()
  {
    seq(|rules|, i requires 0 <= i < |rules| => rules[i].Error())
  }

  /** Which chain: on create the title is required, on update it is optional. */
  datatype Chain = OnCreate | OnUpdate

  /** The sanitised body the handler sees: title and description trimmed, nothing else touched. */
  function Sanitize(b: Body): (r: Body)
    ensures r.title.Some? == b.title.Some? && r.description.Some? == b.description.Some?
    ensures b.title.Some? ==> r.title == Some(Strings.Trim(b.title.value))
    ensures b.description.Some? ==> r.description == Some(Strings.Trim(b.description.value))
    ensures r.status == b.status && r.priority == b.priority && r.dueDate == b.dueDate && r.userId == b.userId
  {
    b.(title := if b.title.Some? then Some(Strings.Trim(b.title.value)) else None,
       description := if b.description.Some? then Some(Strings.Trim(b.description.value)) else None)
  }

  /** Sanitising keeps the body's keys, so `Object.keys` of the body still lists them. */
  lemma SanitizeKeepsKeys(b: Body, keys: seq<Field>)
    requires IsKeyList(b, keys)
    ensures forall f :: Has(Sanitize(b), f) <==> Has(b, f)
    ensures IsKeyList(Sanitize(b), keys)
  {
    var r := Sanitize(b);
    forall f ensures Has(r, f) <==> Has(b, f) {
      match f {
        case Title =>
        case Description =>
        case Status =>
        case Priority =>
        case DueDate =>
        case Owner =>
      }
    }
  }

  predicate IsDigit(c: char) { '0' <= c <= '9' }

  /** The number a pair of digits spells. */
  function TwoDigits(a: char, b: char): (n: int)
    requires IsDigit(a) && IsDigit(b)
    ensures 0 <= n <= 99
  {
    10 * (a as int - '0' as int) + (b as int - '0' as int)
  }

  /**
   * A simplified ISO 8601 calendar date: `YYYY-MM-DD` with month 01-12 and
   * day 01-31, alone or followed by a time part introduced by `T`.
   */
  predicate IsIso8601(s: string) {
    && |s| >= 10
    && IsDigit(s[0]) && IsDigit(s[1]) && IsDigit(s[2]) && IsDigit(s[3]) && s[4] == '-'
    && IsDigit(s[5]) && IsDigit(s[6]) && s[7] == '-' && IsDigit(s[8]) && IsDigit(s[9])
    && 1 <= TwoDigits(s[5], s[6]) <= 12
    && 1 <= TwoDigits(s[8], s[9]) <= 31
    && (|s| == 10 || s[10] == 'T')
  }

  lemma Iso8601Examples()
    ensures IsIso8601("2024-05-10") && IsIso8601("2024-05-10T12:00:00Z")
    ensures !IsIso8601("2024-13-01") && !IsIso8601("10/05/2024") && !IsIso8601("")
  {
  }

  /** The title rules on the trimmed title: not empty, and at most 200 characters as the validator counts them. */
  function TitleRules(title: string, chain: Chain): (r: seq<Rule>)
    ensures (if chain == OnCreate then TitleRequired else TitleEmpty) in r <==> title == ""
    ensures TitleTooLong in r <==> Strings.ValidatorLength(title) > MaxTitle
    ensures forall e :: e in r ==> IsTitleRule(e)
    ensures chain == OnCreate ==> TitleEmpty !in r
    ensures chain == OnUpdate ==> TitleRequired !in r
  {
    (if title == "" then [if chain == OnCreate then TitleRequired else TitleEmpty] else [])
    + (if Strings.ValidatorLength(title) > MaxTitle then [TitleTooLong] else [])
  }

  /** One rule: failed exactly when `fails`. */
  function Check(fails: bool, rule: Rule): (r: seq<Rule>)
    ensures forall x :: x in r <==> fails && x == rule
  {
    if fails then [rule] else []
  }

  /**
   * Whether a body (as received, before trimming) fails a rule. A title
   * missing from a create body is checked as the empty text.
   */
  predicate Fails(b: Body, chain: Chain, rule: Rule) {
    match rule
    case TitleRequired => chain == OnCreate && Strings.Trim(b.title.GetOr("")) == ""
    case TitleEmpty => chain == OnUpdate && b.title.Some? && Strings.Trim(b.title.value) == ""
    case TitleTooLong =>
      (chain == OnCreate || b.title.Some?) && Strings.ValidatorLength(Strings.Trim(b.title.GetOr(""))) > MaxTitle
    case DescriptionTooLong =>
      b.description.Some? && Strings.ValidatorLength(Strings.Trim(b.description.value)) > MaxDescription
    case BadStatus => b.status.Some? && b.status.value !in Statuses
    case BadPriority => b.priority.Some? && b.priority.value !in Priorities
    case BadDueDate => b.dueDate.Some? && !IsIso8601(b.dueDate.value.text)
  }

  predicate IsTitleRule(x: Rule) {
    x.TitleRequired? || x.TitleEmpty? || x.TitleTooLong?
  }

  /** The title chain: skipped on update when the body has no title. */
  function TitlePart(b: Body, chain: Chain): (r: seq<Rule>)
    ensures forall x :: x in r <==> IsTitleRule(x) && Fails(b, chain, x)
  {
    if chain == OnCreate || b.title.Some? then
      var r := TitleRules(Strings.Trim(b.title.GetOr("")), chain);
      TitleRulesAreFails(b, chain, r);
      r
    else []
  }

  lemma TitleRulesAreFails(b: Body, chain: Chain, r: seq<Rule>)
    requires chain == OnCreate || b.title.Some?
    requires r == TitleRules(Strings.Trim(b.title.GetOr("")), chain)
    ensures forall x :: x in r <==> IsTitleRule(x) && Fails(b, chain, x)
  {
    forall x ensures x in r <==> IsTitleRule(x) && Fails(b, chain, x) {
      match x {
        case TitleRequired =>
        case TitleEmpty =>
        case TitleTooLong =>
        case _ =>
      }
    }
  }

  lemma PartsAreFails(b: Body, chain: Chain, title: seq<Rule>, description: seq<Rule>, status: seq<Rule>,
                      priority: seq<Rule>, dueDate: seq<Rule>)
    requires forall x :: x in title <==> IsTitleRule(x) && Fails(b, chain, x)
    requires forall x :: x in description <==> Fails(b, chain, x) && x == DescriptionTooLong
    requires forall x :: x in status <==> Fails(b, chain, x) && x == BadStatus
    requires forall x :: x in priority <==> Fails(b, chain, x) && x == BadPriority
    requires forall x :: x in dueDate <==> Fails(b, chain, x) && x == BadDueDate
    ensures forall x :: x in title + description + status + priority + dueDate <==> Fails(b, chain, x)
  {
    forall x ensures x in title + description + status + priority + dueDate <==> Fails(b, chain, x) {
      assert x in title + description + status + priority + dueDate <==>
        x in title || x in description || x in status || x in priority || x in dueDate;
      match x {
        case TitleRequired =>
        case TitleEmpty =>
        case TitleTooLong =>
        case DescriptionTooLong =>
        case BadStatus =>
        case BadPriority =>
        case BadDueDate =>
      }
    }
  }

  /** The rules a body fails, each once, in chain order: title, description, status, priority, due date. */
  function Failed(b: Body, chain: Chain): (r: seq<Rule>)
    ensures forall x :: x in r <==> Fails(b, chain, x)
  {
    var title := TitlePart(b, chain);
    var description := Check(Fails(b, chain, DescriptionTooLong), DescriptionTooLong);
    var status := Check(Fails(b, chain, BadStatus), BadStatus);
    var priority := Check(Fails(b, chain, BadPriority), BadPriority);
    var dueDate := Check(Fails(b, chain, BadDueDate), BadDueDate);
    var r := title + description + status + priority + dueDate;
    PartsAreFails(b, chain, title, description, status, priority, dueDate);
    r
  }

  /** The errors a chain leaves on the request. */
  function Errors(b: Body, chain: Chain): (r: seq<FieldError>)
    ensures r == [] <==> Failed(b, chain) == []
  {
    Report(Failed(b, chain))
  }

  /** The body a chain accepts, rule by rule. */
  predicate Acceptable(b: Body, chain: Chain) {
    && (chain == OnCreate || b.title.Some? ==>
          var t := Strings.Trim(b.title.GetOr(""));
          t != "" && Strings.ValidatorLength(t) <= MaxTitle)
    && (b.description.Some? ==> Strings.ValidatorLength(Strings.Trim(b.description.value)) <= MaxDescription)
    && (b.status.Some? ==> b.status.value in Statuses)
    && (b.priority.Some? ==> b.priority.value in Priorities)
    && (b.dueDate.Some? ==> IsIso8601(b.dueDate.value.text))
  }

  /** Acceptable is passing every rule. */
  lemma AcceptableIsPassingAll(b: Body, chain: Chain)
    ensures Acceptable(b, chain) <==> forall x :: !Fails(b, chain, x)
  {
    if forall x :: !Fails(b, chain, x) {
      assert !Fails(b, chain, TitleRequired) && !Fails(b, chain, TitleEmpty) && !Fails(b, chain, TitleTooLong);
      assert !Fails(b, chain, DescriptionTooLong) && !Fails(b, chain, BadStatus);
      assert !Fails(b, chain, BadPriority) && !Fails(b, chain, BadDueDate);
    }
  }

  /** A chain reports no error exactly when the body is acceptable. */
  lemma NoErrorsIffAcceptable(b: Body, chain: Chain)
    ensures Errors(b, chain) == [] <==> Acceptable(b, chain)
  {
    AcceptableIsPassingAll(b, chain);
    var r := Failed(b, chain);
    if r != [] {
      assert Fails(b, chain, r[0]);
    } else {
      forall x ensures !Fails(b, chain, x) {
        assert x !in r;
      }
    }
  }

  /** The title bound is inclusive: 200 characters pass, 201 do not. */
  lemma TitleBoundIsInclusive(title: string, chain: Chain)
    requires |title| >= 1 && !Strings.IsWhitespace(title[0]) && !Strings.IsWhitespace(title[|title| - 1])
    requires forall i :: 0 <= i < |title| ==> !Strings.IsVariationSelector(title[i])
    ensures |title| == 200 ==> TitleTooLong !in Failed(Body(Some(title), None, None, None, None, None), chain)
    ensures |title| == 201 ==> TitleTooLong in Failed(Body(Some(title), None, None, None, None, None), chain)
  {
    Strings.TrimNoSurroundingSpace(title);
    Strings.ValidatorLengthPlain(title);
  }

  /** A present but blank title is refused on update; an absent one is not checked. */
  lemma UpdateTitleIsOptional(b: Body)
    ensures b.title.None? ==> forall e :: e in Failed(b, OnUpdate) ==> e.Error().field != "title"
    ensures b.title == Some("   ") ==> TitleEmpty in Failed(b, OnUpdate)
  {
    var r := Failed(b, OnUpdate);
    if b.title.None? {
      forall e | e in r ensures e.Error().field != "title" {
        assert Fails(b, OnUpdate, e);
        assert !IsTitleRule(e);
      }
    }
    if b.title == Some("   ") {
      Strings.TrimEmptyIff("   ");
      assert Fails(b, OnUpdate, TitleEmpty);
    }
  }

  /** The task routes, each with its path parameters and query or body. */
  datatype Route =
    | List(query: TasksController.Query)
    | Get(id: Id)
    | Create(body: Body)
    | Update(id: Id, body: Body, keys: seq<Field>)
    | Delete(id: Id)
    | Filter(status: string)

  /** The answer to a request: the guard's refusal, or the handler's reply. */
  datatype Response = Refused(status: int, message: string) | Handled(reply: TasksController.Reply)

  /**
   * The handler a route reaches, called with the signed-in user's id and, for
   * create and update, the validation result of the route's chain.
   */
  method Dispatch(store: TasksController.TaskStore, caller: Id, route: Route, errors: seq<FieldError>, now: int, fault: bool)
    returns (reply: TasksController.Reply)
    requires store.Valid()
    requires route.Update? ==> IsKeyList(route.body, route.keys)
    modifies store
    ensures store.Valid()
    ensures !route.Update? ==> forall t :: t in reply.Disclosed() ==> t.userId == caller
    ensures (route.Create? || route.Update?) && errors != [] ==>
      reply == TasksController.Invalid(errors) && store.tasks == old(store.tasks)
    ensures route.List? || route.Get? || route.Filter? ==> store.tasks == old(store.tasks)
  {
    match route {
      case List(query) =>
        reply := store.GetAllTasks(caller, query, fault);
      case Get(id) =>
        reply := store.GetTaskById(caller, id, fault);
      case Create(body) =>
        reply := store.CreateTask(caller, Sanitize(body), errors, now, fault);
      case Update(id, body, keys) =>
        SanitizeKeepsKeys(body, keys);
        reply := store.UpdateTask(caller, id, Sanitize(body), keys, errors, fault);
      case Delete(id) =>
        reply := store.DeleteTask(caller, id, fault);
      case Filter(status) =>
        reply := store.FilterTask(caller, status, fault);
    }
  }

  /**
   * One request: the guard first; a refused request reaches no handler and
   * changes no task. Create and update see the validation result of their
   * chain and the sanitised body.
   */
  method Serve(store: TasksController.TaskStore, req: AuthMiddleware.Request, route: Route,
               verify: string -> AuthMiddleware.Verified, find: Id -> AuthMiddleware.Lookup,
               now: int, fault: bool)
    returns (r: Response)
    requires store.Valid()
    requires route.Update? ==> IsKeyList(route.body, route.keys)
    modifies store, req
    ensures store.Valid()
    ensures r.Refused? <==> AuthMiddleware.Decide(req.token, verify, find).Respond?
    ensures r.Refused? ==>
      && r == Refused(AuthMiddleware.Decide(req.token, verify, find).status, AuthMiddleware.Decide(req.token, verify, find).message)
      && store.tasks == old(store.tasks)
      && req.user == old(req.user)
    ensures r.Handled? ==> req.user == Some(AuthMiddleware.Decide(req.token, verify, find).user)
    ensures r.Handled? && !route.Update? ==>
      forall t :: t in r.reply.Disclosed() ==> t.userId == req.user.value.id
    ensures r.Handled? && (route.Create? || route.Update?) && Errors(route.body, if route.Create? then OnCreate else OnUpdate) != [] ==>
      r.reply == TasksController.Invalid(Errors(route.body, if route.Create? then OnCreate else OnUpdate))
      && store.tasks == old(store.tasks)
    ensures route.List? || route.Get? || route.Filter? ==> store.tasks == old(store.tasks)
  {
    var d := AuthMiddleware.AuthUser(req, verify, find);
    if d.Respond? {
      return Refused(d.status, d.message);
    }
    var caller := d.user.id;
    var errors := match route
      case Create(body) => Errors(body, OnCreate)
      case Update(_, body, _) => Errors(body, OnUpdate)
      case _ => [];
    var reply := Dispatch(store, caller, route, errors, now, fault);
    r := Handled(reply);
  }
}
