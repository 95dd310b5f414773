/**
 * The create/edit task form: its field values, the per-field error messages
 * it shows, and the submit guard. Lengths are JavaScript string lengths;
 * `onSubmit` is the caller's, so submitting returns the data handed to it.
 */
module TaskForm {
  import opened Options
  import opened TaskModel
  import Strings

  datatype FormData = FormData(title: string, description: string, status: string, priority: string, dueDate: string)

  /** The inputs of the form, by their `name`. */
  datatype Input = TitleInput | DescriptionInput | StatusInput | PriorityInput | DueDateInput
  {
    function Name(): string {
      match this
      case TitleInput => "title"
      case DescriptionInput => "description"
      case StatusInput => "status"
      case PriorityInput => "priority"
      case DueDateInput => "dueDate"
    }
  }

  const EmptyForm := FormData("", "", "pending", "medium", "")

  const TitleRequired := "Title is required"
  const TitleTooLong := "Title must be less than 200 characters"
  const DescriptionTooLong := "Description must be less than 1000 characters"

  /** `s.split("T")[0]`: the text before the first `T`. */
  function BeforeT(s: string): (r: string)
    ensures |r| <= |s| && r == s[..|r|]
    ensures 'T' !in r
    ensures |r| < |s| ==> s[|r|] == 'T'
  {
    if s == [] || s[0] == 'T' then []
    else
      var rest := BeforeT(s[1..]);
      assert s[1..][..|rest|] == s[1..|rest| + 1];
      [s[0]] + rest
  }

  /** A date-time's date part is kept whole: `2024-05-10T12:00Z` prefills as `2024-05-10`. */
  lemma {:induction false} BeforeTOfDateTime(date: string, time: string)
    requires 'T' !in date
    ensures BeforeT(date + "T" + time) == date
  {
    var s := date + "T" + time;
    if date != [] {
      assert s[0] == date[0] && s[1..] == date[1..] + "T" + time;
      assert 'T' !in date[1..] by {
        assert forall c :: c in date[1..] ==> c in date;
      }
      BeforeTOfDateTime(date[1..], time);
      assert date == [date[0]] + date[1..];
    }
  }

  /** The form prefilled from a task, each missing or empty field at its default. */
  function FromTask(t: Task): (f: FormData)
    ensures f.title == t.title
    ensures f.description == (if t.description.Some? then t.description.value else "")
    ensures f.status == (if t.status == "" then "pending" else t.status)
    ensures f.priority == (if t.priority == "" then "medium" else t.priority)
    ensures t.dueDate.None? || t.dueDate.value.text == "" ==> f.dueDate == ""
    ensures t.dueDate.Some? && t.dueDate.value.text != "" ==>
      && f.dueDate == BeforeT(t.dueDate.value.text)
      && 'T' !in f.dueDate && Strings.IsPrefix(f.dueDate, t.dueDate.value.text)
  {
    FormData(
      t.title,
      t.description.GetOr(""),
      if t.status == "" then "pending" else t.status,
      if t.priority == "" then "medium" else t.priority,
      if t.dueDate.Some? && t.dueDate.value.text != "" then BeforeT(t.dueDate.value.text) else "")
  }

  /** The title message, if any: blank after trimming, or over 200 before trimming. */
  function TitleProblem(title: string): (m: Option<string>)
    ensures m == Some(TitleRequired) <==> Strings.Trim(title) == ""
    ensures m == Some(TitleTooLong) <==> Strings.Trim(title) != "" && Strings.Utf16Length(title) > 200
    ensures m.None? <==> Strings.Trim(title) != "" && Strings.Utf16Length(title) <= 200
  {
    if Strings.Trim(title) == "" then Some(TitleRequired)
    else if Strings.Utf16Length(title) > 200 then Some(TitleTooLong)
    else None
  }

  predicate DescriptionTooLongIn(f: FormData) {
    f.description != "" && Strings.Utf16Length(f.description) > 1000
  }

  /** The `errors` object of the form: a title message if any, and the description message when it is too long. */
  function ErrorMap(title: Option<string>, description: bool): (m: map<string, string>)
    ensures "title" in m <==> title.Some?
    ensures title.Some? ==> m["title"] == title.value
    ensures "description" in m <==> description
    ensures description ==> m["description"] == DescriptionTooLong
    ensures m.Keys <= {"title", "description"}
    ensures |m| == 0 <==> title.None? && !description
  {
    var t := if title.Some? then map["title" := title.value] else map[];
    var m := if description then t["description" := DescriptionTooLong] else t;
    assert |m| == 0 <==> m == map[] by {
      if |m| != 0 { assert m != map[]; }
    }
    m
  }

  /** The form passes validation. */
  predicate Valid(f: FormData) {
    TitleProblem(f.title).None? && !DescriptionTooLongIn(f)
  }

  /** 200 characters (each one UTF-16 unit) are accepted, 201 are not; the check counts the untrimmed title. */
  lemma TitleBound(f: FormData)
    requires |f.title| >= 1 && !Strings.IsWhitespace(f.title[0])
    requires forall i :: 0 <= i < |f.title| ==> f.title[i] as int < 0x1_0000
    ensures |f.title| == 200 ==> TitleProblem(f.title).None?
    ensures |f.title| == 201 ==> TitleProblem(f.title) == Some(TitleTooLong)
  {
    Strings.Utf16LengthBmp(f.title);
    Strings.TrimEmptyIff(f.title);
  }

  /** An empty description is accepted. */
  lemma EmptyDescriptionAccepted(f: FormData)
    requires f.description == ""
    ensures Valid(f) <==> TitleProblem(f.title).None?
  {
  }

  class Form {
    var data: FormData
    /** The error shown under each input, by input name; "" shows nothing. */
    var errors: map<string, string>
    var submitting: bool

    constructor ()
      ensures data == EmptyForm && errors == map[] && !submitting
    {
      data := EmptyForm;
      errors := map[];
      submitting := false;
    }

    /** The effect that runs when the edited task changes. */
    method Prefill(task: Option<Task>)
      modifies this
      ensures data == if task.Some? then FromTask(task.value) else old(data)
      ensures errors == old(errors) && submitting == old(submitting)
    {
      if task.Some? {
        data := FromTask(task.value);
      }
    }

    /** One input changed: that field takes the value and that field's error, if shown, is cleared. */
    method HandleChange(input: Input, value: string)
      modifies this
      ensures data == match input
        case TitleInput => old(data).(title := value)
        case DescriptionInput => old(data).(description := value)
        case StatusInput => old(data).(status := value)
        case PriorityInput => old(data).(priority := value)
        case DueDateInput => old(data).(dueDate := value)
      ensures errors == if input.Name() in old(errors) && old(errors)[input.Name()] != "" then old(errors)[input.Name() := ""] else old(errors)
      ensures forall k :: k in old(errors) && k != input.Name() ==> k in errors && errors[k] == old(errors)[k]
      ensures submitting == old(submitting)
    {
      match input {
        case TitleInput => data := data.(title := value);
        case DescriptionInput => data := data.(description := value);
        case StatusInput => data := data.(status := value);
        case PriorityInput => data := data.(priority := value);
        case DueDateInput => data := data.(dueDate := value);
      }
      var name := input.Name();
      if name in errors && errors[name] != "" {
        errors := errors[name := ""];
      }
    }

    /** `validate`: records exactly the failed checks, and succeeds when it records none. */
    method Validate() returns (ok: bool)
      modifies this
      ensures errors == ErrorMap(TitleProblem(data.title), DescriptionTooLongIn(data))
      ensures ok <==> Valid(data)
      ensures data == old(data) && submitting == old(submitting)
    {
      var title: Option<string> := None;
      if Strings.Trim(data.title) == "" {
        title := Some(TitleRequired);
      } else if Strings.Utf16Length(data.title) > 200 {
        title := Some(TitleTooLong);
      }
      assert title == TitleProblem(data.title);
      var description := data.description != "" && Strings.Utf16Length(data.description) > 1000;
      errors := ErrorMap(title, description);
      ok := |errors| == 0;
      assert ok <==> title.None? && !description;
      assert description == DescriptionTooLongIn(data);
    }

    /**
     * `handleSubmit`: validation shows its errors; the form data goes to
     * `onSubmit` only when it validates, with the form marked as submitting
     * for the call and not submitting once it settles, however it settles.
     */
    method HandleSubmit() returns (submitted: Option<FormData>)
      modifies this
      ensures errors == ErrorMap(TitleProblem(old(data).title), DescriptionTooLongIn(old(data)))
      ensures submitted.Some? <==> Valid(old(data))
      ensures submitted.Some? ==> submitted.value == old(data) && !submitting
      ensures submitted.None? ==> submitting == old(submitting)
      ensures data == old(data)
    {
      var ok := Validate();
      if !ok {
        return None;
      }
      submitting := true;
      submitted := Some(data);
      submitting := false;
    }
  }
}
