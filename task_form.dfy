/**
 * The task form modal (app/components/TaskForm.tsx).  Its `useState`
 * initialisers run once, when the component mounts; `handleSubmit` guards
 * on the title, builds the submitted record, resets the fields and closes.
 */
module TaskFormComponent {
  import opened Optional
  import opened JsText
  import opened TaskContext

  /** The form's editable state.  `dueDate` is the picked date as ISO text. */
  datatype Fields = Fields(title: string, description: string, priority: string, dueDate: string)

  /** The priority buttons P1 to P5. */
  const PriorityOptions: seq<int> := [1, 2, 3, 4, 5]

  /** The `useState` initialisers: the values of `initialValues`, else "", "", "3" and today. */
  function InitialFields(initialValues: Option<Task>, now: string): Fields {
    match initialValues
    case None => Fields("", "", "3", now)
    case Some(t) =>
      Fields(t.title,
             if t.description.Some? then t.description.value else "",
             NumberToString(t.priority),
             if t.dueDate != "" then t.dueDate else now)
  }

  /** The fields as `handleSubmit` leaves them: "", "", "3" and today. */
  function ResetFields(now: string): Fields {
    Fields("", "", "3", now)
  }

  /** The record passed to `onSubmit`: trimmed texts, parsed priority, no id. */
  function Submission(f: Fields, initialValues: Option<Task>): TaskDraft {
    TaskDraft(Trim(f.title), Some(Trim(f.description)), ParseInt(f.priority), f.dueDate,
              initialValues.Some? && initialValues.value.completed)
  }

  /** `handleSubmit`: the fields afterwards, and the record submitted (None: the guard returned early). */
  function AfterSubmit(f: Fields, initialValues: Option<Task>, now: string): (Fields, Option<TaskDraft>) {
    if Trim(f.title) == [] then (f, None)
    else (ResetFields(now), Some(Submission(f, initialValues)))
  }

  /** The priority text one of the five buttons sets. */
  predicate PriorityFromButton(priority: string) {
    exists k :: 1 <= k <= 5 && priority == IntToString(k)
  }

  /** Without initial values the form opens empty with priority "3". */
  lemma NewFormDefaults(now: string)
    ensures InitialFields(None, now) == Fields("", "", "3", now)
    ensures PriorityFromButton(InitialFields(None, now).priority)
  {
    assert IntToString(3) == "3";
  }

  /** A form opened on a task shows its title and description, and its priority text reads back as the task's priority. */
  lemma FormOnTaskShowsTask(t: Task, now: string)
    ensures var f := InitialFields(Some(t), now);
      f.title == t.title
      && (t.description.Some? ==> f.description == t.description.value)
      && (t.description.None? ==> f.description == "")
      && ParseInt(f.priority) == t.priority
  {
    NumberToStringReadsBack(t.priority);
  }

  /** Submitting with a blank title does nothing: no record, fields unchanged. */
  lemma SubmitBlankTitleIsNoop(f: Fields, initialValues: Option<Task>, now: string)
    requires IsBlank(f.title)
    ensures AfterSubmit(f, initialValues, now) == (f, None)
  {
    TrimEmptyIffBlank(f.title);
  }

  /**
   * A title with a non-blank character is submitted: the record carries the
   * trimmed title (non-empty, no surrounding whitespace) and trimmed
   * description, the initial task's `completed` (false when creating), and
   * the fields are reset.
   */
  lemma SubmitSendsTrimmedRecord(f: Fields, initialValues: Option<Task>, now: string)
    requires !IsBlank(f.title)
    ensures var (after, sent) := AfterSubmit(f, initialValues, now);
      after == Fields("", "", "3", now) && sent.Some?
      && sent.value.title == Trim(f.title) && sent.value.title != []
      && !IsWhitespace(sent.value.title[0]) && !IsWhitespace(sent.value.title[|sent.value.title| - 1])
      && sent.value.description == Some(Trim(f.description))
      && sent.value.completed == (initialValues.Some? && initialValues.value.completed)
  {
    TrimEmptyIffBlank(f.title);
    TrimIsCanonical(f.title);
  }

  /** A priority set by the default or a priority button is submitted as a number in 1..5. */
  lemma SubmitPriorityInRange(f: Fields, initialValues: Option<Task>)
    requires PriorityFromButton(f.priority)
    ensures var p := Submission(f, initialValues).priority; p.Num? && 1 <= p.value <= 5
  {
    var k :| 1 <= k <= 5 && f.priority == IntToString(k);
    IntToStringReadsBack(k);
  }

  /** The form component's state. */
  class TaskForm {
    var title: string
    var description: string
    var priority: string
    var dueDate: string

    function FieldsOf(): Fields
      reads this
    {
      Fields(title, description, priority, dueDate)
    }

    /** Mounting the component with the given `initialValues`. */
    constructor (initialValues: Option<Task>, now: string)
      ensures FieldsOf() == InitialFields(initialValues, now)
    {
      title := if initialValues.Some? then initialValues.value.title else "";
      description := if initialValues.Some? && initialValues.value.description.Some?
                     then initialValues.value.description.value else "";
      priority := if initialValues.Some? then NumberToString(initialValues.value.priority) else "3";
      dueDate := if initialValues.Some? && initialValues.value.dueDate != "" then initialValues.value.dueDate else now;
    }

    /** The title field's `onChangeText`. */
    method SetTitle(text: string)
      modifies this
      ensures FieldsOf() == old(FieldsOf()).(title := text)
    {
      title := text;
    }

    /** The description field's `onChangeText`. */
    method SetDescription(text: string)
      modifies this
      ensures FieldsOf() == old(FieldsOf()).(description := text)
    {
      description := text;
    }

    /** Pressing priority button P`option`. */
    method SelectPriority(option: int)
      requires option in PriorityOptions
      modifies this
      ensures FieldsOf() == old(FieldsOf()).(priority := IntToString(option))
      ensures PriorityFromButton(priority)
    {
      priority := IntToString(option);
    }

    /** The date picker reporting a selected date. */
    method SetDueDate(date: string)
      modifies this
      ensures FieldsOf() == old(FieldsOf()).(dueDate := date)
    {
      dueDate := date;
    }

    /** `handleSubmit`, with the `initialValues` prop as the parent passes it now; `submitted` is what `onSubmit` received. */
    method HandleSubmit(initialValues: Option<Task>, now: string) returns (submitted: Option<TaskDraft>)
      modifies this
      ensures (FieldsOf(), submitted) == AfterSubmit(old(FieldsOf()), initialValues, now)
    {
      if Trim(title) == [] {
        return None;
      }
      submitted := Some(TaskDraft(Trim(title), Some(Trim(description)), ParseInt(priority), dueDate,
                                  initialValues.Some? && initialValues.value.completed));
      title := "";
      description := "";
      priority := "3";
      dueDate := now;
    }
  }
}
