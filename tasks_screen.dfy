/**
 * The task list screen (app/tasks.tsx): priority colours, and the routing
 * between the form and the task store.  The screen mounts one TaskForm with
 * no `initialValues`; pressing a task only sets `editingTask`, which shows
 * the form and makes its submit go to `handleUpdateTask`.
 */
module TasksScreen {
  import opened Optional
  import opened JsText
  import opened TaskContext
  import opened TaskFormComponent

  /** `getPriorityColor` */
  function PriorityColor(priority: IntOrNaN): string {
    match priority
    case Num(5) => "#ef4444"
    case Num(4) => "#f97316"
    case Num(3) => "#eab308"
    case Num(2) => "#22c55e"
    case _ => "#3b82f6"
  }

  /** Each of 5, 4, 3, 2 has its own colour, and every other priority (1, 0, negatives, NaN) gets blue. */
  lemma PriorityColorCases(priority: IntOrNaN)
    ensures PriorityColor(priority) == "#ef4444" <==> priority == Num(5)
    ensures PriorityColor(priority) == "#f97316" <==> priority == Num(4)
    ensures PriorityColor(priority) == "#eab308" <==> priority == Num(3)
    ensures PriorityColor(priority) == "#22c55e" <==> priority == Num(2)
    ensures PriorityColor(priority) == "#3b82f6" <==> !(priority.Num? && 2 <= priority.value <= 5)
  {
  }

  /** The screen's own state. */
  datatype ScreenState = ScreenState(showTaskForm: bool, editingTask: Option<Task>)

  /** `visible={showTaskForm || !!editingTask}` */
  predicate FormVisible(s: ScreenState) {
    s.showTaskForm || s.editingTask.Some?
  }

  /** The form's `onClose`. */
  function Closed(s: ScreenState): ScreenState {
    ScreenState(false, None)
  }

  /** The task list after `onSubmit(record)`: update when a task is being edited, add otherwise. */
  function Routed(editingTask: Option<Task>, tasks: seq<Task>, record: TaskDraft, freshId: string): seq<Task> {
    if editingTask.Some? then Updated(tasks, IdLess(record)) else Added(tasks, record, freshId)
  }

  /** Closing hides the form, whatever opened it. */
  lemma CloseHidesForm(s: ScreenState)
    ensures !FormVisible(Closed(s)) && Closed(s).editingTask.None? && !Closed(s).showTaskForm
  {
  }

  /** On the edit path the form's record has no id, so no task is changed. */
  lemma EditRouteChangesNothing(t: Task, tasks: seq<Task>, record: TaskDraft, freshId: string)
    ensures Routed(Some(t), tasks, record, freshId) == tasks
  {
    UpdateIdLessIsNoop(tasks, record);
  }

  /** On the add path the record is appended with the fresh id. */
  lemma AddRouteAppends(tasks: seq<Task>, record: TaskDraft, freshId: string)
    ensures var r := Routed(None, tasks, record, freshId);
      |r| == |tasks| + 1 && r[..|tasks|] == tasks && r[|tasks|] == WithId(record, freshId)
  {
  }

  /**
   * Submitting the form while editing, whatever the fields hold, leaves the
   * task list as it was.
   */
  lemma EditingSubmitChangesNothing(f: Fields, t: Task, tasks: seq<Task>, now: string, freshId: string)
    ensures var (_, sent) := AfterSubmit(f, Some(t), now);
      sent.Some? ==> Routed(Some(t), tasks, sent.value, freshId) == tasks
  {
    var (_, sent) := AfterSubmit(f, Some(t), now);
    if sent.Some? {
      EditRouteChangesNothing(t, tasks, sent.value, freshId);
    }
  }

  /** The task screen: its two state hooks, the store from the context, and its one TaskForm. */
  class TasksScreen {
    var showTaskForm: bool
    var editingTask: Option<Task>
    const store: TaskStore
    const form: TaskForm

    function State(): ScreenState
      reads this
    {
      ScreenState(showTaskForm, editingTask)
    }

    /** Mounting the screen; the form mounts with it, while `editingTask` is null. */
    constructor (store: TaskStore, now: string)
      ensures this.store == store && fresh(form)
      ensures State() == ScreenState(false, None)
      ensures form.FieldsOf() == InitialFields(None, now)
    {
      this.store := store;
      showTaskForm := false;
      editingTask := None;
      form := new TaskForm(None, now);
    }

    /** The header's "+" button. */
    method PressAdd()
      modifies this
      ensures State() == old(State()).(showTaskForm := true)
      ensures FormVisible(State())
    {
      showTaskForm := true;
    }

    /** Pressing a task: it becomes the task being edited. */
    method PressTask(item: Task)
      modifies this
      ensures State() == old(State()).(editingTask := Some(item))
      ensures FormVisible(State())
    {
      editingTask := Some(item);
    }

    /** Long-pressing a task toggles its completion. */
    method LongPressTask(id: string)
      modifies store
      ensures store.tasks == ToggledComplete(old(store.tasks), id) && store.stored == Some(store.tasks)
    {
      store.ToggleTaskComplete(id);
    }

    /** `handleDeleteTask` once the user confirms the alert. */
    method ConfirmDelete(id: string)
      modifies store
      ensures store.tasks == Removed(old(store.tasks), id) && store.stored == Some(store.tasks)
    {
      store.DeleteTask(id);
    }

    /** The form's `onClose` (its Cancel button, and the end of a submit). */
    method CloseForm()
      modifies this
      ensures State() == Closed(old(State()))
      ensures !FormVisible(State())
    {
      showTaskForm := false;
      editingTask := None;
    }

    /**
     * Pressing the form's submit button: `handleSubmit` with
     * `onSubmit = editingTask ? handleUpdateTask : handleAddTask`, then `onClose`.
     */
    method SubmitForm(freshId: string, now: string)
      requires FormVisible(State())
      modifies this, store, form
      ensures var (fields, sent) := AfterSubmit(old(form.FieldsOf()), old(editingTask), now);
        form.FieldsOf() == fields
        && (sent.None? ==> State() == old(State()) && store.tasks == old(store.tasks)
                           && store.stored == old(store.stored))
        && (sent.Some? ==> State() == Closed(old(State()))
                           && store.tasks == Routed(old(editingTask), old(store.tasks), sent.value, freshId)
                           && store.stored == Some(store.tasks))
    {
      var submitted := form.HandleSubmit(editingTask, now);
      if submitted.Some? {
        if editingTask.Some? {
          // handleUpdateTask
          store.UpdateTask(IdLess(submitted.value));
          editingTask := None;
        } else {
          // handleAddTask
          store.AddTask(submitted.value, freshId);
        }
        CloseForm();
      }
    }
  }
}
