/**
 * The task store shared by the screens (app/context/TaskContext.tsx).  Each
 * operation builds a new list with spread, `map` or `filter`, makes it the
 * provider's `tasks` state and writes it to storage; the written blob is the
 * ghost field `stored`.
 */
module TaskContext {
  import opened Optional
  import opened JsText

  /** A task.  `priority` is a JavaScript number produced by `parseInt`, so it may be NaN. */
  datatype Task = Task(id: string, title: string, description: Option<string>,
                       priority: IntOrNaN, dueDate: string, completed: bool)

  /** `Omit<Task, 'id'>`: what `addTask` receives and what the task form submits. */
  datatype TaskDraft = TaskDraft(title: string, description: Option<string>,
                                 priority: IntOrNaN, dueDate: string, completed: bool)

  /** What reaches `updateTask`: a whole task, or a record without an `id` property. */
  datatype UpdateArg = Full(task: Task) | IdLess(draft: TaskDraft)

  /** `{ ...task, id }` */
  function WithId(d: TaskDraft, id: string): Task {
    Task(id, d.title, d.description, d.priority, d.dueDate, d.completed)
  }

  /** `[...tasks, { ...task, id }]` */
  function Added(tasks: seq<Task>, d: TaskDraft, id: string): seq<Task> {
    tasks + [WithId(d, id)]
  }

  /** `t.id === arg.id`: an absent id is `undefined`, which equals no stored (string) id. */
  predicate Matches(t: Task, arg: UpdateArg) {
    arg.Full? && t.id == arg.task.id
  }

  /** `tasks.map(t => t.id === task.id ? task : t)` */
  function Updated(tasks: seq<Task>, arg: UpdateArg): (r: seq<Task>)
    ensures |r| == |tasks|
    ensures forall i :: 0 <= i < |tasks| ==>
      r[i] == if Matches(tasks[i], arg) then arg.task else tasks[i]
  {
    if tasks == [] then []
    else [if Matches(tasks[0], arg) then arg.task else tasks[0]] + Updated(tasks[1..], arg)
  }

  /** `tasks.filter(task => task.id !== id)` */
  function Removed(tasks: seq<Task>, id: string): (r: seq<Task>)
    ensures |r| <= |tasks|
    ensures forall j :: 0 <= j < |r| ==> r[j].id != id
  {
    if tasks == [] then []
    else (if tasks[0].id == id then [] else [tasks[0]]) + Removed(tasks[1..], id)
  }

  /** `tasks.map(task => task.id === id ? { ...task, completed: !task.completed } : task)` */
  function ToggledComplete(tasks: seq<Task>, id: string): (r: seq<Task>)
    ensures |r| == |tasks|
    ensures forall i :: 0 <= i < |tasks| ==>
      r[i] == if tasks[i].id == id then tasks[i].(completed := !tasks[i].completed) else tasks[i]
  {
    if tasks == [] then []
    else [if tasks[0].id == id then tasks[0].(completed := !tasks[0].completed) else tasks[0]]
         + ToggledComplete(tasks[1..], id)
  }

  predicate HasId(tasks: seq<Task>, id: string) {
    exists i :: 0 <= i < |tasks| && tasks[i].id == id
  }

  // ---------------------------------------------------------------- addTask

  /** Add appends exactly one task, with the given fields and id, after the unchanged old list. */
  lemma AddAppendsOne(tasks: seq<Task>, d: TaskDraft, id: string)
    ensures var r := Added(tasks, d, id);
      |r| == |tasks| + 1 && r[..|tasks|] == tasks
      && r[|tasks|].id == id && r[|tasks|].title == d.title
      && r[|tasks|].description == d.description && r[|tasks|].priority == d.priority
      && r[|tasks|].dueDate == d.dueDate && r[|tasks|].completed == d.completed
  {
  }

  /** Deleting the id just added, when that id was new, gives back the old list. */
  lemma AddThenDeleteRestores(tasks: seq<Task>, d: TaskDraft, id: string)
    requires !HasId(tasks, id)
    ensures Removed(Added(tasks, d, id), id) == tasks
  {
    RemovedConcat(tasks, [WithId(d, id)], id);
    DeleteAbsentIsNoop(tasks, id);
    assert Removed([WithId(d, id)], id) == [];
  }

  // ---------------------------------------------------------------- updateTask

  /** Update keeps the length; every task with the argument's id becomes the argument, the rest are unchanged. */
  lemma UpdateReplacesMatching(tasks: seq<Task>, task: Task)
    ensures var r := Updated(tasks, Full(task));
      |r| == |tasks|
      && (forall i :: 0 <= i < |tasks| && tasks[i].id == task.id ==> r[i] == task)
      && (forall i :: 0 <= i < |tasks| && tasks[i].id != task.id ==> r[i] == tasks[i])
  {
  }

  /** Update with an id no task has leaves the list as it was. */
  lemma {:induction false} UpdateAbsentIsNoop(tasks: seq<Task>, task: Task)
    requires !HasId(tasks, task.id)
    ensures Updated(tasks, Full(task)) == tasks
  {
    if tasks != [] {
      assert tasks[0].id != task.id;
      UpdateAbsentIsNoop(tasks[1..], task);
    }
  }

  /** A record without an id matches no task, so updating with it leaves the list as it was. */
  lemma {:induction false} UpdateIdLessIsNoop(tasks: seq<Task>, d: TaskDraft)
    ensures Updated(tasks, IdLess(d)) == tasks
  {
    if tasks != [] {
      UpdateIdLessIsNoop(tasks[1..], d);
    }
  }

  /** Updating twice with the same task is the same as updating once. */
  lemma UpdateIdempotent(tasks: seq<Task>, arg: UpdateArg)
    ensures Updated(Updated(tasks, arg), arg) == Updated(tasks, arg)
  {
    var r := Updated(tasks, arg);
    var rr := Updated(r, arg);
    assert forall i :: 0 <= i < |r| ==> rr[i] == r[i];
  }

  // ---------------------------------------------------------------- deleteTask

  /** Deleting from a concatenation deletes from each part: the survivors keep their relative order. */
  lemma {:induction false} RemovedConcat(a: seq<Task>, b: seq<Task>, id: string)
    ensures Removed(a + b, id) == Removed(a, id) + Removed(b, id)
  {
    if a == [] {
      assert a + b == b;
    } else {
      assert (a + b)[1..] == a[1..] + b;
      RemovedConcat(a[1..], b, id);
    }
  }

  /** Delete removes every copy of a task with the id and keeps every copy of every other task. */
  lemma {:induction false} DeleteCounts(tasks: seq<Task>, id: string, t: Task)
    ensures multiset(Removed(tasks, id))[t] == if t.id == id then 0 else multiset(tasks)[t]
  {
    if tasks != [] {
      var head := if tasks[0].id == id then [] else [tasks[0]];
      DeleteCounts(tasks[1..], id, t);
      assert multiset(Removed(tasks, id)) == multiset(head) + multiset(Removed(tasks[1..], id));
      assert tasks == [tasks[0]] + tasks[1..];
      assert multiset(tasks) == multiset([tasks[0]]) + multiset(tasks[1..]);
    }
  }

  /** Delete with an id no task has leaves the list as it was. */
  lemma {:induction false} DeleteAbsentIsNoop(tasks: seq<Task>, id: string)
    requires !HasId(tasks, id)
    ensures Removed(tasks, id) == tasks
  {
    if tasks != [] {
      assert tasks[0].id != id;
      DeleteAbsentIsNoop(tasks[1..], id);
      assert tasks == [tasks[0]] + tasks[1..];
    }
  }

  // ---------------------------------------------------------------- toggleTaskComplete

  /** Toggling twice with the same id gives back the list. */
  lemma ToggleTwiceRestores(tasks: seq<Task>, id: string)
    ensures ToggledComplete(ToggledComplete(tasks, id), id) == tasks
  {
    var r := ToggledComplete(tasks, id);
    var rr := ToggledComplete(r, id);
    assert forall i :: 0 <= i < |tasks| ==> rr[i] == tasks[i];
  }

  /** Toggle with an id no task has leaves the list as it was. */
  lemma ToggleAbsentIsNoop(tasks: seq<Task>, id: string)
    requires !HasId(tasks, id)
    ensures ToggledComplete(tasks, id) == tasks
  {
    var r := ToggledComplete(tasks, id);
    assert forall i :: 0 <= i < |tasks| ==> r[i] == tasks[i];
  }

  // ---------------------------------------------------------------- the provider

  /** The provider's `tasks` state and the blob last written under the 'tasks' key. */
  class TaskStore {
    var tasks: seq<Task>
    ghost var stored: Option<seq<Task>>

    /** A fresh provider: no tasks in memory; storage holds whatever an earlier session wrote. */
    constructor (ghost persisted: Option<seq<Task>>)
      ensures tasks == [] && stored == persisted
    {
      tasks := [];
      stored := persisted;
    }

    method AddTask(task: TaskDraft, freshId: string)
      modifies this
      ensures tasks == Added(old(tasks), task, freshId)
      ensures stored == Some(tasks)
    {
      var newTask := WithId(task, freshId);
      var updatedTasks := tasks + [newTask];
      tasks := updatedTasks;
      stored := Some(updatedTasks);
    }

    method UpdateTask(task: UpdateArg)
      modifies this
      ensures tasks == Updated(old(tasks), task)
      ensures stored == Some(tasks)
    {
      var updatedTasks := Updated(tasks, task);
      tasks := updatedTasks;
      stored := Some(updatedTasks);
    }

    method DeleteTask(id: string)
      modifies this
      ensures tasks == Removed(old(tasks), id)
      ensures stored == Some(tasks)
    {
      var updatedTasks := Removed(tasks, id);
      tasks := updatedTasks;
      stored := Some(updatedTasks);
    }

    method ToggleTaskComplete(id: string)
      modifies this
      ensures tasks == ToggledComplete(old(tasks), id)
      ensures stored == Some(tasks)
    {
      var updatedTasks := ToggledComplete(tasks, id);
      tasks := updatedTasks;
      stored := Some(updatedTasks);
    }
  }
}
