/** The owner's page for assigning tasks to the manager
    (src/components/OwnerManagerTasksPage.tsx). */
module OwnerManagerTasks {
  import opened Common
  import opened Seqs
  import opened Strings
  import opened App

  datatype AssignedTask = AssignedTask(
    id: string,
    name: string,
    description: string,
    taskType: Repetition,
    assignedDate: string,
    status: TaskStatus)

  /** The new-task form. */
  datatype TaskForm = TaskForm(name: string, description: string, taskType: Repetition)

  /** The two refusals, checked in this order. */
  datatype AddError = MissingName | MissingDescription

  /** The form as it is after a successful add. */
  function EmptyForm(): TaskForm
  {
    TaskForm("", "", Daily)
  }

  /** `handleAddTask`: a blank name is refused first, then a blank
      description; otherwise the new pending task goes to the front of the
      list and the form is reset. */
  function AddTask(tasks: seq<AssignedTask>, form: TaskForm, freshId: string, today: string): (r: Result<(seq<AssignedTask>, TaskForm), AddError>)
    ensures IsBlank(form.name) <==> r == Err(MissingName)
    ensures r == Err(MissingDescription) <==> !IsBlank(form.name) && IsBlank(form.description)
    ensures r.Ok? ==>
      var (ts, f) := r.value;
      && |ts| == |tasks| + 1
      && ts[1..] == tasks
      && ts[0] == AssignedTask(freshId, form.name, form.description, form.taskType, today, Pending)
      && f == EmptyForm()
  {
    if IsBlank(form.name) then Err(MissingName)
    else if IsBlank(form.description) then Err(MissingDescription)
    else
      var t := AssignedTask(freshId, form.name, form.description, form.taskType, today, Pending);
      Ok(([t] + tasks, EmptyForm()))
  }

  function HasStatus(status: TaskStatus): AssignedTask -> bool
  {
    (t: AssignedTask) => t.status == status
  }

  /** `pendingTasks` and `completedTasks`. */
  function TasksWithStatus(tasks: seq<AssignedTask>, status: TaskStatus): (r: seq<AssignedTask>)
    ensures forall t :: t in r ==> t in tasks && t.status == status
    ensures forall t :: t in tasks && t.status == status ==> t in r
    ensures IsSubseq(r, tasks)
    ensures |r| == CountIf(tasks, HasStatus(status))
  {
    Filter(tasks, HasStatus(status))
  }

  /** Every task is on exactly one of the two lists. */
  lemma PendingCompletedPartition(tasks: seq<AssignedTask>)
    ensures |TasksWithStatus(tasks, Pending)| + |TasksWithStatus(tasks, Completed)| == |tasks|
    ensures forall t :: t in tasks ==> (t in TasksWithStatus(tasks, Pending) <==> t !in TasksWithStatus(tasks, Completed))
  {
    CountComplement(tasks, HasStatus(Pending), HasStatus(Completed));
  }

  /** A successful add puts one more task on the pending list and leaves the
      completed list as it was. */
  lemma AddRaisesPendingOnly(tasks: seq<AssignedTask>, form: TaskForm, freshId: string, today: string)
    ensures var r := AddTask(tasks, form, freshId, today);
      r.Ok? ==>
        && |TasksWithStatus(r.value.0, Pending)| == |TasksWithStatus(tasks, Pending)| + 1
        && TasksWithStatus(r.value.0, Completed) == TasksWithStatus(tasks, Completed)
  {
    var r := AddTask(tasks, form, freshId, today);
    if r.Ok? {
      var ts := r.value.0;
      assert ts == [ts[0]] + tasks;
      FilterAppend([ts[0]], tasks, HasStatus(Pending));
      FilterAppend([ts[0]], tasks, HasStatus(Completed));
    }
  }
}
