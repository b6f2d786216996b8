/** The settings page (src/components/SettingsPage.tsx): the add-task form
    and the per-branch counters. The page's lists are fixed; adding or
    deleting a task only shows a message. */
module Settings {
  import opened Common
  import opened Seqs

  datatype SettingsTask = SettingsTask(
    id: string,
    name: string,
    qrCodeId: string,
    location: string,
    description: string,
    branch: string)

  datatype SettingsEmployee = SettingsEmployee(
    id: string,
    name: string,
    email: string,
    role: string,
    branch: string,
    tasksCompleted: int)

  /** The new-task form. */
  datatype TaskForm = TaskForm(name: string, location: string, description: string, branch: string)

  datatype State = State(tasks: seq<SettingsTask>, form: TaskForm, isAddingTask: bool)

  /** The refusal shown when a required field is empty; nothing changes. */
  datatype AddError = MissingRequiredField

  /** The two branches the page lists. */
  const DowntownBranch: string := "Downtown Branch"
  const UptownBranch: string := "Uptown Branch"

  /** The form as first shown and as reset after an add. */
  function EmptyForm(): TaskForm
  {
    TaskForm("", "", "", DowntownBranch)
  }

  /** `handleAddTask`: refused when the name or the location is the empty
      string (whitespace is accepted, there is no trimming); description and
      branch are optional. Success resets the form and closes it, and does
      not add anything to the list shown. */
  function AddTask(s: State): (r: Result<State, AddError>)
    ensures r.Err? <==> s.form.name == "" || s.form.location == ""
    ensures r.Ok? ==> r.value.tasks == s.tasks
    ensures r.Ok? ==> r.value.form == EmptyForm() && !r.value.isAddingTask
  {
    if s.form.name == "" || s.form.location == "" then Err(MissingRequiredField)
    else Ok(s.(form := EmptyForm(), isAddingTask := false))
  }

  /** Whether an add succeeds never depends on the description or the branch. */
  lemma OptionalFieldsIgnored(s: State, description: string, branch: string)
    ensures AddTask(s.(form := s.form.(description := description, branch := branch))).Ok?
      == AddTask(s).Ok?
  {
  }

  /** A single space is enough for both required fields. */
  lemma WhitespaceAccepted(s: State)
    requires s.form.name == " " && s.form.location == " "
    ensures AddTask(s).Ok?
  {
  }

  function TaskInBranch(branch: string): SettingsTask -> bool
  {
    (t: SettingsTask) => t.branch == branch
  }

  function EmployeeInBranch(branch: string): SettingsEmployee -> bool
  {
    (e: SettingsEmployee) => e.branch == branch
  }

  /** A branch card's "Active Tasks". */
  function BranchTaskCount(tasks: seq<SettingsTask>, branch: string): (n: nat)
    ensures n == |Filter(tasks, TaskInBranch(branch))|
    ensures n <= |tasks|
    ensures n == 0 <==> forall t :: t in tasks ==> t.branch != branch
  {
    CountIf(tasks, TaskInBranch(branch))
  }

  /** A branch card's "Employees". */
  function BranchEmployeeCount(employees: seq<SettingsEmployee>, branch: string): (n: nat)
    ensures n == |Filter(employees, EmployeeInBranch(branch))|
    ensures n <= |employees|
    ensures n == 0 <==> forall e :: e in employees ==> e.branch != branch
  {
    CountIf(employees, EmployeeInBranch(branch))
  }

  /** Two different branches never count the same task, so their cards add
      up to at most the whole list. */
  lemma BranchCountsDisjoint(tasks: seq<SettingsTask>, b1: string, b2: string)
    requires b1 != b2
    ensures BranchTaskCount(tasks, b1) + BranchTaskCount(tasks, b2) <= |tasks|
  {
    CountDisjoint(tasks, TaskInBranch(b1), TaskInBranch(b2));
  }

  /** An add leaves every branch's task count as it was. */
  lemma AddKeepsBranchCounts(s: State, branch: string)
    ensures AddTask(s).Ok? ==> BranchTaskCount(AddTask(s).value.tasks, branch) == BranchTaskCount(s.tasks, branch)
  {
  }

  function SeedTasks(): seq<SettingsTask>
  {
    [ SettingsTask("1", "Clean Restroom", "QR-001", "Floor 1 - Restroom A", "Clean and sanitize restroom", "Downtown Branch"),
      SettingsTask("2", "Stock Inventory", "QR-002", "Stockroom", "Check and restock inventory", "Downtown Branch"),
      SettingsTask("3", "Kitchen Maintenance", "QR-003", "Kitchen Area", "Clean kitchen and equipment", "Uptown Branch"),
      SettingsTask("4", "Floor Cleaning", "QR-004", "Main Floor", "Mop and clean main floor", "Downtown Branch") ]
  }

  function SeedEmployees(): seq<SettingsEmployee>
  {
    [ SettingsEmployee("1", "Sarah Johnson", "sarah@example.com", "employee", "Downtown Branch", 45),
      SettingsEmployee("2", "Mike Chen", "mike@example.com", "employee", "Downtown Branch", 38),
      SettingsEmployee("3", "Emma Davis", "emma@example.com", "employee", "Uptown Branch", 52),
      SettingsEmployee("4", "James Wilson", "james@example.com", "employee", "Downtown Branch", 41) ]
  }

  /** The seeded tasks: three downtown, one uptown. */
  lemma SeedTaskCounts()
    ensures BranchTaskCount(SeedTasks(), DowntownBranch) == 3
    ensures BranchTaskCount(SeedTasks(), UptownBranch) == 1
  {
    var ts := SeedTasks();
    assert ts[0].branch == DowntownBranch && ts[1].branch == DowntownBranch;
    assert ts[2].branch == UptownBranch && ts[3].branch == DowntownBranch;
    assert DowntownBranch[0] != UptownBranch[0];
    ThreeAndOne(ts, DowntownBranch, UptownBranch);
  }

  /** Four tasks on branches `d`, `d`, `u`, `d`. */
  lemma ThreeAndOne(ts: seq<SettingsTask>, d: string, u: string)
    requires |ts| == 4 && d != u
    requires ts[0].branch == d && ts[1].branch == d && ts[2].branch == u && ts[3].branch == d
    ensures BranchTaskCount(ts, d) == 3
    ensures BranchTaskCount(ts, u) == 1
  {
    var pd, pu := TaskInBranch(d), TaskInBranch(u);
    assert ts[3..][1..] == [];
    assert CountIf(ts[3..], pd) == 1 && CountIf(ts[3..], pu) == 0;
    assert ts[2..][1..] == ts[3..];
    assert CountIf(ts[2..], pd) == 1 && CountIf(ts[2..], pu) == 1;
    assert ts[1..][1..] == ts[2..];
    assert CountIf(ts[1..], pd) == 2 && CountIf(ts[1..], pu) == 1;
  }

  /** The seeded staff: three downtown, one uptown. */
  lemma SeedEmployeeCounts()
    ensures BranchEmployeeCount(SeedEmployees(), DowntownBranch) == 3
    ensures BranchEmployeeCount(SeedEmployees(), UptownBranch) == 1
  {
    var es := SeedEmployees();
    assert es[0].branch == DowntownBranch && es[1].branch == DowntownBranch;
    assert es[2].branch == UptownBranch && es[3].branch == DowntownBranch;
    assert DowntownBranch[0] != UptownBranch[0];
    ThreeAndOneStaff(es, DowntownBranch, UptownBranch);
  }

  /** Four employees on branches `d`, `d`, `u`, `d`. */
  lemma ThreeAndOneStaff(es: seq<SettingsEmployee>, d: string, u: string)
    requires |es| == 4 && d != u
    requires es[0].branch == d && es[1].branch == d && es[2].branch == u && es[3].branch == d
    ensures BranchEmployeeCount(es, d) == 3
    ensures BranchEmployeeCount(es, u) == 1
  {
    var pd, pu := EmployeeInBranch(d), EmployeeInBranch(u);
    assert es[3..][1..] == [];
    assert CountIf(es[3..], pd) == 1 && CountIf(es[3..], pu) == 0;
    assert es[2..][1..] == es[3..];
    assert CountIf(es[2..], pd) == 1 && CountIf(es[2..], pu) == 1;
    assert es[1..][1..] == es[2..];
    assert CountIf(es[1..], pd) == 2 && CountIf(es[1..], pu) == 1;
  }
}
