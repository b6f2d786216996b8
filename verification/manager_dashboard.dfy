/** The manager dashboard (src/components/ManagerDashboard.tsx): the
    manager's own daily/weekly checklist, the validating report forms, and
    the station inventory. The inventory tab only shows two read-only
    station tables; its add, adjust and delete handlers are defined in the
    component but no control calls them, and they are modelled as written. */
module ManagerDashboard {
  import opened Common
  import opened Seqs
  import opened Strings
  import opened App
  import EmployeeDashboard

  datatype ManagerTask = ManagerTask(id: string, name: string, completed: bool, kind: Repetition, day: Option<string>)

  /** A form handler that refuses shows an error toast and changes nothing. */
  datatype FormError = MissingFields

  /** `handleToggleManagerTask`: flip `completed` on the tasks with the id. */
  function ToggleManagerTask(tasks: seq<ManagerTask>, id: string): (r: seq<ManagerTask>)
    ensures |r| == |tasks|
    ensures forall i :: 0 <= i < |r| ==>
      && r[i].id == tasks[i].id && r[i].name == tasks[i].name
      && r[i].kind == tasks[i].kind && r[i].day == tasks[i].day
    ensures forall i :: 0 <= i < |r| ==> (r[i].completed != tasks[i].completed <==> tasks[i].id == id)
  {
    seq(|tasks|, i requires 0 <= i < |tasks| =>
      if tasks[i].id == id then tasks[i].(completed := !tasks[i].completed) else tasks[i])
  }

  /** Toggling the same task twice gives back the original list. */
  lemma ToggleTwiceRestores(tasks: seq<ManagerTask>, id: string)
    ensures ToggleManagerTask(ToggleManagerTask(tasks, id), id) == tasks
  {
    var r := ToggleManagerTask(ToggleManagerTask(tasks, id), id);
    assert |r| == |tasks|;
    forall i | 0 <= i < |r| ensures r[i] == tasks[i] {
    }
  }

  function IsKind(kind: Repetition): ManagerTask -> bool
  {
    (t: ManagerTask) => t.kind == kind
  }

  /** The Daily Tasks and Weekly Tasks cards. */
  function TasksOfKind(tasks: seq<ManagerTask>, kind: Repetition): (r: seq<ManagerTask>)
    ensures forall t :: t in r ==> t in tasks && t.kind == kind
    ensures forall t :: t in tasks && t.kind == kind ==> t in r
    ensures IsSubseq(r, tasks)
    ensures |r| == CountIf(tasks, IsKind(kind))
  {
    Filter(tasks, IsKind(kind))
  }

  /** Every manager task is on exactly one of the two cards. */
  lemma CardsPartitionTasks(tasks: seq<ManagerTask>)
    ensures |TasksOfKind(tasks, Daily)| + |TasksOfKind(tasks, Weekly)| == |tasks|
    ensures forall t :: t in tasks ==> (t in TasksOfKind(tasks, Daily) <==> t !in TasksOfKind(tasks, Weekly))
  {
    CountComplement(tasks, IsKind(Daily), IsKind(Weekly));
  }

  /** The employee-task assignment form. */
  datatype AssignForm = AssignForm(name: string, assignee: string, station: Station, category: Category)

  /** `handleAssignEmployeeTask`: the name is trimmed, the assignee is not.
      No task record is created anywhere; success only clears the name and
      the assignee, leaving the station and category choices in place. */
  function AssignEmployeeTask(f: AssignForm): (r: Result<AssignForm, FormError>)
    ensures r.Err? <==> IsBlank(f.name) || IsEmpty(f.assignee)
    ensures r.Ok? ==> r.value.name == "" && r.value.assignee == ""
    ensures r.Ok? ==> r.value.station == f.station && r.value.category == f.category
  {
    if IsBlank(f.name) || IsEmpty(f.assignee) then Err(MissingFields)
    else Ok(f.(name := "", assignee := ""))
  }

  /** The five APEPO text areas (audit, people, equipment, product, others). */
  datatype ApepoForm = ApepoForm(audit: string, people: string, equipment: string, product: string, others: string)

  predicate ApepoFilled(f: ApepoForm)
  {
    f.audit != "" && f.people != "" && f.equipment != "" && f.product != "" && f.others != ""
  }

  /** `handleSubmitApepo`: every field must be non-empty (no trimming);
      success clears all five. */
  function SubmitApepo(f: ApepoForm): (r: Result<ApepoForm, FormError>)
    ensures r.Err? <==> !ApepoFilled(f)
    ensures r.Ok? ==> r.value == ApepoForm("", "", "", "", "")
  {
    if !ApepoFilled(f) then Err(MissingFields) else Ok(ApepoForm("", "", "", "", ""))
  }

  /** Cash, digital wallet and bank entries of one section. */
  datatype Amounts = Amounts(cash: string, digital: string, bank: string)

  /** The twelve fields of the financial report. */
  datatype FinancialForm = FinancialForm(
    openingStart: Amounts, openingTurnover: Amounts,
    closingStart: Amounts, closingTurnover: Amounts)

  datatype ReportStatus = ReportPending | ReportApproved | ReportRejected

  predicate AmountsFilled(a: Amounts)
  {
    a.cash != "" && a.digital != "" && a.bank != ""
  }

  predicate FinancialFilled(f: FinancialForm)
  {
    AmountsFilled(f.openingStart) && AmountsFilled(f.openingTurnover)
    && AmountsFilled(f.closingStart) && AmountsFilled(f.closingTurnover)
  }

  /** `handleSubmitFinancialReport`: all twelve fields must be non-empty;
      success sets the status to pending and, unlike the other forms,
      leaves every field as typed. */
  function SubmitFinancialReport(f: FinancialForm, status: ReportStatus): (r: Result<(FinancialForm, ReportStatus), FormError>)
    ensures r.Err? <==> !FinancialFilled(f)
    ensures r.Ok? ==> r.value.1 == ReportPending && r.value.0 == f
  {
    if !FinancialFilled(f) then Err(MissingFields) else Ok((f, ReportPending))
  }

  datatype Priority = Low | Medium | High

  /** The supply request form. */
  datatype RequestForm = RequestForm(itemName: string, quantity: string, priority: Priority, remarks: string)

  /** `handleSubmitRequest`: trimmed item name and a non-empty quantity are
      required; remarks are optional. Success clears name, quantity and
      remarks and keeps the priority. */
  function SubmitRequest(f: RequestForm): (r: Result<RequestForm, FormError>)
    ensures r.Err? <==> IsBlank(f.itemName) || IsEmpty(f.quantity)
    ensures r.Ok? ==> r.value.itemName == "" && r.value.quantity == "" && r.value.remarks == ""
    ensures r.Ok? ==> r.value.priority == f.priority
  {
    if IsBlank(f.itemName) || IsEmpty(f.quantity) then Err(MissingFields)
    else Ok(f.(itemName := "", quantity := "", remarks := ""))
  }

  /** The payroll entry form. */
  datatype PayrollForm = PayrollForm(employeeName: string, daysWorked: string, payRate: string)

  /** `handleSubmitPayroll`: all three fields non-empty (no trim); success
      clears them. The total shown in the toast is left out. */
  function SubmitPayroll(f: PayrollForm): (r: Result<PayrollForm, FormError>)
    ensures r.Err? <==> f.employeeName == "" || f.daysWorked == "" || f.payRate == ""
    ensures r.Ok? ==> r.value == PayrollForm("", "", "")
  {
    if f.employeeName == "" || f.daysWorked == "" || f.payRate == "" then Err(MissingFields)
    else Ok(PayrollForm("", "", ""))
  }

  /** The manager fund form: an amount and an uploaded receipt image. */
  datatype FundForm = FundForm(amount: string, image: Option<string>)

  /** `handleSubmitManagerFund`: both are required; success clears both. */
  function SubmitManagerFund(f: FundForm): (r: Result<FundForm, FormError>)
    ensures r.Err? <==> f.amount == "" || f.image.None?
    ensures r.Ok? ==> r.value == FundForm("", None)
  {
    if f.amount == "" || f.image.None? then Err(MissingFields) else Ok(FundForm("", None))
  }

  /** `handleSubmitExpenses`: the trimmed text must be non-empty; success clears it. */
  function SubmitExpenses(expenses: string): (r: Result<string, FormError>)
    ensures r.Err? <==> IsBlank(expenses)
    ensures r.Ok? ==> r.value == ""
  {
    if IsBlank(expenses) then Err(MissingFields) else Ok("")
  }

  /** An inventory row. `station` is absent on rows added by this
      dashboard's own add handler, whose new item sets no station. */
  datatype ManagerItem = ManagerItem(
    id: string,
    productName: string,
    sealed: JsNum,
    loose: JsNum,
    unit: string,
    lastUpdated: string,
    station: Option<Station>)

  /** `handleAddInventoryItem`: same guard and parsing as the employee form;
      the item gets no station. */
  function AddInventoryItem(inventory: seq<ManagerItem>, form: EmployeeDashboard.ProductForm,
                            freshId: string, now: string): (r: Result<(seq<ManagerItem>, EmployeeDashboard.ProductForm), FormError>)
    ensures r.Err? <==> IsBlank(form.name) || IsEmpty(form.sealed) || IsEmpty(form.loose)
    ensures r.Ok? ==>
      var (inv, f) := r.value;
      && |inv| == |inventory| + 1
      && inv[..|inventory|] == inventory
      && inv[|inventory|] == ManagerItem(freshId, form.name, ParseInt(form.sealed), ParseInt(form.loose), form.unit, now, None)
      && f == EmployeeDashboard.ProductForm("", form.unit, "", "")
  {
    if IsBlank(form.name) || IsEmpty(form.sealed) || IsEmpty(form.loose) then Err(MissingFields)
    else
      var item := ManagerItem(freshId, form.name, ParseInt(form.sealed), ParseInt(form.loose), form.unit, now, None);
      Ok((inventory + [item], form.(name := "", sealed := "", loose := "")))
  }

  /** `Math.max(0, count + change)` on one count. */
  function Adjust(count: JsNum, change: int): (r: JsNum)
    ensures r.Num? <==> count.Num?
    ensures r.Num? ==> r.n >= 0 && r.n >= count.n + change
    ensures r.Num? && count.n + change >= 0 ==> r.n == count.n + change
    ensures r.Num? && count.n + change < 0 ==> r.n == 0
  {
    ClampAtZero(Plus(count, Num(change)))
  }

  /** One adjusted row: the chosen count moves by `change` (never below
      zero), the timestamp is renewed, nothing else changes. */
  function AdjustItem(item: ManagerItem, field: EmployeeDashboard.QuantityField, change: int, now: string): (r: ManagerItem)
    ensures field == EmployeeDashboard.Sealed ==> r == item.(sealed := Adjust(item.sealed, change), lastUpdated := now)
    ensures field == EmployeeDashboard.Loose ==> r == item.(loose := Adjust(item.loose, change), lastUpdated := now)
  {
    if field == EmployeeDashboard.Sealed then item.(sealed := Adjust(item.sealed, change), lastUpdated := now)
    else item.(loose := Adjust(item.loose, change), lastUpdated := now)
  }

  /** `handleUpdateInventory(id, field, change)`. */
  function UpdateInventory(inventory: seq<ManagerItem>, id: string, field: EmployeeDashboard.QuantityField,
                           change: int, now: string): (r: seq<ManagerItem>)
    ensures |r| == |inventory|
    ensures forall i :: 0 <= i < |r| && inventory[i].id != id ==> r[i] == inventory[i]
    ensures forall i :: 0 <= i < |r| && inventory[i].id == id ==> r[i] == AdjustItem(inventory[i], field, change, now)
  {
    seq(|inventory|, i requires 0 <= i < |inventory| =>
      if inventory[i].id == id then AdjustItem(inventory[i], field, change, now) else inventory[i])
  }

  /** No count of a numeric row is negative. */
  predicate NonNegative(inventory: seq<ManagerItem>)
  {
    forall i :: 0 <= i < |inventory| ==>
      (inventory[i].sealed.Num? ==> inventory[i].sealed.n >= 0)
      && (inventory[i].loose.Num? ==> inventory[i].loose.n >= 0)
  }

  /** Adjusting keeps every count non-negative, whatever the change. */
  lemma UpdateKeepsNonNegative(inventory: seq<ManagerItem>, id: string, field: EmployeeDashboard.QuantityField,
                               change: int, now: string)
    requires NonNegative(inventory)
    ensures NonNegative(UpdateInventory(inventory, id, field, change, now))
  {
  }

  function HasOtherId(id: string): ManagerItem -> bool
  {
    (item: ManagerItem) => item.id != id
  }

  function HasId(id: string): ManagerItem -> bool
  {
    (item: ManagerItem) => item.id == id
  }

  /** `handleDeleteInventoryItem`: every row with the id goes, the rest stay in order. */
  function DeleteInventoryItem(inventory: seq<ManagerItem>, id: string): (r: seq<ManagerItem>)
    ensures forall item :: item in r ==> item in inventory && item.id != id
    ensures forall item :: item in inventory && item.id != id ==> item in r
    ensures IsSubseq(r, inventory)
    ensures |r| + CountIf(inventory, HasId(id)) == |inventory|
  {
    CountComplement(inventory, HasOtherId(id), HasId(id));
    Filter(inventory, HasOtherId(id))
  }

  function AtStation(st: Station): ManagerItem -> bool
  {
    (item: ManagerItem) => item.station == Some(st)
  }

  /** A row of the read-only station tables. */
  datatype Row = Row(productName: string, unit: string, sealed: JsNum, loose: JsNum, delivered: JsNum, lastUpdated: string)

  /** The items one station table lists: that station's items, in order. */
  function StationItems(inventory: seq<ManagerItem>, st: Station): (r: seq<ManagerItem>)
    ensures forall item :: item in r ==> item in inventory && item.station == Some(st)
    ensures forall item :: item in inventory && item.station == Some(st) ==> item in r
    ensures IsSubseq(r, inventory)
    ensures |r| == CountIf(inventory, AtStation(st))
  {
    Filter(inventory, AtStation(st))
  }

  /** How one item is shown: its own columns, and Delivered as `sealed + loose`. */
  function RowOf(item: ManagerItem): (row: Row)
    ensures row.delivered == Plus(row.sealed, row.loose)
    ensures row.productName == item.productName && row.unit == item.unit && row.lastUpdated == item.lastUpdated
    ensures row.sealed == item.sealed && row.loose == item.loose
  {
    Row(item.productName, item.unit, item.sealed, item.loose, Plus(item.sealed, item.loose), item.lastUpdated)
  }

  /** The Kitchen / Coffee Bar inventory table. */
  function StationTable(inventory: seq<ManagerItem>, st: Station): (rows: seq<Row>)
    ensures |rows| == |StationItems(inventory, st)|
    ensures forall i :: 0 <= i < |rows| ==> rows[i] == RowOf(StationItems(inventory, st)[i])
    ensures forall i :: 0 <= i < |rows| ==> rows[i].delivered == Plus(rows[i].sealed, rows[i].loose)
  {
    var items := StationItems(inventory, st);
    seq(|items|, i requires 0 <= i < |items| => RowOf(items[i]))
  }

  /** An item the add handler creates would show up in neither station table:
      both tables list exactly the items they listed before the add. */
  lemma AddedItemInNoTable(inventory: seq<ManagerItem>, added: ManagerItem, st: Station)
    requires added.station.None?
    ensures StationItems(inventory + [added], st) == StationItems(inventory, st)
    ensures added !in StationItems(inventory + [added], st)
  {
    FilterAppend(inventory, [added], AtStation(st));
    assert Filter([added], AtStation(st)) == [];
  }

  /** The add handler's new item is such an item. */
  lemma AddedItemHasNoStation(inventory: seq<ManagerItem>, form: EmployeeDashboard.ProductForm,
                              freshId: string, now: string)
    ensures var r := AddInventoryItem(inventory, form, freshId, now);
      r.Ok? ==> r.value.0 == inventory + [r.value.0[|inventory|]] && r.value.0[|inventory|].station.None?
  {
    var r := AddInventoryItem(inventory, form, freshId, now);
    if r.Ok? {
      assert r.value.0 == r.value.0[..|inventory|] + [r.value.0[|inventory|]];
    }
  }

  /** The checklist the dashboard mounts with: its daily part, then its weekly part. */
  function SeedTasks(): seq<ManagerTask>
  {
    SeedDailyTasks() + SeedWeeklyTasks()
  }

  function SeedDailyTasks(): seq<ManagerTask>
  {
    [ ManagerTask("1", "Review daily sales report", false, Daily, None),
      ManagerTask("2", "Check equipment maintenance", true, Daily, None),
      ManagerTask("3", "Update employee schedule", false, Daily, None),
      ManagerTask("4", "Monitor inventory levels", false, Daily, None) ]
  }

  function SeedWeeklyTasks(): seq<ManagerTask>
  {
    [ ManagerTask("5", "Order stocks", false, Weekly, Some("Friday")),
      ManagerTask("6", "Shopee orders", false, Weekly, Some("Friday")),
      ManagerTask("7", "Finance meeting", false, Weekly, Some("Monday")),
      ManagerTask("8", "Sweep the floor", false, Weekly, Some("Thursday")) ]
  }

  lemma SeedDailyAllDaily()
    ensures Filter(SeedDailyTasks(), IsKind(Daily)) == SeedDailyTasks()
  {
    assert forall x :: x in SeedDailyTasks() ==> IsKind(Daily)(x);
    FilterAll(SeedDailyTasks(), IsKind(Daily));
  }

  lemma SeedWeeklyNoneDaily()
    ensures |Filter(SeedWeeklyTasks(), IsKind(Daily))| == 0
  {
    assert forall x :: x in SeedWeeklyTasks() ==> !IsKind(Daily)(x);
  }

  /** Four daily and four weekly tasks are seeded. */
  lemma SeedCards()
    ensures |TasksOfKind(SeedTasks(), Daily)| == 4
    ensures |TasksOfKind(SeedTasks(), Weekly)| == 4
  {
    var d, w := SeedDailyTasks(), SeedWeeklyTasks();
    SeedDailyAllDaily();
    SeedWeeklyNoneDaily();
    FilterAppend(d, w, IsKind(Daily));
    assert |Filter(d + w, IsKind(Daily))| == 4;
    CardsPartitionTasks(d + w);
  }
}
