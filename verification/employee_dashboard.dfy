/** The employee dashboard (src/components/EmployeeDashboard.tsx): the
    station/category checklist view and the station inventory form. */
module EmployeeDashboard {
  import opened Common
  import opened Seqs
  import opened Strings
  import opened App

  /** Which count an inventory edit changes, `'sealed' | 'loose'`. */
  datatype QuantityField = Sealed | Loose

  datatype InventoryItem = InventoryItem(
    id: string,
    productName: string,
    unit: string,
    sealed: JsNum,
    loose: JsNum,
    delivered: JsNum,
    dateDelivered: string,
    station: Station)

  /** The new-product form fields; the quantities are the raw input text. */
  datatype ProductForm = ProductForm(name: string, unit: string, sealed: string, loose: string)

  datatype AddError = MissingProductField

  /** Delivered is the sum of the two counts (NaN when either count is NaN). */
  predicate DeliveredIsSum(item: InventoryItem)
  {
    item.delivered == Plus(item.sealed, item.loose)
  }

  /** The tab filter of the checklist: station and category both match. */
  function InTab(station: Station, category: Category): Task -> bool
  {
    (t: Task) => t.station == station && t.category == category
  }

  function IsCompleted(t: Task): bool
  {
    t.status == Completed
  }

  /** `filteredTasks`: the tasks of the selected station and category, in
      their original order (with `Seqs.FilterIsUnique`, these three facts
      determine the list). */
  function FilteredTasks(tasks: seq<Task>, station: Station, category: Category): (r: seq<Task>)
    ensures forall t :: t in r ==> t in tasks && t.station == station && t.category == category
    ensures forall t :: t in tasks && t.station == station && t.category == category ==> t in r
    ensures IsSubseq(r, tasks)
    ensures |r| == CountIf(tasks, InTab(station, category))
  {
    Filter(tasks, InTab(station, category))
  }

  /** Completed tasks of one tab. */
  function CompletedInTab(station: Station, category: Category): Task -> bool
  {
    (t: Task) => t.station == station && t.category == category && t.status == Completed
  }

  /** `completedCount`: completed tasks among the filtered ones, which is the
      number of completed tasks of the tab in the whole list. */
  function CompletedCount(tasks: seq<Task>, station: Station, category: Category): (n: nat)
    ensures n <= |FilteredTasks(tasks, station, category)|
    ensures n == CountIf(tasks, CompletedInTab(station, category))
    ensures n == 0 <==> forall t :: t in tasks && t.station == station && t.category == category ==> t.status != Completed
  {
    var shown := FilteredTasks(tasks, station, category);
    assert forall t :: t in tasks && t.station == station && t.category == category ==> t in shown;
    CountFilter(tasks, InTab(station, category), IsCompleted, CompletedInTab(station, category));
    CountIf(shown, IsCompleted)
  }

  /** The camera button is offered only on pending tasks. */
  predicate ScanOffered(t: Task)
  {
    t.status == Pending
  }

  /** In a tab, the camera buttons and the completed counter account for
      every task once: each task either offers a scan or is counted as done. */
  lemma ScanButtonsAndCounterCoverTab(tasks: seq<Task>, station: Station, category: Category)
    ensures CountIf(FilteredTasks(tasks, station, category), ScanOffered) + CompletedCount(tasks, station, category)
      == |FilteredTasks(tasks, station, category)|
  {
    var shown := FilteredTasks(tasks, station, category);
    CountComplement(shown, IsCompleted, ScanOffered);
    CountFilter(tasks, InTab(station, category), IsCompleted, CompletedInTab(station, category));
  }

  /** `handleScanQR`: navigate to the QR screen carrying the task. The
      handler itself does not look at the status; only the button is
      limited to pending tasks (`ScanOffered`). */
  function HandleScanQr(app: App.State, t: Task): (r: App.State)
    ensures r.screen == QrScan && r.selectedTaskForScan == Some(t)
    ensures r.user == app.user && r.selectedTask == app.selectedTask && r.selectedRecipe == app.selectedRecipe
  {
    NavigateTo(app, QrScan, Some(t), None)
  }

  /** `handleAddInventoryItem`. Only the name is trimmed for the check; the
      quantity strings need only be non-empty and are parsed with bare
      `parseInt` (so they may yield NaN). The id and the date are the
      caller's clock readings. On success the name and quantities are
      cleared and the unit is kept. */
  function AddInventoryItem(inventory: seq<InventoryItem>, form: ProductForm, station: Station,
                            freshId: string, today: string): (r: Result<(seq<InventoryItem>, ProductForm), AddError>)
    ensures r.Err? <==> IsBlank(form.name) || IsEmpty(form.sealed) || IsEmpty(form.loose)
    ensures r.Ok? ==>
      var (inv, f) := r.value;
      && |inv| == |inventory| + 1
      && inv[..|inventory|] == inventory
      && inv[|inventory|].id == freshId
      && inv[|inventory|].productName == form.name
      && inv[|inventory|].unit == form.unit
      && inv[|inventory|].sealed == ParseInt(form.sealed)
      && inv[|inventory|].loose == ParseInt(form.loose)
      && DeliveredIsSum(inv[|inventory|])
      && inv[|inventory|].dateDelivered == today
      && inv[|inventory|].station == station
      && f == ProductForm("", form.unit, "", "")
  {
    if IsBlank(form.name) || IsEmpty(form.sealed) || IsEmpty(form.loose) then
      Err(MissingProductField)
    else
      var sealed := ParseInt(form.sealed);
      var loose := ParseInt(form.loose);
      var item := InventoryItem(freshId, form.name, form.unit, sealed, loose, Plus(sealed, loose), today, station);
      Ok((inventory + [item], form.(name := "", sealed := "", loose := "")))
  }

  /** One edited item: the field gets `parseInt(value) || 0`, delivered is
      recomputed and the date restamped. */
  function EditItem(item: InventoryItem, field: QuantityField, value: string, today: string): (r: InventoryItem)
    ensures DeliveredIsSum(r)
    ensures r.dateDelivered == today
    ensures field == Sealed ==> r.sealed == Num(OrZero(ParseInt(value))) && r.loose == item.loose
    ensures field == Loose ==> r.loose == Num(OrZero(ParseInt(value))) && r.sealed == item.sealed
    ensures r.id == item.id && r.productName == item.productName && r.unit == item.unit && r.station == item.station
  {
    var v := Num(OrZero(ParseInt(value)));
    var edited := if field == Sealed then item.(sealed := v) else item.(loose := v);
    edited.(delivered := Plus(edited.sealed, edited.loose), dateDelivered := today)
  }

  /** `handleUpdateInventory(id, field, value)`: every item with the id is
      edited; every other item, the length and the order are kept. */
  function UpdateInventory(inventory: seq<InventoryItem>, id: string, field: QuantityField,
                           value: string, today: string): (r: seq<InventoryItem>)
    ensures |r| == |inventory|
    ensures forall i :: 0 <= i < |r| && inventory[i].id != id ==> r[i] == inventory[i]
    ensures forall i :: 0 <= i < |r| && inventory[i].id == id ==> r[i] == EditItem(inventory[i], field, value, today)
  {
    seq(|inventory|, i requires 0 <= i < |inventory| =>
      if inventory[i].id == id then EditItem(inventory[i], field, value, today) else inventory[i])
  }

  /** Every item of a ledger shows delivered = sealed + loose. */
  predicate LedgerConsistent(inventory: seq<InventoryItem>)
  {
    forall i :: 0 <= i < |inventory| ==> DeliveredIsSum(inventory[i])
  }

  /** Adding and editing both keep the ledger consistent. */
  lemma LedgerConsistencyPreserved(inventory: seq<InventoryItem>, form: ProductForm, station: Station,
                                   id: string, field: QuantityField, value: string,
                                   freshId: string, today: string)
    requires LedgerConsistent(inventory)
    ensures LedgerConsistent(UpdateInventory(inventory, id, field, value, today))
    ensures var r := AddInventoryItem(inventory, form, station, freshId, today);
      r.Ok? ==> LedgerConsistent(r.value.0)
  {
    var r := AddInventoryItem(inventory, form, station, freshId, today);
    if r.Ok? {
      var inv := r.value.0;
      forall i | 0 <= i < |inv| ensures DeliveredIsSum(inv[i]) {
        if i < |inventory| {
          assert inv[i] == inv[..|inventory|][i];
        }
      }
    }
  }

  /** Input that is not a number, or is empty, stores 0. */
  lemma UnparsableEditStoresZero(item: InventoryItem, field: QuantityField, value: string, today: string)
    requires ParseInt(value) == NaN
    ensures field == Sealed ==> EditItem(item, field, value, today).sealed == Num(0)
    ensures field == Loose ==> EditItem(item, field, value, today).loose == Num(0)
  {
  }

  /** Handing back the number an input displays leaves that count as it was. */
  lemma EditWithDisplayedValueKeepsCount(item: InventoryItem, today: string)
    requires item.sealed.Num?
    ensures EditItem(item, Sealed, IntToString(item.sealed.n), today).sealed == item.sealed
  {
    ParseIntOfIntToString(item.sealed.n);
  }

  /** The inventory the dashboard mounts with. */
  function SeedInventory(): seq<InventoryItem>
  {
    [ InventoryItem("1", "Espresso Beans", "kg", Num(25), Num(2), Num(27), "2025-10-20", CoffeeBar),
      InventoryItem("2", "Whole Milk", "no. of package", Num(12), Num(1), Num(13), "2025-10-21", CoffeeBar),
      InventoryItem("3", "Vanilla Syrup", "bottle", Num(5), Num(1), Num(6), "2025-10-20", CoffeeBar),
      InventoryItem("4", "Rice", "kg", Num(50), Num(5), Num(55), "2025-10-21", Kitchen),
      InventoryItem("5", "Cooking Oil", "bottle", Num(8), Num(2), Num(10), "2025-10-20", Kitchen),
      InventoryItem("6", "Salt", "kg", Num(10), Num(1), Num(11), "2025-10-19", Kitchen) ]
  }

  lemma SeedInventoryConsistent()
    ensures LedgerConsistent(SeedInventory())
  {
  }
}
