/** The owner's inventory page (src/components/OwnerInventoryPage.tsx):
    stock-level lists, the owner's delivery columns, and the delete mode
    with its multi-selection. */
module OwnerInventory {
  import opened Common
  import opened Seqs
  import opened App

  datatype StockStatus = Good | Low | Critical

  datatype OwnerItem = OwnerItem(
    id: string,
    productName: string,
    sealed: int,
    loose: int,
    unit: string,
    status: StockStatus,
    dateDelivered: string,
    lastUpdated: string,
    ownerDelivered: string,
    ownerDateDelivered: string,
    station: Station)

  /** `inventory`, `deleteMode`, `selectedItems`. */
  datatype State = State(inventory: seq<OwnerItem>, deleteMode: bool, selected: seq<string>)

  datatype DeleteError = NothingSelected

  function HasStatus(status: StockStatus): OwnerItem -> bool
  {
    (item: OwnerItem) => item.status == status
  }

  /** The critical and low-stock alert lists. */
  function ItemsWithStatus(inventory: seq<OwnerItem>, status: StockStatus): (r: seq<OwnerItem>)
    ensures forall item :: item in r ==> item in inventory && item.status == status
    ensures forall item :: item in inventory && item.status == status ==> item in r
    ensures IsSubseq(r, inventory)
    ensures |r| == CountIf(inventory, HasStatus(status))
  {
    Filter(inventory, HasStatus(status))
  }

  /** No item is on both alert lists, and together they are no longer than
      the inventory. */
  lemma AlertListsDisjoint(inventory: seq<OwnerItem>)
    ensures forall item :: item in ItemsWithStatus(inventory, Critical) ==> item !in ItemsWithStatus(inventory, Low)
    ensures |ItemsWithStatus(inventory, Critical)| + |ItemsWithStatus(inventory, Low)| <= |inventory|
  {
    CountDisjoint(inventory, HasStatus(Critical), HasStatus(Low));
  }

  /** `handleOwnerDeliveredChange`: only `ownerDelivered` of the rows with the id changes. */
  function SetOwnerDelivered(inventory: seq<OwnerItem>, id: string, value: string): (r: seq<OwnerItem>)
    ensures |r| == |inventory|
    ensures forall i :: 0 <= i < |r| && inventory[i].id != id ==> r[i] == inventory[i]
    ensures forall i :: 0 <= i < |r| && inventory[i].id == id ==> r[i] == inventory[i].(ownerDelivered := value)
  {
    seq(|inventory|, i requires 0 <= i < |inventory| =>
      if inventory[i].id == id then inventory[i].(ownerDelivered := value) else inventory[i])
  }

  /** `handleOwnerDateDeliveredChange`: only `ownerDateDelivered` of the rows with the id changes. */
  function SetOwnerDateDelivered(inventory: seq<OwnerItem>, id: string, value: string): (r: seq<OwnerItem>)
    ensures |r| == |inventory|
    ensures forall i :: 0 <= i < |r| && inventory[i].id != id ==> r[i] == inventory[i]
    ensures forall i :: 0 <= i < |r| && inventory[i].id == id ==> r[i] == inventory[i].(ownerDateDelivered := value)
  {
    seq(|inventory|, i requires 0 <= i < |inventory| =>
      if inventory[i].id == id then inventory[i].(ownerDateDelivered := value) else inventory[i])
  }

  /** The owner's inputs are disabled while delete mode is on. */
  predicate OwnerInputsEnabled(s: State)
  {
    !s.deleteMode
  }

  /** `handleToggleDeleteMode`: flip the mode and drop any selection. */
  function ToggleDeleteMode(s: State): (r: State)
    ensures r.deleteMode == !s.deleteMode
    ensures r.selected == []
    ensures r.inventory == s.inventory
  {
    s.(deleteMode := !s.deleteMode, selected := [])
  }

  function IsNot(id: string): string -> bool
  {
    (x: string) => x != id
  }

  /** `handleSelectItem`: a selected id is removed (every copy of it), an
      unselected one is appended. */
  function SelectItem(selected: seq<string>, id: string): (r: seq<string>)
    ensures id in selected ==> id !in r
    ensures id !in selected ==> id in r
    ensures forall x :: x in r && x != id ==> x in selected
    ensures forall x :: x in selected && x != id ==> x in r
    ensures NoDuplicates(selected) ==> NoDuplicates(r)
  {
    if id in selected then
      var r := Filter(selected, IsNot(id));
      assert NoDuplicates(selected) ==> NoDuplicates(r) by {
        if NoDuplicates(selected) {
          SubseqKeepsNoDuplicates(r, selected);
        }
      }
      r
    else selected + [id]
  }

  /** Selecting the same item twice restores the set of selected ids. */
  lemma SelectTwiceRestoresSet(selected: seq<string>, id: string)
    ensures forall x :: x in SelectItem(SelectItem(selected, id), id) ==> x in selected
    ensures forall x :: x in selected ==> x in SelectItem(SelectItem(selected, id), id)
  {
  }

  function AtStation(st: Station): OwnerItem -> bool
  {
    (item: OwnerItem) => item.station == st
  }

  function IdOf(item: OwnerItem): string
  {
    item.id
  }

  /** The ids of one station's rows, in order. */
  function StationIds(inventory: seq<OwnerItem>, st: Station): (ids: seq<string>)
    ensures forall item :: item in inventory && item.station == st ==> item.id in ids
    ensures forall x :: x in ids ==> exists item :: item in inventory && item.station == st && item.id == x
  {
    var rows := Filter(inventory, AtStation(st));
    var ids := Map(rows, IdOf);
    assert forall x :: x in ids ==> exists item :: item in inventory && item.station == st && item.id == x by {
      forall x | x in ids ensures exists item :: item in inventory && item.station == st && item.id == x {
        var i :| 0 <= i < |rows| && IdOf(rows[i]) == x;
        assert rows[i] in rows;
      }
    }
    ids
  }

  /** The header checkbox of a station table is ticked when every id of the
      station is selected (so also when the station has no rows). */
  predicate AllStationSelected(inventory: seq<OwnerItem>, selected: seq<string>, st: Station)
  {
    forall x :: x in StationIds(inventory, st) ==> x in selected
  }

  function NotIn(ids: seq<string>): string -> bool
  {
    (x: string) => x !in ids
  }

  /** `handleSelectAll(station)`: with every row of the station already
      selected, their ids are removed; otherwise they are added, dropping
      repeats and keeping first occurrences. */
  function SelectAll(inventory: seq<OwnerItem>, selected: seq<string>, st: Station): (r: seq<string>)
    ensures AllStationSelected(inventory, selected, st) ==>
      && (forall x :: x in r ==> x in selected && x !in StationIds(inventory, st))
      && (forall x :: x in selected && x !in StationIds(inventory, st) ==> x in r)
      && IsSubseq(r, selected)
      && |r| == CountIf(selected, NotIn(StationIds(inventory, st)))
      && (NoDuplicates(selected) ==> NoDuplicates(r))
    ensures !AllStationSelected(inventory, selected, st) ==>
      && NoDuplicates(r)
      && (forall x :: x in r ==> x in selected || x in StationIds(inventory, st))
      && (forall x :: x in selected ==> x in r)
      && (forall x :: x in StationIds(inventory, st) ==> x in r)
  {
    var ids := StationIds(inventory, st);
    if AllStationSelected(inventory, selected, st) then
      var r := Filter(selected, NotIn(ids));
      assert NoDuplicates(selected) ==> NoDuplicates(r) by {
        if NoDuplicates(selected) {
          SubseqKeepsNoDuplicates(r, selected);
        }
      }
      r
    else Distinct(selected + ids)
  }

  /** On a station with no rows the checkbox counts as ticked, so select-all
      changes nothing. */
  lemma SelectAllOnEmptyStation(inventory: seq<OwnerItem>, selected: seq<string>, st: Station)
    requires forall item :: item in inventory ==> item.station != st
    ensures SelectAll(inventory, selected, st) == selected
  {
    var ids := StationIds(inventory, st);
    assert ids == [];
    FilterAll(selected, NotIn(ids));
  }

  /** After select-all on a station that was not fully selected, it is fully
      selected. */
  lemma SelectAllCompletesStation(inventory: seq<OwnerItem>, selected: seq<string>, st: Station)
    requires !AllStationSelected(inventory, selected, st)
    ensures AllStationSelected(inventory, SelectAll(inventory, selected, st), st)
  {
  }

  function NotSelected(selected: seq<string>): OwnerItem -> bool
  {
    (item: OwnerItem) => item.id !in selected
  }

  /** `handleDeleteSelected`: refused with nothing selected; otherwise the
      rows whose id is selected go, the rest stay in order, the selection is
      emptied and delete mode ends. */
  function DeleteSelected(s: State): (r: Result<State, DeleteError>)
    ensures r.Err? <==> |s.selected| == 0
    ensures r.Ok? ==>
      && (forall item :: item in r.value.inventory ==> item in s.inventory && item.id !in s.selected)
      && (forall item :: item in s.inventory && item.id !in s.selected ==> item in r.value.inventory)
      && IsSubseq(r.value.inventory, s.inventory)
      && |r.value.inventory| == CountIf(s.inventory, NotSelected(s.selected))
      && r.value.selected == []
      && !r.value.deleteMode
  {
    if |s.selected| == 0 then Err(NothingSelected)
    else Ok(s.(inventory := Filter(s.inventory, NotSelected(s.selected)), deleteMode := false, selected := []))
  }

  function IsSelectedIn(selected: seq<string>): OwnerItem -> bool
  {
    (item: OwnerItem) => item.id in selected
  }

  /** Deleting shrinks the inventory by exactly the number of rows whose id
      is selected. */
  lemma DeleteSelectedRemovesSelectedRows(s: State)
    requires |s.selected| > 0
    ensures |DeleteSelected(s).value.inventory| + CountIf(s.inventory, IsSelectedIn(s.selected)) == |s.inventory|
  {
    CountComplement(s.inventory, NotSelected(s.selected), IsSelectedIn(s.selected));
  }

  /** No two rows share an id. */
  predicate UniqueRowIds(inventory: seq<OwnerItem>)
  {
    forall i, j :: 0 <= i < j < |inventory| ==> inventory[i].id != inventory[j].id
  }

  function NotAtStation(st: Station): OwnerItem -> bool
  {
    (item: OwnerItem) => item.station != st
  }

  /** With distinct row ids, a row's id belongs to a station's ids exactly
      when the row is at that station. */
  lemma StationIdsOfUniqueRows(inventory: seq<OwnerItem>, st: Station, x: OwnerItem)
    requires UniqueRowIds(inventory)
    requires x in inventory
    ensures x.id in StationIds(inventory, st) <==> x.station == st
  {
  }

  /** Entering delete mode, ticking a station's header checkbox and deleting
      removes exactly that station's rows, when row ids are distinct and the
      station has a row. */
  lemma SelectStationThenDelete(s: State, st: Station)
    requires UniqueRowIds(s.inventory)
    requires exists item :: item in s.inventory && item.station == st
    ensures var t := ToggleDeleteMode(s);
      var r := DeleteSelected(t.(selected := SelectAll(t.inventory, t.selected, st)));
      r.Ok? && r.value.inventory == Filter(s.inventory, NotAtStation(st))
  {
    var inventory := s.inventory;
    var ids := StationIds(inventory, st);
    var item :| item in inventory && item.station == st;
    assert item.id in ids;
    assert !AllStationSelected(inventory, [], st);
    var sel := SelectAll(inventory, [], st);
    assert forall x :: x in sel <==> x in ids;
    forall x | x in inventory ensures NotSelected(sel)(x) <==> NotAtStation(st)(x) {
      StationIdsOfUniqueRows(inventory, st, x);
    }
    FilterCongruent(inventory, NotSelected(sel), NotAtStation(st));
  }
}
