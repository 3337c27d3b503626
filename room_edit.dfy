/** The room edit dialog (src/components/RoomEditDialog.tsx): only rent and
    capacity can change. Saving runs three guards (rent, capacity,
    occupancy); a changed rent first asks for confirmation; the update logs
    one `room_edit_history` row per changed field and then writes both
    fields of the room. */
module RoomEdit {
  import opened Wrappers
  import Tally

  /** A tenant attached to the room, with its stored status string. */
  datatype RoomTenant = RoomTenant(id: string, status: string)

  /** The three error toasts of `handleSave`, in the order they are checked. */
  datatype EditError = RentNotPositive | CapacityNotPositiveInteger | CapacityBelowOccupancy

  /** One `room_edit_history` row: the field and its old and new values. */
  datatype HistoryEntry =
    | RentChanged(oldRent: real, newRent: real)
    | CapacityChanged(oldCapacity: int, newCapacity: int)

  /** What pressing "Save Changes" led to. */
  datatype SaveResult = Rejected(error: EditError) | AwaitingConfirmation | Saved | UpdateFailed

  // ------------------------------------------------------------ occupancy

  predicate IsActive(t: RoomTenant) { t.status == "active" }

  /** `activeTenants.length`: the tenants of the room whose status is
      exactly `'active'`. */
  function CurrentOccupancy(tenants: seq<RoomTenant>): (n: nat)
    ensures n <= |tenants|
  {
    Tally.Count(tenants, IsActive)
  }

  /** Occupancy counts active tenants one by one: a further tenant adds one
      exactly when it is active. */
  lemma OccupancyAppend(tenants: seq<RoomTenant>, t: RoomTenant)
    ensures CurrentOccupancy(tenants + [t]) == CurrentOccupancy(tenants) + (if IsActive(t) then 1 else 0)
  {
    Tally.FilterAppend(tenants, [t], IsActive);
  }

  /** "Available" in the dialog: `Math.max(0, capacity - occupancy)`. */
  function AvailableBeds(capacity: int, occupancy: nat): (r: nat)
    ensures r >= capacity - occupancy
    ensures r > 0 ==> r + occupancy == capacity
    ensures capacity >= occupancy ==> r + occupancy == capacity
  {
    if capacity - occupancy > 0 then capacity - occupancy else 0
  }

  /** Two active tenants fill a room of capacity 2; once one of them is
      inactive, one bed is free. */
  lemma OccupancyScenario()
    ensures AvailableBeds(2, CurrentOccupancy([RoomTenant("a", "active"), RoomTenant("b", "active")])) == 0
    ensures AvailableBeds(2, CurrentOccupancy([RoomTenant("a", "inactive"), RoomTenant("b", "active")])) == 1
  {
    OccupancyAppend([RoomTenant("a", "active")], RoomTenant("b", "active"));
    OccupancyAppend([], RoomTenant("a", "active"));
    OccupancyAppend([RoomTenant("a", "inactive")], RoomTenant("b", "active"));
    OccupancyAppend([], RoomTenant("a", "inactive"));
    assert [] + [RoomTenant("a", "active")] == [RoomTenant("a", "active")];
    assert [] + [RoomTenant("a", "inactive")] == [RoomTenant("a", "inactive")];
  }

  // ----------------------------------------------------------- validation

  /** The guard chain of `handleSave`. `!newRent` is true for NaN and 0,
      `!newCapacity` for NaN and 0. */
  function ValidateEdit(rent: ParsedReal, capacity: ParsedInt, occupancy: nat): (r: Outcome<EditError>)
    ensures r.Pass? <==>
      rent.Real? && rent.value > 0.0 && capacity.Int? && capacity.value >= 1 && capacity.value >= occupancy
    ensures !(rent.Real? && rent.value > 0.0) ==> r == Fail(RentNotPositive)
    ensures rent.Real? && rent.value > 0.0 && !(capacity.Int? && capacity.value >= 1) ==>
      r == Fail(CapacityNotPositiveInteger)
    ensures r == Fail(CapacityBelowOccupancy) <==>
      rent.Real? && rent.value > 0.0 && capacity.Int? && 1 <= capacity.value < occupancy
  {
    if rent.NotANumber? || rent.value <= 0.0 then Fail(RentNotPositive)
    else if capacity.NotAnInteger? || capacity.value < 1 then Fail(CapacityNotPositiveInteger)
    else if capacity.value < occupancy then Fail(CapacityBelowOccupancy)
    else Pass
  }

  /** A capacity equal to the occupancy is accepted and leaves no bed free. */
  lemma CapacityEqualToOccupancyAccepted(rent: real, occupancy: nat)
    requires rent > 0.0 && occupancy >= 1
    ensures ValidateEdit(Real(rent), Int(occupancy), occupancy) == Pass
    ensures AvailableBeds(occupancy, occupancy) == 0
  {
  }

  // --------------------------------------------------------------- history

  /** The history rows `updateRoom` inserts: rent first, then capacity, each
      only when it differs from the room's current value. */
  function EditHistory(oldRent: real, oldCapacity: int, rent: real, capacity: int): (h: seq<HistoryEntry>)
    ensures |h| <= 2
    ensures |h| == (if rent != oldRent then 1 else 0) + (if capacity != oldCapacity then 1 else 0)
    ensures rent != oldRent ==> h[0] == RentChanged(oldRent, rent)
    ensures RentChanged(oldRent, rent) in h <==> rent != oldRent
    ensures CapacityChanged(oldCapacity, capacity) in h <==> capacity != oldCapacity
    ensures forall e :: e in h ==> e == RentChanged(oldRent, rent) || e == CapacityChanged(oldCapacity, capacity)
  {
    (if rent != oldRent then [RentChanged(oldRent, rent)] else [])
      + (if capacity != oldCapacity then [CapacityChanged(oldCapacity, capacity)] else [])
  }

  /** The rows that actually land in `room_edit_history`. Each insert's
      `{ error }` is never read, so a failed insert leaves no row and the
      update goes on; `rentLogged` and `capacityLogged` say whether each
      insert would succeed. */
  function LoggedHistory(oldRent: real, oldCapacity: int, rent: real, capacity: int,
                         rentLogged: bool, capacityLogged: bool): (h: seq<HistoryEntry>)
    ensures rentLogged && capacityLogged ==> h == EditHistory(oldRent, oldCapacity, rent, capacity)
    ensures |h| == (if rent != oldRent && rentLogged then 1 else 0)
                 + (if capacity != oldCapacity && capacityLogged then 1 else 0)
    ensures rent != oldRent && rentLogged ==> h[0] == RentChanged(oldRent, rent)
    ensures RentChanged(oldRent, rent) in h <==> rent != oldRent && rentLogged
    ensures CapacityChanged(oldCapacity, capacity) in h <==> capacity != oldCapacity && capacityLogged
    ensures forall e :: e in h ==> e in EditHistory(oldRent, oldCapacity, rent, capacity)
  {
    (if rent != oldRent && rentLogged then [RentChanged(oldRent, rent)] else [])
      + (if capacity != oldCapacity && capacityLogged then [CapacityChanged(oldCapacity, capacity)] else [])
  }

  /** Applying history rows in order to a room's rent and capacity. */
  function Replay(rent: real, capacity: int, h: seq<HistoryEntry>): (real, int)
    decreases |h|
  {
    if |h| == 0 then (rent, capacity)
    else match h[0]
      case RentChanged(_, n) => Replay(n, capacity, h[1..])
      case CapacityChanged(_, n) => Replay(rent, n, h[1..])
  }

  /** Every history row records a real change. */
  ghost predicate RecordsChanges(h: seq<HistoryEntry>) {
    forall e :: e in h ==> match e
      case RentChanged(o, n) => o != n
      case CapacityChanged(o, n) => o != n
  }

  /** The logged rows are enough to redo the edit: replaying them on the
      old values gives the new values, and each of them records a change. */
  lemma EditHistoryReplays(oldRent: real, oldCapacity: int, rent: real, capacity: int)
    ensures Replay(oldRent, oldCapacity, EditHistory(oldRent, oldCapacity, rent, capacity)) == (rent, capacity)
    ensures RecordsChanges(EditHistory(oldRent, oldCapacity, rent, capacity))
  {
    var h := EditHistory(oldRent, oldCapacity, rent, capacity);
    var r, c := RentChanged(oldRent, rent), CapacityChanged(oldCapacity, capacity);
    if rent != oldRent && capacity != oldCapacity {
      assert h == [r, c] && h[1..] == [c] && h[1..][1..] == [];
      assert Replay(rent, oldCapacity, h[1..]) == Replay(rent, capacity, []);
    } else if rent != oldRent {
      assert h == [r] && h[1..] == [];
    } else if capacity != oldCapacity {
      assert h == [c] && h[1..] == [];
    } else {
      assert h == [];
    }
  }

  // ------------------------------------------------------------ the dialog

  /** The dialog's state: the room's stored rent and capacity, the
      `room_edit_history` rows, the parsed form inputs and whether the rent
      confirmation is open. */
  class RoomEditor {
    const tenants: seq<RoomTenant>
    var rentAmount: real
    var capacity: int
    var history: seq<HistoryEntry>
    var rentInput: ParsedReal
    var capacityInput: ParsedInt
    var showConfirmation: bool

    /** The confirmation is only open for valid inputs with a new rent (the
        form cannot be edited behind it), and every history row records a
        change. */
    ghost predicate Valid()
      reads this
    {
      && (showConfirmation ==>
            && ValidateEdit(rentInput, capacityInput, CurrentOccupancy(tenants)).Pass?
            && rentInput.value != rentAmount)
      && RecordsChanges(history)
    }

    /** Opening the dialog on a room pre-fills the form with its values. */
    constructor (tenants: seq<RoomTenant>, rentAmount: real, capacity: int)
      ensures Valid()
      ensures this.tenants == tenants && this.rentAmount == rentAmount && this.capacity == capacity
      ensures history == [] && !showConfirmation
      ensures rentInput == Real(rentAmount) && capacityInput == Int(capacity)
    {
      this.tenants := tenants;
      this.rentAmount := rentAmount;
      this.capacity := capacity;
      history := [];
      rentInput := Real(rentAmount);
      capacityInput := Int(capacity);
      showConfirmation := false;
    }

    /** Typing into the rent and capacity inputs. */
    method EditInputs(rent: ParsedReal, cap: ParsedInt)
      requires Valid() && !showConfirmation
      modifies this`rentInput, this`capacityInput
      ensures Valid()
      ensures rentInput == rent && capacityInput == cap
    {
      rentInput, capacityInput := rent, cap;
    }

    /** `updateRoom`: insert the history rows (a failed insert leaves no
        row and is not noticed), then write both fields; only a successful
        write closes the dialog's confirmation. */
    method UpdateRoom(rent: real, cap: int, rentLogged: bool, capacityLogged: bool, updateOk: bool)
      returns (result: SaveResult)
      requires Valid()
      modifies this`history, this`rentAmount, this`capacity, this`showConfirmation
      ensures Valid()
      ensures history == old(history) + LoggedHistory(old(rentAmount), old(capacity), rent, cap, rentLogged, capacityLogged)
      ensures updateOk ==> result == Saved && rentAmount == rent && capacity == cap && !showConfirmation
      ensures !updateOk ==>
        result == UpdateFailed && rentAmount == old(rentAmount) && capacity == old(capacity)
        && showConfirmation == old(showConfirmation)
    {
      EditHistoryReplays(rentAmount, capacity, rent, cap);
      history := history + LoggedHistory(rentAmount, capacity, rent, cap, rentLogged, capacityLogged);
      if updateOk {
        rentAmount, capacity := rent, cap;
        showConfirmation := false;
        result := Saved;
      } else {
        result := UpdateFailed;
      }
    }

    /** `handleSave`: reject with the first failing guard, ask for
        confirmation when the rent changes, otherwise update at once (only
        a capacity row can then be logged, if its insert succeeds). */
    method HandleSave(capacityLogged: bool, updateOk: bool) returns (result: SaveResult)
      requires Valid() && !showConfirmation
      modifies this`history, this`rentAmount, this`capacity, this`showConfirmation
      ensures Valid()
      ensures ValidateEdit(rentInput, capacityInput, CurrentOccupancy(tenants)).Fail? ==>
        && result == Rejected(ValidateEdit(rentInput, capacityInput, CurrentOccupancy(tenants)).error)
        && history == old(history) && rentAmount == old(rentAmount) && capacity == old(capacity)
        && !showConfirmation
      ensures ValidateEdit(rentInput, capacityInput, CurrentOccupancy(tenants)).Pass? && rentInput.value != old(rentAmount) ==>
        && result == AwaitingConfirmation && showConfirmation
        && history == old(history) && rentAmount == old(rentAmount) && capacity == old(capacity)
      ensures ValidateEdit(rentInput, capacityInput, CurrentOccupancy(tenants)).Pass? && rentInput.value == old(rentAmount) ==>
        && history == old(history)
             + (if capacityInput.value != old(capacity) && capacityLogged
                then [CapacityChanged(old(capacity), capacityInput.value)] else [])
        && (updateOk ==> result == Saved && capacity == capacityInput.value)
        && (!updateOk ==> result == UpdateFailed && capacity == old(capacity))
        && rentAmount == old(rentAmount) && !showConfirmation
    {
      var check := ValidateEdit(rentInput, capacityInput, CurrentOccupancy(tenants));
      if check.Fail? {
        result := Rejected(check.error);
        return;
      }
      if rentInput.value != rentAmount {
        showConfirmation := true;
        result := AwaitingConfirmation;
        return;
      }
      result := UpdateRoom(rentInput.value, capacityInput.value, true, capacityLogged, updateOk);
    }

    /** `handleConfirmRentChange`: the "Continue" button of the open
        confirmation updates the room with the form's values, which passed
        the guards when the confirmation opened. The button is the alert
        dialog's action, which closes the confirmation whatever the update
        returns. */
    method ConfirmRentChange(rentLogged: bool, capacityLogged: bool, updateOk: bool) returns (result: SaveResult)
      requires Valid() && showConfirmation
      modifies this`history, this`rentAmount, this`capacity, this`showConfirmation
      ensures Valid() && !showConfirmation
      ensures history == old(history)
        + LoggedHistory(old(rentAmount), old(capacity), rentInput.value, capacityInput.value, rentLogged, capacityLogged)
      ensures rentLogged ==> |history| > |old(history)|
      ensures updateOk ==>
        result == Saved && rentAmount == rentInput.value && capacity == capacityInput.value
        && capacity >= CurrentOccupancy(tenants)
      ensures !updateOk ==>
        result == UpdateFailed && rentAmount == old(rentAmount) && capacity == old(capacity)
    {
      result := UpdateRoom(rentInput.value, capacityInput.value, rentLogged, capacityLogged, updateOk);
      showConfirmation := false;
    }

    /** The "Cancel" button of the confirmation. */
    method CancelConfirmation()
      requires Valid()
      modifies this`showConfirmation
      ensures Valid() && !showConfirmation
    {
      showConfirmation := false;
    }
  }
}
