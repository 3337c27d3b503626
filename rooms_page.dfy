/** The "Rooms" page (src/pages/Rooms.tsx): room cards with a status badge
    and, for an occupied room, a tenant panel; a search box; an "Add Room"
    dialog; and three summary cards (total, occupied, vacant). */
module RoomsPage {
  import opened Wrappers
  import opened Badges
  import Text
  import Tally

  /** A room card; `tenant` and `tenantPhone` are `null` for an empty room. */
  datatype Room = Room(
    id: int,
    number: string,
    roomType: string,
    rent: int,
    status: string,
    tenant: Option<string>,
    tenantPhone: Option<string>,
    floor: int)

  /** The "Add Room" form, every field the text of its input. */
  datatype NewRoom = NewRoom(number: string, roomType: string, rent: string, floor: string)

  /** `newRoom` as the page starts and after every add. */
  const EmptyNewRoom: NewRoom := NewRoom("", "", "", "")

  // ---------------------------------------------------------------- search

  /** `room.tenant && ...`: a `null` or empty tenant name takes no part. */
  predicate TenantMatches(r: Room, term: string) {
    r.tenant.Some? && r.tenant.value != "" && Text.MatchesTerm(r.tenant.value, term)
  }

  predicate MatchesSearch(r: Room, term: string) {
    Text.MatchesTerm(r.number, term) || Text.MatchesTerm(r.roomType, term) || TenantMatches(r, term)
  }

  /** `filteredRooms`. */
  function FilteredRooms(rooms: seq<Room>, term: string): (r: seq<Room>)
    ensures forall x :: x in r <==> x in rooms && MatchesSearch(x, term)
  {
    Tally.Filter(rooms, x => MatchesSearch(x, term))
  }

  /** An empty room is found only by its number or type. */
  lemma EmptyRoomMatchesOnRoomOnly(r: Room, term: string)
    requires r.tenant.None?
    ensures MatchesSearch(r, term) <==> Text.MatchesTerm(r.number, term) || Text.MatchesTerm(r.roomType, term)
  {
  }

  /** An empty search lists every room. */
  lemma EmptySearchKeepsAll(rooms: seq<Room>)
    ensures FilteredRooms(rooms, "") == rooms
  {
    forall k | 0 <= k < |rooms| ensures MatchesSearch(rooms[k], "") {
      Text.MatchesEmptyTerm(rooms[k].number);
    }
    Tally.FilterKeepsAll(rooms, x => MatchesSearch(x, ""));
  }

  /** The search keeps the rooms in list order. */
  lemma SearchKeepsOrder(a: seq<Room>, b: seq<Room>, term: string)
    ensures FilteredRooms(a + b, term) == FilteredRooms(a, term) + FilteredRooms(b, term)
  {
    Tally.FilterAppend(a, b, x => MatchesSearch(x, term));
  }

  // ------------------------------------------------------- badge and panel

  /** `getStatusBadge`: "Occupied" for `"occupied"`, "Vacant" for anything
      else. */
  function StatusBadge(status: string): (b: Badge)
    ensures b.caption == "Occupied" <==> status == "occupied"
    ensures b.caption == "Vacant" <==> status != "occupied"
    ensures b.tone == (if status == "occupied" then OccupiedTone else VacantTone)
  {
    if status == "occupied" then Badge("Occupied", OccupiedTone) else Badge("Vacant", VacantTone)
  }

  /** The tenant panel: drawn for an occupied room with a non-empty tenant
      name; it always sits under an "Occupied" badge. */
  predicate ShowsTenantPanel(r: Room)
    ensures ShowsTenantPanel(r) ==> StatusBadge(r.status) == Badge("Occupied", OccupiedTone) && r.tenant.Some?
  {
    r.status == "occupied" && r.tenant.Some? && r.tenant.value != ""
  }

  lemma TenantPanelOnlyWhenOccupied(r: Room)
    ensures ShowsTenantPanel(r) ==> StatusBadge(r.status).caption == "Occupied" && r.tenant.Some?
    ensures r.tenant.None? ==> !ShowsTenantPanel(r)
  {
  }

  // ---------------------------------------------------------------- counts

  predicate IsOccupied(r: Room) { r.status == "occupied" }
  predicate IsVacant(r: Room) { r.status == "vacant" }
  predicate OccupiedOrVacant(r: Room) { IsOccupied(r) || IsVacant(r) }
  predicate BadgedVacant(r: Room) { StatusBadge(r.status).caption == "Vacant" }

  /** The "Occupied" and "Vacant" cards never add up to more than "Total
      Rooms". */
  lemma CountsWithinTotal(rooms: seq<Room>)
    ensures Tally.Count(rooms, IsOccupied) + Tally.Count(rooms, IsVacant) <= |rooms|
  {
    Tally.CountDisjoint(rooms, IsOccupied, IsVacant, OccupiedOrVacant);
  }

  /** The "Vacant" card counts only `"vacant"` rooms while the badge calls
      every other status vacant (the database also knows
      `"under_maintenance"`), so the card can show fewer rooms than carry
      a "Vacant" badge. */
  lemma VacantCardWithinVacantBadges(rooms: seq<Room>)
    ensures Tally.Count(rooms, IsVacant) <= Tally.Count(rooms, BadgedVacant)
  {
    Tally.CountMonotone(rooms, IsVacant, BadgedVacant);
  }

  lemma UnknownStatusBadgedButNotCounted()
    ensures BadgedVacant(Room(7, "D-401", "Single", 8000, "under_maintenance", None, None, 4))
    ensures !IsVacant(Room(7, "D-401", "Single", 8000, "under_maintenance", None, None, 4))
  {
  }

  // ------------------------------------------------------------------ page

  /** The page's state: its fixed room list, the "Add Room" form and whether
      its dialog is open. */
  class RoomsScreen {
    const rooms: seq<Room>
    var newRoom: NewRoom
    var addDialogOpen: bool

    constructor (listed: seq<Room>)
      ensures rooms == listed && newRoom == EmptyNewRoom && !addDialogOpen
    {
      rooms := listed;
      newRoom := EmptyNewRoom;
      addDialogOpen := false;
    }

    /** The dialog trigger and its close button. */
    method SetAddDialogOpen(open: bool)
      modifies this`addDialogOpen
      ensures addDialogOpen == open
    {
      addDialogOpen := open;
    }

    /** Typing into the form. */
    method EditNewRoom(form: NewRoom)
      modifies this`newRoom
      ensures newRoom == form
    {
      newRoom := form;
    }

    /** `handleAddRoom`: the room is not stored anywhere; the form goes
        back to four empty fields and the dialog closes. */
    method HandleAddRoom()
      modifies this`newRoom, this`addDialogOpen
      ensures newRoom == EmptyNewRoom && !addDialogOpen
      ensures newRoom.number == "" && newRoom.roomType == "" && newRoom.rent == "" && newRoom.floor == ""
    {
      newRoom := EmptyNewRoom;
      addDialogOpen := false;
    }
  }
}
