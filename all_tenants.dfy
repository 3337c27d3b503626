/** The "All Tenants" page (src/pages/AllTenants.tsx): a case-insensitive
    search over the owner's tenants, split into pages of ten with Previous
    and Next buttons, and a status badge per tenant. */
module AllTenants {
  import opened Wrappers
  import opened Badges
  import Text
  import Tally

  /** `tenantsPerPage`. */
  const TenantsPerPage: nat := 10

  /** The joined `rooms` row; a tenant without a room has none. */
  datatype RoomRef = RoomRef(roomNumber: string, roomType: string)

  datatype Tenant = Tenant(
    id: string,
    fullName: string,
    phone: string,
    email: string,
    status: string,
    room: Option<RoomRef>)

  // ---------------------------------------------------------------- search

  /** The room number takes part only when the tenant has a room and its
      number is not the empty string (`rooms?.room_number && ...`). */
  predicate RoomMatches(t: Tenant, term: string) {
    t.room.Some? && t.room.value.roomNumber != "" && Text.MatchesTerm(t.room.value.roomNumber, term)
  }

  predicate MatchesSearch(t: Tenant, term: string) {
    Text.MatchesTerm(t.fullName, term) || Text.MatchesTerm(t.phone, term)
    || Text.MatchesTerm(t.email, term) || RoomMatches(t, term)
  }

  /** `filteredTenants`. */
  function FilteredTenants(tenants: seq<Tenant>, term: string): (r: seq<Tenant>)
    ensures forall t :: t in r <==> t in tenants && MatchesSearch(t, term)
  {
    Tally.Filter(tenants, t => MatchesSearch(t, term))
  }

  /** A tenant without a room is found only through name, phone or email. */
  lemma NoRoomNoRoomMatch(t: Tenant, term: string)
    requires t.room.None?
    ensures MatchesSearch(t, term) <==>
      Text.MatchesTerm(t.fullName, term) || Text.MatchesTerm(t.phone, term) || Text.MatchesTerm(t.email, term)
  {
  }

  /** An empty search shows every tenant. */
  lemma EmptySearchKeepsAll(tenants: seq<Tenant>)
    ensures FilteredTenants(tenants, "") == tenants
  {
    forall k | 0 <= k < |tenants| ensures MatchesSearch(tenants[k], "") {
      Text.MatchesEmptyTerm(tenants[k].fullName);
    }
    Tally.FilterKeepsAll(tenants, t => MatchesSearch(t, ""));
  }

  /** The search keeps the tenants in their fetched (name) order. */
  lemma SearchKeepsOrder(a: seq<Tenant>, b: seq<Tenant>, term: string)
    ensures FilteredTenants(a + b, term) == FilteredTenants(a, term) + FilteredTenants(b, term)
  {
    Tally.FilterAppend(a, b, t => MatchesSearch(t, term));
  }

  // ------------------------------------------------------------ pagination

  /** `Math.ceil(n / tenantsPerPage)`: the fewest pages of ten that hold n
      tenants. */
  function TotalPages(n: nat): (pages: nat)
    ensures pages * TenantsPerPage >= n
    ensures pages == 0 || (pages - 1) * TenantsPerPage < n
    ensures pages == 0 <==> n == 0
  {
    (n + TenantsPerPage - 1) / TenantsPerPage
  }

  /** `filteredTenants.slice(startIndex, startIndex + tenantsPerPage)` with
      `startIndex = (page - 1) * tenantsPerPage`; `slice` stops at the end of
      the list and gives nothing from a start beyond it. */
  function PageSlice<T>(s: seq<T>, page: nat): (r: seq<T>)
    requires page >= 1
    ensures |r| <= TenantsPerPage
    ensures |r| == 0 || (page - 1) * TenantsPerPage + |r| <= |s|
    ensures forall i :: 0 <= i < |r| ==> r[i] == s[(page - 1) * TenantsPerPage + i]
    ensures |r| == 0 <==> page > TotalPages(|s|)
    ensures page < TotalPages(|s|) ==> |r| == TenantsPerPage
  {
    var start := (page - 1) * TenantsPerPage;
    if start >= |s| then []
    else if start + TenantsPerPage >= |s| then s[start..]
    else s[start..start + TenantsPerPage]
  }

  /** Pages `page`, `page + 1`, ..., `TotalPages(|s|)` one after another. */
  function PagesFrom<T>(s: seq<T>, page: nat): seq<T>
    requires page >= 1
    decreases TotalPages(|s|) + 1 - page
  {
    if page > TotalPages(|s|) then [] else PageSlice(s, page) + PagesFrom(s, page + 1)
  }

  /** From any page that starts inside the list, the remaining pages hold
      exactly the rest of the list. */
  lemma {:induction false} PagesFromSuffix<T>(s: seq<T>, page: nat)
    requires page >= 1 && (page - 1) * TenantsPerPage <= |s|
    ensures PagesFrom(s, page) == s[(page - 1) * TenantsPerPage..]
    decreases TotalPages(|s|) + 1 - page
  {
    var start := (page - 1) * TenantsPerPage;
    if page > TotalPages(|s|) {
      assert start == |s|;
    } else if start + TenantsPerPage < |s| {
      PagesFromSuffix(s, page + 1);
      assert s[start..] == s[start..start + TenantsPerPage] + s[start + TenantsPerPage..];
    } else {
      assert PagesFrom(s, page + 1) == [];
      assert PageSlice(s, page) == s[start..];
    }
  }

  /** Reading pages 1 to `totalPages` in turn shows every filtered tenant
      exactly once, in order. */
  lemma PagesCoverList<T>(s: seq<T>)
    ensures PagesFrom(s, 1) == s
  {
    PagesFromSuffix(s, 1);
  }

  /** The Previous/Next controls are drawn only when there is more than one
      page. */
  predicate ShowsPagination(totalPages: nat) { totalPages > 1 }

  // ---------------------------------------------------------------- badges

  /** `getStatusBadge`. */
  function StatusBadge(status: string): (b: Badge)
    ensures b.caption == status <==> status !in {"active", "inactive", "notice_period"}
    ensures status == "active" ==> b == Badge("Active", Success)
    ensures status == "inactive" ==> b == Badge("Inactive", Muted)
    ensures status == "notice_period" ==> b == Badge("Notice Period", Warning)
    ensures status !in {"active", "inactive", "notice_period"} ==> b == Badge(status, Muted)
    ensures status != "active" && status != "notice_period" ==> b.tone == Muted
  {
    match status
    case "active" => Badge("Active", Success)
    case "inactive" => Badge("Inactive", Muted)
    case "notice_period" => Badge("Notice Period", Warning)
    case _ => Badge(status, Muted)
  }

  // ------------------------------------------------------------------ page

  /** The page's state: the fetched tenants, the search box and the current
      page number. */
  class TenantDirectory {
    const tenants: seq<Tenant>
    var searchTerm: string
    var currentPage: nat

    ghost predicate Valid()
      reads this
    {
      currentPage >= 1
    }

    function Filtered(): seq<Tenant>
      reads this
    {
      FilteredTenants(tenants, searchTerm)
    }

    function PageCount(): nat
      reads this
    {
      TotalPages(|Filtered()|)
    }

    /** `currentTenants`: the tenants listed on the current page; empty
        ("No tenants found") exactly when the page lies beyond the last. */
    function CurrentTenants(): (r: seq<Tenant>)
      requires Valid()
      reads this
      ensures |r| <= TenantsPerPage
      ensures forall t :: t in r ==> t in tenants && MatchesSearch(t, searchTerm)
      ensures |r| == 0 <==> currentPage > PageCount()
    {
      PageSlice(Filtered(), currentPage)
    }

    /** Fresh page: the fetched tenants, an empty search, page 1. */
    constructor (fetched: seq<Tenant>)
      ensures Valid()
      ensures tenants == fetched && searchTerm == "" && currentPage == 1
      ensures Filtered() == fetched
    {
      tenants := fetched;
      searchTerm := "";
      currentPage := 1;
      EmptySearchKeepsAll(fetched);
    }

    /** Typing in the search box. The page number is kept as it is, so a
        narrower search can leave the page past the last one. */
    method SetSearchTerm(term: string)
      requires Valid()
      modifies this`searchTerm
      ensures Valid()
      ensures searchTerm == term && currentPage == old(currentPage)
      ensures currentPage > PageCount() ==> CurrentTenants() == []
    {
      searchTerm := term;
    }

    /** Previous: `Math.max(prev - 1, 1)`. */
    method Previous()
      requires Valid()
      modifies this`currentPage
      ensures Valid()
      ensures currentPage == if old(currentPage) > 1 then old(currentPage) - 1 else 1
      ensures old(currentPage) <= PageCount() ==> currentPage <= PageCount()
    {
      if currentPage > 1 {
        currentPage := currentPage - 1;
      }
    }

    /** Next: `Math.min(prev + 1, totalPages)`, reachable only while the
        controls are shown. From a page past the last it jumps back to the
        last page. */
    method Next()
      requires Valid() && ShowsPagination(PageCount())
      modifies this`currentPage
      ensures Valid()
      ensures 1 <= currentPage <= PageCount()
      ensures old(currentPage) < PageCount() ==> currentPage == old(currentPage) + 1
      ensures old(currentPage) >= PageCount() ==> currentPage == PageCount()
      ensures |CurrentTenants()| > 0
    {
      var total := PageCount();
      currentPage := if currentPage + 1 < total then currentPage + 1 else total;
    }
  }
}
