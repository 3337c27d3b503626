/** The "Tenants" page (src/pages/Tenants.tsx): a list of tenants with a
    search box, status badges, initials avatars and four summary cards
    (total, active, on notice, retention rate). */
module TenantsPage {
  import opened Badges
  import Text
  import Tally

  datatype Tenant = Tenant(
    id: int,
    name: string,
    email: string,
    phone: string,
    room: string,
    joinDate: string,
    endDate: string,
    status: string)

  // ---------------------------------------------------------------- search

  predicate MatchesSearch(t: Tenant, term: string) {
    Text.MatchesTerm(t.name, term) || Text.MatchesTerm(t.email, term) || Text.MatchesTerm(t.room, term)
  }

  /** `filteredTenants`. */
  function FilteredTenants(tenants: seq<Tenant>, term: string): (r: seq<Tenant>)
    ensures forall t :: t in r <==> t in tenants && MatchesSearch(t, term)
  {
    Tally.Filter(tenants, t => MatchesSearch(t, term))
  }

  /** An empty search lists every tenant. */
  lemma EmptySearchKeepsAll(tenants: seq<Tenant>)
    ensures FilteredTenants(tenants, "") == tenants
  {
    forall k | 0 <= k < |tenants| ensures MatchesSearch(tenants[k], "") {
      Text.MatchesEmptyTerm(tenants[k].name);
    }
    Tally.FilterKeepsAll(tenants, t => MatchesSearch(t, ""));
  }

  /** The search keeps the tenants in list order. */
  lemma SearchKeepsOrder(a: seq<Tenant>, b: seq<Tenant>, term: string)
    ensures FilteredTenants(a + b, term) == FilteredTenants(a, term) + FilteredTenants(b, term)
  {
    Tally.FilterAppend(a, b, t => MatchesSearch(t, term));
  }

  // ---------------------------------------------------------------- badges

  /** `getStatusBadge`: three fixed badges, any other status shown as it is. */
  function StatusBadge(status: string): (b: Badge)
    ensures b.caption == status <==> status !in {"active", "notice_period", "inactive"}
    ensures status == "active" ==> b == Badge("Active", Success)
    ensures status == "notice_period" ==> b == Badge("Notice Period", Warning)
    ensures status == "inactive" ==> b == Badge("Inactive", Outline)
    ensures status !in {"active", "notice_period", "inactive"} ==> b == Badge(status, Outline)
    ensures status != "active" && status != "notice_period" ==> b.tone == Outline
  {
    match status
    case "active" => Badge("Active", Success)
    case "notice_period" => Badge("Notice Period", Warning)
    case "inactive" => Badge("Inactive", Outline)
    case _ => Badge(status, Outline)
  }

  // ---------------------------------------------------------------- counts

  predicate IsActive(t: Tenant) { t.status == "active" }
  predicate OnNotice(t: Tenant) { t.status == "notice_period" }
  predicate ActiveOrOnNotice(t: Tenant) { IsActive(t) || OnNotice(t) }

  /** The "Active" and "Notice Period" cards together never count more
      tenants than "Total Tenants". */
  lemma StatusCountsWithinTotal(tenants: seq<Tenant>)
    ensures Tally.Count(tenants, IsActive) + Tally.Count(tenants, OnNotice) <= |tenants|
    ensures Tally.Count(tenants, IsActive) + Tally.Count(tenants, OnNotice) == Tally.Count(tenants, ActiveOrOnNotice)
  {
    Tally.CountDisjoint(tenants, IsActive, OnNotice, ActiveOrOnNotice);
  }

  /** "Retention Rate": `Math.round(active / total * 100)`; the page has no
      guard for an empty list. */
  function RetentionRate(tenants: seq<Tenant>): (pct: int)
    requires |tenants| > 0
    ensures 2 * |tenants| * pct <= 200 * Tally.Count(tenants, IsActive) + |tenants| < 2 * |tenants| * (pct + 1)
  {
    Tally.RoundedPercent(Tally.Count(tenants, IsActive), |tenants|)
  }

  /** The rate is a percentage; 100 when everyone is active, 0 when nobody is. */
  lemma RetentionRateBounds(tenants: seq<Tenant>)
    requires |tenants| > 0
    ensures 0 <= RetentionRate(tenants) <= 100
    ensures Tally.Count(tenants, IsActive) == |tenants| ==> RetentionRate(tenants) == 100
    ensures Tally.Count(tenants, IsActive) == 0 ==> RetentionRate(tenants) == 0
  {
    Tally.PercentBounds(Tally.Count(tenants, IsActive), |tenants|);
    Tally.PercentEnds(|tenants|);
  }

  // ------------------------------------------------------------ page data

  /** The four tenants the page lists. */
  function MockTenants(): seq<Tenant> {
    [ Tenant(1, "Rahul Sharma", "rahul.sharma@email.com", "+91 9876543210", "A-101", "2024-01-15", "2024-07-15", "active"),
      Tenant(2, "Priya Singh", "priya.singh@email.com", "+91 9876543211", "B-203", "2024-01-10", "2024-07-10", "active"),
      Tenant(3, "Amit Kumar", "amit.kumar@email.com", "+91 9876543212", "C-305", "2024-01-08", "2024-07-08", "active"),
      Tenant(4, "Sneha Patel", "sneha.patel@email.com", "+91 9876543213", "A-102", "2023-12-01", "2024-06-01", "notice_period") ]
  }

  /** On the page's tenants the cards read 4 / 3 / 1 / 75%. */
  lemma MockTenantsCards()
    ensures Tally.Count(MockTenants(), IsActive) == 3
    ensures Tally.Count(MockTenants(), OnNotice) == 1
    ensures RetentionRate(MockTenants()) == 75
  {
    MockActiveCount();
    MockNoticeCount();
  }

  lemma MockActiveCount()
    ensures Tally.Filter(MockTenants(), IsActive) == MockTenants()[..3]
  {
    var ts := MockTenants();
    assert IsActive(ts[0]) && IsActive(ts[1]) && IsActive(ts[2]) && !IsActive(ts[3]);
    assert ts[3..][1..] == [];
    assert Tally.Filter(ts[3..], IsActive) == [];
    assert ts[2..][1..] == ts[3..];
    assert Tally.Filter(ts[2..], IsActive) == [ts[2]];
    assert ts[1..][1..] == ts[2..];
    assert Tally.Filter(ts[1..], IsActive) == [ts[1]] + [ts[2]];
    assert Tally.Filter(ts, IsActive) == [ts[0]] + ([ts[1]] + [ts[2]]);
  }

  lemma MockNoticeCount()
    ensures Tally.Filter(MockTenants(), OnNotice) == MockTenants()[3..]
  {
    var ts := MockTenants();
    assert !OnNotice(ts[0]) && !OnNotice(ts[1]) && !OnNotice(ts[2]) && OnNotice(ts[3]);
    assert ts[3..][1..] == [];
    assert Tally.Filter(ts[3..], OnNotice) == [ts[3]];
    assert ts[2..][1..] == ts[3..];
    assert Tally.Filter(ts[2..], OnNotice) == [ts[3]];
    assert ts[1..][1..] == ts[2..];
    assert Tally.Filter(ts[1..], OnNotice) == [ts[3]];
  }

  /** The first tenant's avatar shows "RS". */
  lemma MockTenantInitials()
    ensures Text.Initials(MockTenants()[0].name) == "RS"
  {
    var words := ["Rahul", "Sharma"];
    assert Text.Join(words, ' ') == "Rahul Sharma";
    Text.InitialsOfWords(words);
    assert Text.FirstChars(words) == "RS";
  }
}
