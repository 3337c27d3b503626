/** The "Past Tenants" page (src/pages/PastTenants.tsx): checked-out tenants
    with the length of their stay, their deposit outcome and their
    initials, and a search over name and room. Dates are instants in
    milliseconds, as `Date.getTime` gives them. */
module PastTenants {
  import opened Wrappers
  import opened Badges
  import Text
  import Tally

  /** `1000 * 60 * 60 * 24`. */
  const MsPerDay: nat := 86400000

  /** Days in a month as the page counts them. */
  const DaysPerMonth: nat := 30

  /** The inner-joined `rooms` row, present for every listed tenant. */
  datatype RoomRef = RoomRef(roomNumber: string)

  datatype PastTenant = PastTenant(
    id: string,
    fullName: string,
    checkInMs: int,
    checkOutMs: int,
    depositStatus: Option<string>,
    rooms: RoomRef)

  // ---------------------------------------------------------------- search

  predicate MatchesSearch(t: PastTenant, term: string) {
    Text.MatchesTerm(t.fullName, term) || Text.MatchesTerm(t.rooms.roomNumber, term)
  }

  /** `filteredTenants`. */
  function FilteredTenants(tenants: seq<PastTenant>, term: string): (r: seq<PastTenant>)
    ensures forall t :: t in r <==> t in tenants && MatchesSearch(t, term)
  {
    Tally.Filter(tenants, t => MatchesSearch(t, term))
  }

  /** An empty search lists everyone. */
  lemma EmptySearchKeepsAll(tenants: seq<PastTenant>)
    ensures FilteredTenants(tenants, "") == tenants
  {
    forall k | 0 <= k < |tenants| ensures MatchesSearch(tenants[k], "") {
      Text.MatchesEmptyTerm(tenants[k].fullName);
    }
    Tally.FilterKeepsAll(tenants, t => MatchesSearch(t, ""));
  }

  /** The search keeps the fetched order (latest check-out first). */
  lemma SearchKeepsOrder(a: seq<PastTenant>, b: seq<PastTenant>, term: string)
    ensures FilteredTenants(a + b, term) == FilteredTenants(a, term) + FilteredTenants(b, term)
  {
    Tally.FilterAppend(a, b, t => MatchesSearch(t, term));
  }

  // ---------------------------------------------------------- stay length

  function Abs(x: int): nat { if x < 0 then -x else x }

  /** `Math.ceil(Math.abs(end - start) / msPerDay)`: the fewest whole days
      covering the stay, a started day counting as a full one. */
  function StayDays(checkInMs: int, checkOutMs: int): (d: nat)
    ensures d * MsPerDay >= Abs(checkOutMs - checkInMs)
    ensures d == 0 || (d - 1) * MsPerDay < Abs(checkOutMs - checkInMs)
    ensures d == 0 <==> checkInMs == checkOutMs
  {
    (Abs(checkOutMs - checkInMs) + MsPerDay - 1) / MsPerDay
  }

  /** Swapping check-in and check-out gives the same stay. */
  lemma StaySymmetric(checkInMs: int, checkOutMs: int)
    ensures StayDays(checkInMs, checkOutMs) == StayDays(checkOutMs, checkInMs)
  {
    assert Abs(checkOutMs - checkInMs) == Abs(checkInMs - checkOutMs);
  }

  /** One millisecond into a new day already counts that day. */
  lemma PartialDayRoundsUp(checkInMs: int, days: nat)
    ensures StayDays(checkInMs, checkInMs + days * MsPerDay) == days
    ensures StayDays(checkInMs, checkInMs + days * MsPerDay + 1) == days + 1
  {
  }

  /** `months = floor(d / 30)` and `days = d % 30`. */
  function MonthsOf(d: nat): nat { d / DaysPerMonth }
  function DaysOf(d: nat): (r: nat)
    ensures r < DaysPerMonth
  {
    d % DaysPerMonth
  }

  /** The split loses nothing: thirty days per month plus the rest. */
  lemma MonthsAndDaysRecombine(d: nat)
    ensures MonthsOf(d) * DaysPerMonth + DaysOf(d) == d
    ensures MonthsOf(d) == 0 <==> d < DaysPerMonth
  {
  }

  /** `calculateStayDuration`: `"<m>m <d>d"` for a stay of a month or more,
      `"<d> days"` otherwise. */
  function StayLabel(checkInMs: int, checkOutMs: int): (r: string)
    ensures |r| >= 2
    ensures r[|r| - 1] == 's' <==> MonthsOf(StayDays(checkInMs, checkOutMs)) == 0
    ensures Text.IsDigit(r[0])
    ensures MonthsOf(StayDays(checkInMs, checkOutMs)) > 0 ==>
      r == Text.NatToString(MonthsOf(StayDays(checkInMs, checkOutMs))) + "m "
        + Text.NatToString(DaysOf(StayDays(checkInMs, checkOutMs))) + "d"
    ensures MonthsOf(StayDays(checkInMs, checkOutMs)) == 0 ==>
      r == Text.NatToString(DaysOf(StayDays(checkInMs, checkOutMs))) + " days"
  {
    var d := StayDays(checkInMs, checkOutMs);
    if MonthsOf(d) > 0 then Text.NatToString(MonthsOf(d)) + "m " + Text.NatToString(DaysOf(d)) + "d"
    else Text.NatToString(DaysOf(d)) + " days"
  }

  /** The number a label opens with reads back as the months of the stay,
      or as its days when it is shorter than a month. */
  lemma LabelLeadingNumber(checkInMs: int, checkOutMs: int)
    ensures Text.DigitsValue(Text.LeadingDigits(StayLabel(checkInMs, checkOutMs))) ==
      var d := StayDays(checkInMs, checkOutMs);
      if MonthsOf(d) > 0 then MonthsOf(d) else DaysOf(d)
  {
    var d := StayDays(checkInMs, checkOutMs);
    if MonthsOf(d) > 0 {
      var rest := "m " + Text.NatToString(DaysOf(d)) + "d";
      assert StayLabel(checkInMs, checkOutMs) == Text.NatToString(MonthsOf(d)) + rest;
      Text.LeadingNumber(MonthsOf(d), rest);
    } else {
      Text.LeadingNumber(DaysOf(d), " days");
    }
  }

  /** For a stay of a month or more, the text after the month count and
      `"m "` opens with the days of the stay, and the label ends in `d`;
      together with `LabelLeadingNumber` both numbers read back. */
  lemma LabelDaysPart(checkInMs: int, checkOutMs: int)
    requires MonthsOf(StayDays(checkInMs, checkOutMs)) > 0
    ensures var r, m := StayLabel(checkInMs, checkOutMs), Text.NatToString(MonthsOf(StayDays(checkInMs, checkOutMs)));
      && |m| + 2 < |r| && r[|m|..|m| + 2] == "m " && r[|r| - 1] == 'd'
      && Text.DigitsValue(Text.LeadingDigits(r[|m| + 2..])) == DaysOf(StayDays(checkInMs, checkOutMs))
  {
    var d := StayDays(checkInMs, checkOutMs);
    var r, m := StayLabel(checkInMs, checkOutMs), Text.NatToString(MonthsOf(d));
    var days := Text.NatToString(DaysOf(d));
    assert r == m + "m " + days + "d";
    assert r[|m| + 2..] == days + "d";
    Text.LeadingNumber(DaysOf(d), "d");
  }

  // --------------------------------------------------------------- badges

  const KnownDepositStatuses: set<Option<string>> := {Some("full"), Some("partial"), Some("none")}

  /** `getDepositStatusBadge`; a missing status (`null`) is one of the
      "other" values. */
  function DepositBadge(status: Option<string>): (b: Badge)
    ensures b.caption == "Pending" <==> status !in KnownDepositStatuses
    ensures b.tone == Outline <==> status !in KnownDepositStatuses
    ensures status == Some("full") ==> b == Badge("Full Return", Green)
    ensures status == Some("partial") ==> b == Badge("Partial Return", Yellow)
    ensures status == Some("none") ==> b == Badge("No Return", Red)
  {
    match status
    case Some("full") => Badge("Full Return", Green)
    case Some("partial") => Badge("Partial Return", Yellow)
    case Some("none") => Badge("No Return", Red)
    case _ => Badge("Pending", Outline)
  }

  // -------------------------------------------------------------- initials

  /** `getInitials` takes nothing from the empty word a double space
      leaves, and upper-cases what it takes. */
  lemma InitialsSkipEmptyWords()
    ensures Text.Initials("amit  kumar") == "AK"
  {
    var words := ["amit", "", "kumar"];
    assert Text.Join(words[2..], ' ') == "kumar";
    assert Text.Join(words[1..], ' ') == "" + " " + "kumar";
    assert Text.Join(words, ' ') == "amit" + " " + (" " + "kumar");
    assert "amit" + " " + (" " + "kumar") == "amit  kumar";
    Text.InitialsOfWords(words);
    assert Text.FirstChars(words[2..]) == "k";
    assert Text.FirstChars(words[1..]) == "k";
    assert Text.FirstChars(words) == "ak";
    assert Text.ToUpper("ak") == "AK";
  }
}
