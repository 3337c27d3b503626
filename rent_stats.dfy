/** The rent page (src/pages/Rent.tsx): search over rent records, the four
    money totals on the summary cards, the collection rate and the paid and
    overdue counts. A record's status is the string stored on it; the page
    does not derive it from payments. Amounts are whole rupees. */
module RentStats {
  import opened Wrappers
  import Text
  import Tally

  datatype RentRecord = RentRecord(
    id: int,
    tenant: string,
    room: string,
    amount: int,
    dueDate: string,
    paidDate: Option<string>,
    status: string,
    month: string,
    lateFee: int)

  /** The four summary cards. */
  datatype Stats = Stats(totalRent: int, collected: int, pending: int, overdue: int)

  // ---------------------------------------------------------------- search

  predicate MatchesSearch(r: RentRecord, term: string) {
    Text.MatchesTerm(r.tenant, term) || Text.MatchesTerm(r.room, term)
  }

  /** `filteredRecords`: the records whose tenant or room contains the
      search term, ignoring case, in their original order. */
  function FilteredRecords(records: seq<RentRecord>, term: string): (r: seq<RentRecord>)
    ensures forall x :: x in r <==> x in records && MatchesSearch(x, term)
  {
    Tally.Filter(records, x => MatchesSearch(x, term))
  }

  /** An empty search shows every record. */
  lemma EmptySearchKeepsAll(records: seq<RentRecord>)
    ensures FilteredRecords(records, "") == records
  {
    forall k | 0 <= k < |records| ensures MatchesSearch(records[k], "") {
      Text.MatchesEmptyTerm(records[k].tenant);
    }
    Tally.FilterKeepsAll(records, x => MatchesSearch(x, ""));
  }

  /** Searching keeps the records' order: the search of two runs of
      records is the search of the first followed by that of the second. */
  lemma SearchKeepsOrder(a: seq<RentRecord>, b: seq<RentRecord>, term: string)
    ensures FilteredRecords(a + b, term) == FilteredRecords(a, term) + FilteredRecords(b, term)
  {
    Tally.FilterAppend(a, b, x => MatchesSearch(x, term));
  }

  // ---------------------------------------------------------------- totals

  /** What a record asks for: its amount plus its late fee. */
  function Due(r: RentRecord): int { r.amount + r.lateFee }

  /** Sum of `amount + lateFee` over all records. */
  function TotalRent(rs: seq<RentRecord>): (t: int)
    ensures (forall k :: 0 <= k < |rs| ==> NonNegative(rs[k])) ==> t >= 0
  {
    if |rs| == 0 then 0 else Due(rs[0]) + TotalRent(rs[1..])
  }

  /** Sum of `amount` (the late fee left out) over records whose status is
      exactly `"paid"`. */
  function Collected(rs: seq<RentRecord>): (c: int)
    ensures (forall k :: 0 <= k < |rs| ==> rs[k].status != "paid") ==> c == 0
    ensures (forall k :: 0 <= k < |rs| ==> NonNegative(rs[k])) ==> 0 <= c <= TotalRent(rs)
  {
    if |rs| == 0 then 0
    else (if rs[0].status == "paid" then rs[0].amount else 0) + Collected(rs[1..])
  }

  /** Sum of `amount + lateFee` over records whose status is exactly `status`. */
  function DueWithStatus(rs: seq<RentRecord>, status: string): (d: int)
    ensures (forall k :: 0 <= k < |rs| ==> rs[k].status != status) ==> d == 0
    ensures (forall k :: 0 <= k < |rs| ==> NonNegative(rs[k])) ==> d >= 0
  {
    if |rs| == 0 then 0
    else (if rs[0].status == status then Due(rs[0]) else 0) + DueWithStatus(rs[1..], status)
  }

  /** `stats`: the four cards. The total splits into the three other
      cards plus what they leave out. */
  function ComputeStats(rs: seq<RentRecord>): (s: Stats)
    ensures s.totalRent == s.collected + s.pending + s.overdue + TotalUnshown(rs)
    ensures s.collected == Collected(rs)
  {
    TotalSplits(rs);
    Stats(TotalRent(rs), Collected(rs), DueWithStatus(rs, "pending"), DueWithStatus(rs, "overdue"))
  }

  /** The part of a record's due amount that none of the collected, pending
      and overdue cards shows: a paid record's late fee, or the whole due
      amount of a record with any other status. */
  function Unshown(r: RentRecord): int {
    if r.status == "paid" then r.lateFee
    else if r.status == "pending" || r.status == "overdue" then 0
    else Due(r)
  }

  function TotalUnshown(rs: seq<RentRecord>): int {
    if |rs| == 0 then 0 else Unshown(rs[0]) + TotalUnshown(rs[1..])
  }

  /** The total splits exactly into the three cards plus what they leave
      out. */
  lemma {:induction false} TotalSplits(rs: seq<RentRecord>)
    ensures TotalRent(rs) ==
      Collected(rs) + DueWithStatus(rs, "pending") + DueWithStatus(rs, "overdue") + TotalUnshown(rs)
    decreases |rs|
  {
    if |rs| > 0 {
      TotalSplits(rs[1..]);
    }
  }

  predicate NonNegative(r: RentRecord) { r.amount >= 0 && r.lateFee >= 0 }

  /** A record all of whose due amount is shown on the cards. */
  predicate FullyShown(r: RentRecord) {
    (r.status == "paid" && r.lateFee == 0) || r.status == "pending" || r.status == "overdue"
  }

  /** With non-negative amounts nothing left out is negative, and nothing is
      left out exactly when every record is fully shown. */
  lemma {:induction false} UnshownNonNegative(rs: seq<RentRecord>)
    requires forall k :: 0 <= k < |rs| ==> NonNegative(rs[k])
    ensures TotalUnshown(rs) >= 0
    ensures TotalUnshown(rs) == 0 <==> forall k :: 0 <= k < |rs| ==> FullyShown(rs[k]) || Due(rs[k]) == 0
    decreases |rs|
  {
    if |rs| > 0 {
      UnshownNonNegative(rs[1..]);
      if TotalUnshown(rs) == 0 {
        forall k | 0 <= k < |rs| ensures FullyShown(rs[k]) || Due(rs[k]) == 0 {
          if k > 0 {
            assert rs[k] == rs[1..][k - 1];
          }
        }
      }
      if forall k :: 0 <= k < |rs| ==> FullyShown(rs[k]) || Due(rs[k]) == 0 {
        forall k | 0 <= k < |rs| - 1 ensures FullyShown(rs[1..][k]) || Due(rs[1..][k]) == 0 {
          assert rs[1..][k] == rs[k + 1];
        }
      }
    }
  }

  /** With non-negative amounts and fees, collected + pending + overdue never
      exceeds the total, and equals it when every record is paid without a
      late fee, pending or overdue. */
  lemma CardsWithinTotal(rs: seq<RentRecord>)
    requires forall k :: 0 <= k < |rs| ==> NonNegative(rs[k])
    ensures ComputeStats(rs).collected + ComputeStats(rs).pending + ComputeStats(rs).overdue <= ComputeStats(rs).totalRent
    ensures (forall k :: 0 <= k < |rs| ==> FullyShown(rs[k])) ==>
      ComputeStats(rs).collected + ComputeStats(rs).pending + ComputeStats(rs).overdue == ComputeStats(rs).totalRent
  {
    TotalSplits(rs);
    UnshownNonNegative(rs);
  }

  // ------------------------------------------------------------ rate/counts

  /** "Collection Rate": `Math.round(collected / totalRent * 100)`, the
      whole percentage nearest to the collected share, halves rounded up.
      The page does not guard a zero total. */
  function CollectionRate(rs: seq<RentRecord>): (pct: int)
    requires TotalRent(rs) > 0
    ensures 2 * TotalRent(rs) * pct <= 200 * Collected(rs) + TotalRent(rs) < 2 * TotalRent(rs) * (pct + 1)
  {
    Tally.RoundedPercent(Collected(rs), TotalRent(rs))
  }

  /** With non-negative amounts and fees the rate is a percentage between
      0 and 100. */
  lemma CollectionRateBounds(rs: seq<RentRecord>)
    requires TotalRent(rs) > 0
    requires forall k :: 0 <= k < |rs| ==> NonNegative(rs[k])
    ensures 0 <= CollectionRate(rs) <= 100
  {
    Tally.PercentBounds(Collected(rs), TotalRent(rs));
  }

  predicate IsPaid(r: RentRecord) { r.status == "paid" }
  predicate IsOverdue(r: RentRecord) { r.status == "overdue" }
  predicate IsPaidOrOverdue(r: RentRecord) { IsPaid(r) || IsOverdue(r) }

  /** "Tenants Paid" shows `paidCount/records`; "Overdue Accounts" shows the
      overdue count. The two never add up to more than the records. */
  lemma PaidAndOverdueCounts(rs: seq<RentRecord>)
    ensures Tally.Count(rs, IsPaid) + Tally.Count(rs, IsOverdue) <= |rs|
  {
    Tally.CountDisjoint(rs, IsPaid, IsOverdue, IsPaidOrOverdue);
  }

  // ------------------------------------------------------------ page data

  /** The four records the page shows. */
  function MockRecords(): seq<RentRecord> {
    [ RentRecord(1, "Rahul Sharma", "A-101", 8000, "2024-07-01", Some("2024-07-02"), "paid", "2024-07", 0),
      RentRecord(2, "Priya Singh", "B-203", 12000, "2024-07-01", Some("2024-06-30"), "paid", "2024-07", 0),
      RentRecord(3, "Amit Kumar", "C-305", 15000, "2024-07-01", None, "pending", "2024-07", 100),
      RentRecord(4, "Sneha Patel", "A-102", 8000, "2024-07-01", None, "overdue", "2024-07", 200) ]
  }

  /** On the page's records the cards read 43300 / 20000 / 15100 / 8200,
      which account for the whole total, and the collection rate is 46%. */
  lemma MockRecordsStats()
    ensures ComputeStats(MockRecords()) == Stats(43300, 20000, 15100, 8200)
    ensures CollectionRate(MockRecords()) == 46
  {
    var rs := MockRecords();
    assert rs[1..][1..][1..][1..] == [];
    assert TotalRent(rs) == 43300;
    assert Collected(rs) == 20000;
  }
}
