/** The "Complaints" page (src/pages/Complaints.tsx): complaint cards with a
    status badge and icon and a priority badge, a search box, and four
    summary cards (total, open, in progress, resolved). The page spells the
    middle status `"in-progress"`; the database enum spells it
    `"in_progress"`. */
module ComplaintsPage {
  import opened Badges
  import Text
  import Tally

  datatype Complaint = Complaint(
    id: int,
    tenant: string,
    room: string,
    issue: string,
    description: string,
    status: string,
    priority: string,
    submittedDate: string,
    lastUpdated: string)

  // ---------------------------------------------------------------- search

  predicate MatchesSearch(c: Complaint, term: string) {
    Text.MatchesTerm(c.tenant, term) || Text.MatchesTerm(c.room, term) || Text.MatchesTerm(c.issue, term)
  }

  /** `filteredComplaints`. */
  function FilteredComplaints(complaints: seq<Complaint>, term: string): (r: seq<Complaint>)
    ensures forall c :: c in r <==> c in complaints && MatchesSearch(c, term)
  {
    Tally.Filter(complaints, c => MatchesSearch(c, term))
  }

  /** An empty search lists every complaint. */
  lemma EmptySearchKeepsAll(complaints: seq<Complaint>)
    ensures FilteredComplaints(complaints, "") == complaints
  {
    forall k | 0 <= k < |complaints| ensures MatchesSearch(complaints[k], "") {
      Text.MatchesEmptyTerm(complaints[k].tenant);
    }
    Tally.FilterKeepsAll(complaints, c => MatchesSearch(c, ""));
  }

  /** The search keeps the complaints in list order. */
  lemma SearchKeepsOrder(a: seq<Complaint>, b: seq<Complaint>, term: string)
    ensures FilteredComplaints(a + b, term) == FilteredComplaints(a, term) + FilteredComplaints(b, term)
  {
    Tally.FilterAppend(a, b, c => MatchesSearch(c, term));
  }

  // ------------------------------------------------------- badges and icon

  const KnownStatuses: set<string> := {"open", "in-progress", "resolved"}
  const KnownPriorities: set<string> := {"high", "medium", "low"}

  /** `getStatusBadge`: three fixed badges; any other status is shown as it
      is on a plain badge. */
  function StatusBadge(status: string): (b: Badge)
    ensures b == Badge(status, Plain) <==> status !in KnownStatuses
    ensures status == "open" ==> b == Badge("Open", Destructive)
    ensures status == "in-progress" ==> b == Badge("In Progress", Warning)
    ensures status == "resolved" ==> b == Badge("Resolved", Success)
  {
    match status
    case "open" => Badge("Open", Destructive)
    case "in-progress" => Badge("In Progress", Warning)
    case "resolved" => Badge("Resolved", Success)
    case _ => Badge(status, Plain)
  }

  /** `getPriorityBadge`: three fixed badges; any other priority is shown
      as it is on a plain badge. */
  function PriorityBadge(priority: string): (b: Badge)
    ensures b == Badge(priority, Plain) <==> priority !in KnownPriorities
    ensures priority == "high" ==> b == Badge("High", Destructive)
    ensures priority == "medium" ==> b == Badge("Medium", Secondary)
    ensures priority == "low" ==> b == Badge("Low", Outline)
  {
    match priority
    case "high" => Badge("High", Destructive)
    case "medium" => Badge("Medium", Secondary)
    case "low" => Badge("Low", Outline)
    case _ => Badge(priority, Plain)
  }

  datatype IconShape = AlertCircle | Clock | CheckCircle
  datatype StatusIcon = StatusIcon(shape: IconShape, tone: Tone)

  /** `getStatusIcon`: an unknown status gets the open complaint's shape
      without its colour. */
  function IconFor(status: string): (i: StatusIcon)
    ensures i.tone == Plain <==> status !in KnownStatuses
    ensures i.shape == AlertCircle <==> status !in {"in-progress", "resolved"}
    ensures status in KnownStatuses ==> i.tone == StatusBadge(status).tone
  {
    match status
    case "open" => StatusIcon(AlertCircle, Destructive)
    case "in-progress" => StatusIcon(Clock, Warning)
    case "resolved" => StatusIcon(CheckCircle, Success)
    case _ => StatusIcon(AlertCircle, Plain)
  }

  /** A complaint saved with the database's own `"in_progress"` is not
      recognised: its badge shows the raw status and its icon is the plain
      alert. */
  lemma DatabaseSpellingNotRecognised()
    ensures StatusBadge("in_progress") == Badge("in_progress", Plain)
    ensures IconFor("in_progress") == StatusIcon(AlertCircle, Plain)
  {
  }

  // ---------------------------------------------------------------- counts

  predicate IsOpen(c: Complaint) { c.status == "open" }
  predicate IsInProgress(c: Complaint) { c.status == "in-progress" }
  predicate IsResolved(c: Complaint) { c.status == "resolved" }
  predicate OpenOrInProgress(c: Complaint) { IsOpen(c) || IsInProgress(c) }
  predicate HasKnownStatus(c: Complaint) { OpenOrInProgress(c) || IsResolved(c) }

  /** The "Open", "In Progress" and "Resolved" cards add up to the
      complaints with a recognised status, never more than "Total". */
  lemma CountsWithinTotal(complaints: seq<Complaint>)
    ensures Tally.Count(complaints, IsOpen) + Tally.Count(complaints, IsInProgress)
      + Tally.Count(complaints, IsResolved) == Tally.Count(complaints, HasKnownStatus)
    ensures Tally.Count(complaints, IsOpen) + Tally.Count(complaints, IsInProgress)
      + Tally.Count(complaints, IsResolved) <= |complaints|
  {
    Tally.CountDisjoint(complaints, IsOpen, IsInProgress, OpenOrInProgress);
    Tally.CountDisjoint(complaints, OpenOrInProgress, IsResolved, HasKnownStatus);
  }
}
