/**
 * The admin lead table: the list of leads it holds, the optimistic status
 * update with its revert, the defaulting of a missing status on load, and the
 * values its columns display.
 */
module LeadList {
  import opened Leads
  import opened Strings

  // ---------------------------------------------------------------------------
  // Status defaulting and the status cell
  // ---------------------------------------------------------------------------

  /** `status || 'PENDING'` */
  function DisplayStatus(s: Option<Status>): Status
  {
    if s.Some? then s.value else Pending
  }

  /** The load-time pass: every lead gets a status, a missing one becoming `PENDING`. */
  function WithDefaultStatus(leads: seq<Lead>): (r: seq<Lead>)
    ensures |r| == |leads|
    ensures forall i :: 0 <= i < |r| ==> r[i].status.Some?
    ensures forall i :: 0 <= i < |r| ==> leads[i].status.Some? ==> r[i].status == leads[i].status
    ensures forall i :: 0 <= i < |r| ==> leads[i].status.None? ==> r[i].status == Some(Pending)
    ensures forall i :: 0 <= i < |r| ==> r[i].(status := leads[i].status) == leads[i]
  {
    seq(|leads|, i requires 0 <= i < |leads| => leads[i].(status := Some(DisplayStatus(leads[i].status))))
  }

  /**
   * What the status column shows for a row (its caption and colour), and
   * whether the row is the one being updated; the table computes that flag
   * but does not display it.
   */
  datatype StatusBadge = StatusBadge(caption: string, reachedOut: bool, isUpdating: bool)

  function StatusCell(lead: Lead, updatingLeadId: Option<string>): (b: StatusBadge)
    ensures b.reachedOut <==> lead.status == Some(ReachedOut)
    ensures b.caption == (if b.reachedOut then "Reached Out" else "Pending")
    ensures b.isUpdating <==> updatingLeadId == Some(lead.id)
  {
    var currentStatus := DisplayStatus(lead.status);
    var isUpdating := updatingLeadId == Some(lead.id);
    if currentStatus == ReachedOut then StatusBadge("Reached Out", true, isUpdating)
    else StatusBadge("Pending", false, isUpdating)
  }

  /** Defaulting on load changes nothing the table shows. */
  lemma DefaultingIsInvisible(leads: seq<Lead>, updatingLeadId: Option<string>)
    ensures var r := WithDefaultStatus(leads);
            forall i :: 0 <= i < |leads| ==> StatusCell(r[i], updatingLeadId) == StatusCell(leads[i], updatingLeadId)
  {
  }

  // ---------------------------------------------------------------------------
  // Optimistic update and revert
  // ---------------------------------------------------------------------------

  /** `prevLeads.map(lead => lead.id === leadId ? { ...lead, status: newStatus } : lead)` */
  function SetStatus(leads: seq<Lead>, leadId: string, newStatus: Status): (r: seq<Lead>)
    ensures |r| == |leads|
    ensures forall i :: 0 <= i < |leads| ==> r[i].(status := leads[i].status) == leads[i]
    ensures forall i :: 0 <= i < |leads| ==>
              r[i].status == if leads[i].id == leadId then Some(newStatus) else leads[i].status
  {
    seq(|leads|, i requires 0 <= i < |leads| =>
      if leads[i].id == leadId then leads[i].(status := Some(newStatus)) else leads[i])
  }

  /** The revert: the matching lead's status is flipped, an absent one counting as not `PENDING`. */
  function FlipStatus(leads: seq<Lead>, leadId: string): (r: seq<Lead>)
    ensures |r| == |leads|
    ensures forall i :: 0 <= i < |leads| ==> r[i].(status := leads[i].status) == leads[i]
    ensures forall i :: 0 <= i < |leads| && leads[i].id != leadId ==> r[i] == leads[i]
    ensures forall i :: 0 <= i < |leads| && leads[i].id == leadId ==>
              r[i].status == Some(if leads[i].status == Some(Pending) then ReachedOut else Pending)
  {
    seq(|leads|, i requires 0 <= i < |leads| =>
      if leads[i].id == leadId
      then leads[i].(status := Some(if leads[i].status == Some(Pending) then ReachedOut else Pending))
      else leads[i])
  }

  /**
   * Optimistic write then revert gives every lead back the status it showed,
   * provided the requested status differed from what each matching lead showed.
   */
  lemma {:induction false} RevertRestoresDisplayedStatus(leads: seq<Lead>, leadId: string, newStatus: Status)
    requires forall i :: 0 <= i < |leads| && leads[i].id == leadId ==> DisplayStatus(leads[i].status) != newStatus
    ensures var r := FlipStatus(SetStatus(leads, leadId, newStatus), leadId);
            && |r| == |leads|
            && forall i :: 0 <= i < |leads| ==>
                 && DisplayStatus(r[i].status) == DisplayStatus(leads[i].status)
                 && r[i].(status := leads[i].status) == leads[i]
  {
    var mid := SetStatus(leads, leadId, newStatus);
    var r := FlipStatus(mid, leadId);
    forall i | 0 <= i < |leads|
      ensures DisplayStatus(r[i].status) == DisplayStatus(leads[i].status)
    {
      if leads[i].id == leadId {
        assert mid[i].id == leadId;
        assert DisplayStatus(leads[i].status) == Flip(newStatus);
      }
    }
  }

  /** When every matching lead held a status different from the request, the revert restores the list exactly. */
  lemma RevertRestoresList(leads: seq<Lead>, leadId: string, newStatus: Status)
    requires forall i :: 0 <= i < |leads| && leads[i].id == leadId ==> leads[i].status == Some(Flip(newStatus))
    ensures FlipStatus(SetStatus(leads, leadId, newStatus), leadId) == leads
  {
    var mid := SetStatus(leads, leadId, newStatus);
    var r := FlipStatus(mid, leadId);
    forall i | 0 <= i < |leads| ensures r[i] == leads[i] {
      if leads[i].id == leadId {
        assert mid[i].id == leadId;
        assert r[i].status == leads[i].status;
      }
    }
  }

  /** A request for the status a lead already shows is not undone by the revert: the lead ends flipped. */
  lemma RevertAfterSameStatusFlips(leads: seq<Lead>, leadId: string, i: nat)
    requires i < |leads| && leads[i].id == leadId
    ensures var r := FlipStatus(SetStatus(leads, leadId, DisplayStatus(leads[i].status)), leadId);
            DisplayStatus(r[i].status) == Flip(DisplayStatus(leads[i].status))
  {
    var mid := SetStatus(leads, leadId, DisplayStatus(leads[i].status));
    assert mid[i].id == leadId;
  }

  // ---------------------------------------------------------------------------
  // Column values
  // ---------------------------------------------------------------------------

  /** The Name column: first and last name separated by one space. */
  function FullName(lead: Lead): string
  {
    lead.firstName + " " + lead.lastName
  }

  /** Splits a name at its first space; without a space the whole name is the first part. */
  function SplitAtFirstSpace(s: string): (parts: (string, string))
    ensures ' ' !in s ==> parts == (s, "")
    ensures ' ' in s ==> s == parts.0 + " " + parts.1 && ' ' !in parts.0
  {
    var k := IndexOf(s, ' ');
    if k == |s| then (s, "") else (s[..k], s[k + 1..])
  }

  /** A first name without spaces can be read back from the Name column, and so can the last name. */
  lemma FullNameSplits(lead: Lead)
    requires ' ' !in lead.firstName
    ensures SplitAtFirstSpace(FullName(lead)) == (lead.firstName, lead.lastName)
  {
    var s := FullName(lead);
    var n := |lead.firstName|;
    assert s[n] == ' ';
    assert forall i :: 0 <= i < n ==> s[i] == lead.firstName[i];
    assert IndexOf(s, ' ') == n;
    assert s[..n] == lead.firstName;
    assert s[n + 1..] == lead.lastName;
  }

  const VisaLabels: seq<string> := ["O-1", "EB-1A", "EB-2 NIW", "Unknown"]

  /** The categories pushed for a row, in the fixed order of the four checks. */
  function VisaCategories(lead: Lead): (cats: seq<string>)
    ensures |cats| <= 4
    ensures forall i :: 0 <= i < |cats| ==> cats[i] in VisaLabels
  {
    (if lead.visaCategoryO1 then ["O-1"] else [])
    + (if lead.visaCategoryEB1A then ["EB-1A"] else [])
    + (if lead.visaCategoryEB2NIW then ["EB-2 NIW"] else [])
    + (if lead.visaCategoryUnknown then ["Unknown"] else [])
  }

  /** A category is listed exactly when its flag is set. */
  lemma VisaCategoriesListFlags(lead: Lead)
    ensures "O-1" in VisaCategories(lead) <==> lead.visaCategoryO1
    ensures "EB-1A" in VisaCategories(lead) <==> lead.visaCategoryEB1A
    ensures "EB-2 NIW" in VisaCategories(lead) <==> lead.visaCategoryEB2NIW
    ensures "Unknown" in VisaCategories(lead) <==> lead.visaCategoryUnknown
  {
  }

  /** The categories appear in the fixed order, each at most once. */
  lemma VisaCategoriesOrdered(lead: Lead)
    ensures var cats := VisaCategories(lead);
            forall i, j :: 0 <= i < j < |cats| ==> LabelRank(cats[i]) < LabelRank(cats[j])
  {
  }

  /** The position of a category in the fixed order. */
  function LabelRank(category: string): nat
  {
    if category == "O-1" then 0
    else if category == "EB-1A" then 1
    else if category == "EB-2 NIW" then 2
    else 3
  }

  /** The Visa Categories column: `categories.join(', ')`. */
  function VisaLabel(lead: Lead): (text: string)
    ensures text == "" <==> !(lead.visaCategoryO1 || lead.visaCategoryEB1A || lead.visaCategoryEB2NIW || lead.visaCategoryUnknown)
  {
    var cats := VisaCategories(lead);
    if cats == [] then ""
    else
      JoinStartsWithFirst(cats, ", ");
      Join(cats, ", ")
  }

  /** The column can be read back into the categories it lists. */
  lemma VisaLabelRoundTrip(lead: Lead)
    ensures Split(VisaLabel(lead), ", ") == VisaCategories(lead)
  {
    var cats := VisaCategories(lead);
    VisaLabelsPlain();
    assert forall i :: 0 <= i < |cats| ==> cats[i] != "" && ", "[0] !in cats[i];
    SplitJoin(cats, ", ");
    assert VisaLabel(lead) == Join(cats, ", ");
  }

  lemma VisaLabelsPlain()
    ensures forall l :: l in VisaLabels ==> l != "" && ',' !in l
  {
  }

  /** Two rows with the same Visa Categories text have the same four flags. */
  lemma VisaLabelDeterminesFlags(a: Lead, b: Lead)
    requires VisaLabel(a) == VisaLabel(b)
    ensures a.visaCategoryO1 == b.visaCategoryO1 && a.visaCategoryEB1A == b.visaCategoryEB1A
    ensures a.visaCategoryEB2NIW == b.visaCategoryEB2NIW && a.visaCategoryUnknown == b.visaCategoryUnknown
  {
    VisaLabelRoundTrip(a);
    VisaLabelRoundTrip(b);
    VisaCategoriesListFlags(a);
    VisaCategoriesListFlags(b);
  }

  /** What the Website column shows: a dash, or a link whose text may drop the scheme. */
  datatype WebsiteCell = Dash | Link(href: string, text: string)

  /** `website.replace(/^https?:\/\//, '')` */
  function StripScheme(website: string): (text: string)
    ensures text == website || "http://" + text == website || "https://" + text == website
    ensures ("http://" <= website || "https://" <= website) ==> text != website
  {
    if "http://" <= website then website[7..]
    else if "https://" <= website then website[8..]
    else website
  }

  function WebsiteCellOf(website: string): (cell: WebsiteCell)
    ensures cell.Dash? <==> website == ""
    ensures cell.Link? ==> cell.href == website && cell.text == StripScheme(website)
  {
    if website == "" then Dash else Link(website, StripScheme(website))
  }

  /** Only one scheme is removed: a doubled scheme leaves the second in place. */
  lemma StripSchemeOnce(rest: string)
    ensures StripScheme("http://" + "http://" + rest) == "http://" + rest
  {
    var w := "http://" + "http://" + rest;
    assert "http://" <= w;
    assert w[7..] == "http://" + rest;
  }

  // ---------------------------------------------------------------------------
  // Pagination
  // ---------------------------------------------------------------------------

  function Min(a: int, b: int): int
  {
    if a <= b then a else b
  }

  /** "Showing first to last of total" for a page of the table. */
  function ShowingRange(pageIndex: nat, pageSize: nat, total: nat): (range: (int, int))
    requires pageSize > 0
    ensures range.0 == pageIndex * pageSize + 1
    ensures range.1 <= total
    ensures pageIndex * pageSize < total ==> 1 <= range.0 <= range.1
  {
    (pageIndex * pageSize + 1, Min((pageIndex + 1) * pageSize, total))
  }

  /** The rows on one page: `pageSize` rows from `pageIndex * pageSize`, fewer on the last page. */
  function PageRows<T>(rows: seq<T>, pageIndex: nat, pageSize: nat): seq<T>
  {
    var start := pageIndex * pageSize;
    if start >= |rows| then [] else rows[start..Min(start + pageSize, |rows|)]
  }

  /** The range counts the rows on the page, and its ends are the first and last of them (1-based). */
  lemma ShowingRangeMatchesPage<T>(rows: seq<T>, pageIndex: nat, pageSize: nat)
    requires pageSize > 0
    requires pageIndex * pageSize < |rows|
    ensures var (first, last) := ShowingRange(pageIndex, pageSize, |rows|);
            var page := PageRows(rows, pageIndex, pageSize);
            && |page| == last - first + 1
            && page[0] == rows[first - 1]
            && page[|page| - 1] == rows[last - 1]
  {
    assert (pageIndex + 1) * pageSize == pageIndex * pageSize + pageSize;
  }

  // ---------------------------------------------------------------------------
  // The component's state
  // ---------------------------------------------------------------------------

  /** How the client's `fetch('/api/leads')` ended. */
  datatype FetchOutcome = Fetched(data: seq<Lead>) | NotOk | Thrown(message: string)

  const FetchFailedMessage := "Failed to fetch leads"
  const FallbackError := "Something went wrong"

  /** `(err as Error).message || 'Something went wrong'` for each way the fetch can fail. */
  function FetchError(outcome: FetchOutcome): (message: string)
    requires !outcome.Fetched?
    ensures message != ""
    ensures outcome.Thrown? && outcome.message != "" ==> message == outcome.message
  {
    match outcome
    case NotOk => FetchFailedMessage
    case Thrown(m) => if m == "" then FallbackError else m
  }

  class LeadListView {
    var leads: seq<Lead>
    var loading: bool
    var error: string
    var updatingLeadId: Option<string>

    constructor ()
      ensures leads == [] && loading && error == "" && updatingLeadId == None
    {
      leads := [];
      loading := true;
      error := "";
      updatingLeadId := None;
    }

    /** `fetchLeads`: store the defaulted list or the error, then stop loading. */
    method FetchLeads(outcome: FetchOutcome)
      modifies this
      ensures !loading
      ensures updatingLeadId == old(updatingLeadId)
      ensures outcome.Fetched? ==> leads == WithDefaultStatus(outcome.data) && error == old(error)
      ensures !outcome.Fetched? ==> leads == old(leads) && error == FetchError(outcome)
    {
      match outcome {
        case Fetched(data) =>
          leads := WithDefaultStatus(data);
        case NotOk =>
          error := FetchError(outcome);
        case Thrown(_) =>
          error := FetchError(outcome);
      }
      loading := false;
    }

    /** `updateLeadStatus` up to the `await`: mark the row busy and write the status optimistically. */
    method BeginStatusUpdate(leadId: string, newStatus: Status)
      modifies this
      ensures updatingLeadId == Some(leadId)
      ensures leads == SetStatus(old(leads), leadId, newStatus)
      ensures loading == old(loading) && error == old(error)
    {
      updatingLeadId := Some(leadId);
      leads := SetStatus(leads, leadId, newStatus);
    }

    /** `updateLeadStatus` after the `await`: revert on failure, then clear the busy marker. */
    method EndStatusUpdate(leadId: string, responseOk: bool)
      modifies this
      ensures updatingLeadId == None
      ensures leads == if responseOk then old(leads) else FlipStatus(old(leads), leadId)
      ensures loading == old(loading) && error == old(error)
    {
      if !responseOk {
        leads := FlipStatus(leads, leadId);
      }
      updatingLeadId := None;
    }

    /** The whole update when nothing else changes the list while the request is in flight. */
    method UpdateLeadStatus(leadId: string, newStatus: Status, responseOk: bool)
      modifies this
      ensures updatingLeadId == None
      ensures |leads| == |old(leads)|
      ensures forall i :: 0 <= i < |leads| ==> leads[i].(status := old(leads)[i].status) == old(leads)[i]
      ensures forall i :: 0 <= i < |leads| && old(leads)[i].id != leadId ==> leads[i] == old(leads)[i]
      ensures responseOk ==> forall i :: 0 <= i < |leads| && old(leads)[i].id == leadId ==> leads[i].status == Some(newStatus)
      ensures !responseOk && (forall i :: 0 <= i < |old(leads)| && old(leads)[i].id == leadId ==> DisplayStatus(old(leads)[i].status) != newStatus)
              ==> forall i :: 0 <= i < |leads| ==> DisplayStatus(leads[i].status) == DisplayStatus(old(leads)[i].status)
    {
      ghost var before := leads;
      BeginStatusUpdate(leadId, newStatus);
      EndStatusUpdate(leadId, responseOk);
      if !responseOk {
        ghost var mid := SetStatus(before, leadId, newStatus);
        assert forall i :: 0 <= i < |before| ==> mid[i].id == before[i].id;
        if forall i :: 0 <= i < |before| && before[i].id == leadId ==> DisplayStatus(before[i].status) != newStatus {
          RevertRestoresDisplayedStatus(before, leadId, newStatus);
        }
      }
    }
  }
}
