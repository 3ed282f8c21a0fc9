/**
 * The "Mark as Reached Out" button of the lead detail page: a status and a
 * busy flag, updated around one request to the status endpoint.
 */
module ActionButtons {
  import opened Leads

  /** `currentStatus = 'PENDING'`: the prop's default when the caller gives none. */
  function InitialStatus(currentStatus: Option<Status>): (s: Status)
    ensures currentStatus.None? ==> s == Pending
    ensures currentStatus.Some? ==> s == currentStatus.value
  {
    match currentStatus
    case None => Pending
    case Some(s) => s
  }

  /** The status after one click whose request succeeded (`ok`) or failed. */
  function AfterClick(status: Status, ok: bool): (s: Status)
    ensures ok ==> s != status
    ensures !ok ==> s == status
  {
    if ok then Flip(status) else status
  }

  /**
   * The status after a series of clicks, one outcome per click. The button is
   * only rendered while the status is `PENDING`, so once it is not, later
   * clicks cannot happen.
   */
  function AfterClicks(status: Status, outcomes: seq<bool>): Status
    decreases |outcomes|
  {
    if outcomes == [] || status != Pending then status
    else AfterClicks(AfterClick(status, outcomes[0]), outcomes[1..])
  }

  /**
   * From `PENDING`, the only state the button can reach is `REACHED_OUT`, and
   * it does so exactly when some request succeeds.
   */
  lemma {:induction false} ClicksOnlyReachOut(outcomes: seq<bool>)
    ensures AfterClicks(Pending, outcomes) == if true in outcomes then ReachedOut else Pending
    decreases |outcomes|
  {
    if outcomes != [] {
      if outcomes[0] {
        assert AfterClicks(Pending, outcomes) == AfterClicks(ReachedOut, outcomes[1..]);
      } else {
        ClicksOnlyReachOut(outcomes[1..]);
        assert true in outcomes <==> true in outcomes[1..] by {
          assert outcomes == [false] + outcomes[1..];
        }
      }
    }
  }

  /** A button whose lead already left `PENDING` stays as it is whatever happens. */
  lemma {:induction false} ReachedOutIsFinal(outcomes: seq<bool>)
    ensures AfterClicks(ReachedOut, outcomes) == ReachedOut
  {
  }

  class StatusUpdateButton {
    const leadId: string
    var status: Status
    var isUpdating: bool

    constructor (leadId: string, currentStatus: Option<Status>)
      ensures this.leadId == leadId
      ensures status == InitialStatus(currentStatus) && !isUpdating
    {
      this.leadId := leadId;
      status := InitialStatus(currentStatus);
      isUpdating := false;
    }

    /** `if (status !== 'PENDING') return null`: the button is rendered only for pending leads. */
    predicate Rendered()
      reads this
    {
      status == Pending
    }

    /** `disabled={isUpdating}` */
    predicate Disabled()
      reads this
    {
      isUpdating
    }

    function Caption(): (text: string)
      reads this
      ensures text == "Updating..." <==> isUpdating
      ensures text == "Mark as Reached Out" <==> !isUpdating
    {
      if isUpdating then "Updating..." else "Mark as Reached Out"
    }

    /** `updateLeadStatus` up to the `await`: choose the flipped status and mark the button busy. */
    method BeginUpdate() returns (newStatus: Status)
      modifies this
      ensures newStatus == Flip(old(status))
      ensures isUpdating && status == old(status)
    {
      newStatus := Flip(status);
      isUpdating := true;
    }

    /** `updateLeadStatus` after the `await`: adopt the new status only on success; never stay busy. */
    method FinishUpdate(newStatus: Status, ok: bool)
      modifies this
      ensures status == if ok then newStatus else old(status)
      ensures !isUpdating
    {
      if ok {
        status := newStatus;
      }
      isUpdating := false;
    }

    /** A click on the rendered, enabled button, with the request's outcome. */
    method Click(ok: bool)
      requires Rendered() && !Disabled()
      modifies this
      ensures status == AfterClick(old(status), ok)
      ensures status == if ok then ReachedOut else Pending
      ensures !isUpdating
      ensures Rendered() <==> !ok
    {
      var newStatus := BeginUpdate();
      FinishUpdate(newStatus, ok);
    }
  }
}
