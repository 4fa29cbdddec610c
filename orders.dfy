/** The customer's order list: status style and label fallbacks, the cancel and
    "Rental Active" rules, the tab labels, and what follows a cancel request. */
module Orders {
  import opened Common

  /** The statuses `statusConfig` styles. */
  const StyledStatuses: set<string> := {"draft", "confirmed", "in-progress", "completed", "cancelled"}

  const StatusLabels: map<string, string> :=
    map["draft" := "Draft", "confirmed" := "Confirmed", "in-progress" := "active",
        "completed" := "Completed", "cancelled" := "Cancelled"]

  /** The tabs, in display order. */
  const Tabs: seq<string> := ["all", "confirmed", "in-progress", "completed", "cancelled"]

  /** `getStatusStyle`: the key of the style a card uses, its own status when
      configured and "draft" otherwise. */
  function StatusStyle(status: string): (key: string)
    ensures key in StyledStatuses
    ensures status in StyledStatuses ==> key == status
    ensures status !in StyledStatuses ==> key == "draft"
  {
    if status in StyledStatuses then status else "draft"
  }

  /** `statusLabels[status] || status`: the configured label, else the raw
      status. */
  function StatusLabel(status: string): (text: string)
    ensures status in StatusLabels ==> text == StatusLabels[status]
    ensures status !in StatusLabels ==> text == status
    ensures text == "" ==> status == ""
  {
    if status in StatusLabels then StatusLabels[status] else status
  }

  /** Every styled status has a label of its own; only "in-progress" is shown
      under another word. */
  lemma LabelsCoverStyledStatuses(status: string)
    requires status in StyledStatuses
    ensures status in StatusLabels
    ensures StatusLabel(status) == "active" <==> status == "in-progress"
  {
  }

  /** "Cancel Order" is offered for draft and confirmed orders. */
  predicate CanCancel(status: string)
    ensures CanCancel(status) ==> status in StyledStatuses && StatusStyle(status) == status
    ensures CanCancel(status) ==> !RentalActive(status)
  {
    status == "draft" || status == "confirmed"
  }

  /** The "Rental Active" marker shows for in-progress orders. */
  predicate RentalActive(status: string)
    ensures RentalActive(status) ==> StatusLabel(status) == "active" && StatusStyle(status) == status
  {
    status == "in-progress"
  }

  /** A cancellable order is never marked as an active rental, and both rules
      only ever fire for statuses that have their own style. */
  lemma CancelAndActiveExclusive(status: string)
    ensures !(CanCancel(status) && RentalActive(status))
    ensures CanCancel(status) || RentalActive(status) ==> StatusStyle(status) == status
  {
  }

  /** `tab.replace("-", " ")`: the first '-' becomes a space. */
  function TabLabel(tab: string): (text: string)
    ensures |text| == |tab|
    ensures FirstIndex(tab, '-').None? ==> text == tab
    ensures FirstIndex(tab, '-').Some? ==> text == tab[FirstIndex(tab, '-').value := ' ']
  {
    if tab == [] then []
    else if tab[0] == '-' then [' '] + tab[1..]
    else
      var rest := TabLabel(tab[1..]);
      assert FirstIndex(tab, '-').Some? ==> FirstIndex(tab, '-').value == FirstIndex(tab[1..], '-').value + 1;
      [tab[0]] + rest
  }

  /** Only the first '-' is replaced: a second one stays. */
  lemma TabLabelKeepsLaterDashes(tab: string, i: nat)
    requires i < |tab| && tab[i] == '-'
    requires FirstIndex(tab, '-') != Some(i)
    ensures TabLabel(tab)[i] == '-'
  {
  }

  /** The one tab with a dash reads "in progress". */
  lemma InProgressTabLabel()
    ensures TabLabel("in-progress") == "in progress"
  {
    assert "in-progress" == ['i'] + (['n'] + (['-'] + "progress"));
    TabLabelDash("progress");
    TabLabelStep('n', ['-'] + "progress");
    TabLabelStep('i', ['n'] + (['-'] + "progress"));
  }

  lemma TabLabelDash(rest: string)
    ensures TabLabel(['-'] + rest) == [' '] + rest
  {
    assert (['-'] + rest)[1..] == rest;
  }

  lemma TabLabelStep(c: char, rest: string)
    requires c != '-'
    ensures TabLabel([c] + rest) == [c] + TabLabel(rest)
  {
    assert ([c] + rest)[1..] == rest;
  }

  /** A tab without a dash is its own label ("all", "confirmed", ...). */
  lemma NoDashTabLabel(tab: string)
    requires '-' !in tab
    ensures TabLabel(tab) == tab
  {
  }

  /** What `cancelOrder` returned; an empty `error` stands for a missing one. */
  datatype CancelResult = CancelResult(success: bool, requiresRefund: bool, error: string)

  /** What the page does after the confirmation dialog and the cancel call. */
  datatype CancelAction = NoAction | Refetch | RequestRefund | ShowError(message: string)

  /** `handleCancelOrder`: nothing without confirmation; otherwise a
      successful cancel refetches the list, a failed one that needs a refund
      asks for the refund, and any other failure shows an error. */
  function CancelOutcome(confirmed: bool, result: CancelResult): (a: CancelAction)
    ensures !confirmed ==> a == NoAction
    ensures confirmed && result.success ==> a == Refetch
    ensures confirmed && !result.success && result.requiresRefund ==> a == RequestRefund
    ensures confirmed && !result.success && !result.requiresRefund ==>
      a == ShowError(if result.error != "" then result.error else "Failed to cancel order")
  {
    if !confirmed then NoAction
    else if result.success then Refetch
    else if result.requiresRefund then RequestRefund
    else ShowError(if result.error != "" then result.error else "Failed to cancel order")
  }

  /** A refund is only asked for after a confirmed cancel that failed, the
      list is only refetched after a confirmed cancel that succeeded, and an
      error never shows an empty message. */
  lemma CancelOutcomeSound(confirmed: bool, result: CancelResult)
    ensures CancelOutcome(confirmed, result) == RequestRefund ==> confirmed && !result.success
    ensures CancelOutcome(confirmed, result) == Refetch <==> confirmed && result.success
    ensures CancelOutcome(confirmed, result).ShowError? ==> CancelOutcome(confirmed, result).message != ""
  {
  }

  /** How the refund request ended: a JSON answer or a thrown error. In an
      answer, `refund` is `None` for a missing refund object and otherwise
      the text its `amount` renders as (which is "undefined" when the object
      has no amount); an empty `error` stands for a missing one. */
  datatype RefundResponse = Answered(success: bool, refund: Option<string>, error: string) | Threw

  /** What the page does after the refund request. */
  datatype RefundAction = RefundRefetch(message: string) | RefundError(message: string)

  /** The refund branch of `handleCancelOrder`: a successful answer shows the
      refunded amount (when there is one) and refetches; any other ending
      shows an error. */
  function RefundOutcome(r: RefundResponse): (a: RefundAction)
    ensures a.RefundRefetch? <==> r.Answered? && r.success
    ensures r.Answered? && r.success && r.refund.Some? ==>
      a.message == "Order cancelled. Refund of ₹" + r.refund.value + " initiated."
    ensures r.Answered? && r.success && r.refund.None? ==> a.message == "Order cancelled successfully"
    ensures r.Answered? && !r.success ==>
      a.message == if r.error != "" then r.error else "Failed to process refund"
    ensures r.Threw? ==> a.message == "Failed to process refund. Please try again."
    ensures a.message != ""
  {
    match r
    case Threw => RefundError("Failed to process refund. Please try again.")
    case Answered(success, refund, error) =>
      if success then
        RefundRefetch(match refund
                      case Some(amount) => "Order cancelled. Refund of ₹" + amount + " initiated."
                      case None => "Order cancelled successfully")
      else RefundError(if error != "" then error else "Failed to process refund")
  }
}
