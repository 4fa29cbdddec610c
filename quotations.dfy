/** The customer's quotation list: per-status tab counts, tab filtering, the
    Accept/Decline rule, the style fallback and the item preview. */
module Quotations {
  import opened Common

  datatype QuotationItem = QuotationItem(id: string, productName: string, quantity: int)

  /** A quotation as the list uses it; `validUntilPast` stands for
      `isPast(new Date(validUntil))` at render time. */
  datatype Quotation = Quotation(id: string, status: string, validUntilPast: bool, items: seq<QuotationItem>)

  /** The statuses with a configured style, label and tab. */
  const KnownStatuses: set<string> := {"SENT", "CONFIRMED", "CANCELLED", "EXPIRED"}

  /** The tabs, in display order. */
  const Tabs: seq<string> := ["all", "SENT", "CONFIRMED", "CANCELLED", "EXPIRED"]

  const StatusLabels: map<string, string> :=
    map["SENT" := "Pending Review", "CONFIRMED" := "Accepted", "CANCELLED" := "Rejected", "EXPIRED" := "Expired"]

  /** The counts record: `all` and one bucket per known status. */
  datatype StatusCounts = StatusCounts(all: nat, sent: nat, confirmed: nat, cancelled: nat, expired: nat)

  /** The number of quotations in `qs` whose status is `status`. */
  function CountWithStatus(qs: seq<Quotation>, status: string): (n: nat)
    ensures n <= |qs|
  {
    if qs == [] then 0
    else CountWithStatus(qs[..|qs| - 1], status) + (if qs[|qs| - 1].status == status then 1 else 0)
  }

  /** `getStatusCounts`: `all` starts at the list length, and each quotation
      whose status names a key of the record bumps that key. The key "all" is
      one of them, so a quotation with status "all" is counted in `all` twice. */
  method GetStatusCounts(qs: seq<Quotation>) returns (counts: StatusCounts)
    ensures counts.all == |qs| + CountWithStatus(qs, "all")
    ensures counts.sent == CountWithStatus(qs, "SENT")
    ensures counts.confirmed == CountWithStatus(qs, "CONFIRMED")
    ensures counts.cancelled == CountWithStatus(qs, "CANCELLED")
    ensures counts.expired == CountWithStatus(qs, "EXPIRED")
  {
    counts := StatusCounts(|qs|, 0, 0, 0, 0);
    var i := 0;
    while i < |qs|
      invariant 0 <= i <= |qs|
      invariant counts.all == |qs| + CountWithStatus(qs[..i], "all")
      invariant counts.sent == CountWithStatus(qs[..i], "SENT")
      invariant counts.confirmed == CountWithStatus(qs[..i], "CONFIRMED")
      invariant counts.cancelled == CountWithStatus(qs[..i], "CANCELLED")
      invariant counts.expired == CountWithStatus(qs[..i], "EXPIRED")
    {
      assert qs[..i + 1][..i] == qs[..i];
      var status := qs[i].status;
      if status == "all" {
        counts := counts.(all := counts.all + 1);
      } else if status == "SENT" {
        counts := counts.(sent := counts.sent + 1);
      } else if status == "CONFIRMED" {
        counts := counts.(confirmed := counts.confirmed + 1);
      } else if status == "CANCELLED" {
        counts := counts.(cancelled := counts.cancelled + 1);
      } else if status == "EXPIRED" {
        counts := counts.(expired := counts.expired + 1);
      }
      i := i + 1;
    }
    assert qs[..|qs|] == qs;
  }

  /** A quotation is in at most one status bucket, so the buckets together
      count no more quotations than the list holds. */
  lemma {:induction false} BucketsAtMostAll(qs: seq<Quotation>)
    ensures CountWithStatus(qs, "SENT") + CountWithStatus(qs, "CONFIRMED")
          + CountWithStatus(qs, "CANCELLED") + CountWithStatus(qs, "EXPIRED") <= |qs|
  {
    if qs != [] {
      BucketsAtMostAll(qs[..|qs| - 1]);
    }
  }

  /** The quotations of `qs` with status `status`, in their original order. */
  function WithStatus(qs: seq<Quotation>, status: string): (r: seq<Quotation>)
    ensures |r| == CountWithStatus(qs, status)
    ensures forall i :: 0 <= i < |r| ==> r[i].status == status
    ensures forall q :: q in r <==> q in qs && q.status == status
  {
    if qs == [] then []
    else
      var last := qs[|qs| - 1];
      var front := WithStatus(qs[..|qs| - 1], status);
      assert qs == qs[..|qs| - 1] + [last];
      if last.status == status then front + [last] else front
  }

  /** Filtering a concatenation filters each part: the filter keeps order. */
  lemma {:induction false} WithStatusConcat(a: seq<Quotation>, b: seq<Quotation>, status: string)
    ensures WithStatus(a + b, status) == WithStatus(a, status) + WithStatus(b, status)
    decreases |b|
  {
    if b == [] {
      assert a + b == a;
    } else {
      var b' := b[..|b| - 1];
      assert (a + b)[..|a + b| - 1] == a + b';
      WithStatusConcat(a, b', status);
    }
  }

  /** `filteredQuotations`: the "all" tab shows the list as it is, any other
      tab the quotations with that status. */
  function FilteredQuotations(qs: seq<Quotation>, tab: string): (r: seq<Quotation>)
    ensures tab == "all" ==> r == qs
    ensures tab != "all" ==> r == WithStatus(qs, tab)
  {
    if tab == "all" then qs else WithStatus(qs, tab)
  }

  /** The count a tab's badge shows (`counts.all` or `counts[tab]`). The badge
      agrees with the length of the list the tab shows whenever no quotation
      carries the status "all". */
  method TabBadge(qs: seq<Quotation>, tab: string) returns (badge: nat)
    requires tab in Tabs
    ensures CountWithStatus(qs, "all") == 0 ==> badge == |FilteredQuotations(qs, tab)|
    ensures tab != "all" ==> badge == |FilteredQuotations(qs, tab)|
  {
    var counts := GetStatusCounts(qs);
    badge := if tab == "all" then counts.all
             else if tab == "SENT" then counts.sent
             else if tab == "CONFIRMED" then counts.confirmed
             else if tab == "CANCELLED" then counts.cancelled
             else counts.expired;
  }

  /** In a list where every quotation has status `status`, that status
      counts the whole list and any other status counts nothing. */
  lemma {:induction false} CountInUniformList(qs: seq<Quotation>, status: string, other: string)
    requires forall i :: 0 <= i < |qs| ==> qs[i].status == status
    ensures CountWithStatus(qs, status) == |qs|
    ensures other != status ==> CountWithStatus(qs, other) == 0
  {
    if qs != [] {
      CountInUniformList(qs[..|qs| - 1], status, other);
    }
  }

  /** The badges on a status tab. The list the page counts is the one fetched
      for the active tab, which the server has already filtered to that
      status. So the "all" badge shows the same number as the active tab,
      and every other status tab shows 0. */
  method BadgesOnStatusTab(fetched: seq<Quotation>, active: string, other: string)
    returns (allBadge: nat, activeBadge: nat, otherBadge: nat)
    requires active in Tabs && active != "all"
    requires other in Tabs && other != "all" && other != active
    requires forall i :: 0 <= i < |fetched| ==> fetched[i].status == active
    ensures allBadge == activeBadge == |fetched|
    ensures otherBadge == 0
  {
    CountInUniformList(fetched, active, other);
    CountInUniformList(fetched, active, "all");
    allBadge := TabBadge(fetched, "all");
    activeBadge := TabBadge(fetched, active);
    otherBadge := TabBadge(fetched, other);
  }

  /** The key of `statusConfig` a card is styled with: its own status when
      configured, otherwise SENT's. */
  function StyleKey(status: string): (key: string)
    ensures key in KnownStatuses
    ensures status in KnownStatuses ==> key == status
    ensures status !in KnownStatuses ==> key == "SENT"
  {
    if status in KnownStatuses then status else "SENT"
  }

  /** The badge label `statusLabels[status]`; none for an unknown status. */
  function StatusLabel(status: string): (text: Option<string>)
    ensures text.Some? <==> status in KnownStatuses
    ensures text.Some? ==> text.value == StatusLabels[status] && text.value != ""
  {
    if status in StatusLabels then Some(StatusLabels[status]) else None
  }

  /** `canTakeAction`: Accept and Decline are offered for a SENT quotation that
      has not expired. */
  predicate CanTakeAction(q: Quotation)
    ensures CanTakeAction(q) ==> StyleKey(q.status) == "SENT" && StatusLabel(q.status) == Some("Pending Review")
    ensures q.validUntilPast ==> !CanTakeAction(q)
  {
    q.status == "SENT" && !q.validUntilPast
  }

  /** A quotation that offers Accept/Decline is styled as SENT, is labelled
      "Pending Review", and is listed under the SENT tab. */
  lemma ActionableIsPending(qs: seq<Quotation>, q: Quotation)
    requires q in qs
    requires CanTakeAction(q)
    ensures StyleKey(q.status) == "SENT"
    ensures StatusLabel(q.status) == Some("Pending Review")
    ensures q in FilteredQuotations(qs, "SENT")
  {
  }
}
