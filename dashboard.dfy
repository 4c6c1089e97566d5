/**
 * The ticket order of the administrator dashboard (endpoints/admin/views.py):
 * open tickets (new, in progress) before closed ones, then by priority score,
 * highest first, then by creation time, oldest first. The database sort is a
 * sort by this three-key comparison; nothing is filtered out.
 */
module Dashboard {
  import opened SupportModels
  import opened Sorting

  /** The `Case(When(status="done", then=2), default=1)` key. */
  function StatusGroup(s: Status): (g: int)
    ensures g == 1 || g == 2
    ensures g == 2 <==> s == Done
  {
    if s == Done then 2 else 1
  }

  /** `a` may precede `b` under `order_by(group, "-priority_score", "created_at")`. */
  predicate DashboardLe(a: Ticket, b: Ticket) {
    var ga, gb := StatusGroup(a.status), StatusGroup(b.status);
    ga < gb
    || (ga == gb && a.priorityScore > b.priorityScore)
    || (ga == gb && a.priorityScore == b.priorityScore && a.createdAt <= b.createdAt)
  }

  lemma DashboardLeIsTotalPreorder()
    ensures TotalPreorder(DashboardLe)
  {
  }

  /** The ticket list the dashboard shows. */
  function DashboardOrder(tickets: seq<Ticket>): (r: seq<Ticket>)
    ensures multiset(r) == multiset(tickets)
    ensures Sorted(r, DashboardLe)
  {
    DashboardLeIsTotalPreorder();
    SortSorted(tickets, DashboardLe);
    Sort(tickets, DashboardLe)
  }

  /** Every open ticket is listed before every done ticket. */
  lemma OpenBeforeDone(tickets: seq<Ticket>, i: nat, j: nat)
    requires i < |DashboardOrder(tickets)| && j < |DashboardOrder(tickets)|
    requires DashboardOrder(tickets)[i].status != Done && DashboardOrder(tickets)[j].status == Done
    ensures i < j
  {
    var r := DashboardOrder(tickets);
    assert !DashboardLe(r[j], r[i]);
  }

  /** Within a status group the priority score never increases down the list. */
  lemma PriorityNonIncreasingInGroup(tickets: seq<Ticket>, i: nat, j: nat)
    requires i < j < |DashboardOrder(tickets)|
    requires StatusGroup(DashboardOrder(tickets)[i].status) == StatusGroup(DashboardOrder(tickets)[j].status)
    ensures DashboardOrder(tickets)[i].priorityScore >= DashboardOrder(tickets)[j].priorityScore
  {
    var r := DashboardOrder(tickets);
    assert DashboardLe(r[i], r[j]);
  }

  /** Within a status group and a priority score, older tickets come first. */
  lemma OlderFirstOnTies(tickets: seq<Ticket>, i: nat, j: nat)
    requires i < j < |DashboardOrder(tickets)|
    requires StatusGroup(DashboardOrder(tickets)[i].status) == StatusGroup(DashboardOrder(tickets)[j].status)
    requires DashboardOrder(tickets)[i].priorityScore == DashboardOrder(tickets)[j].priorityScore
    ensures DashboardOrder(tickets)[i].createdAt <= DashboardOrder(tickets)[j].createdAt
  {
    var r := DashboardOrder(tickets);
    assert DashboardLe(r[i], r[j]);
  }

  /** Nothing is filtered out: every ticket is listed, exactly as often as it occurs. */
  lemma EveryTicketListed(tickets: seq<Ticket>, t: Ticket)
    ensures t in DashboardOrder(tickets) <==> t in tickets
    ensures |DashboardOrder(tickets)| == |tickets|
  {
    var r := DashboardOrder(tickets);
    assert t in r <==> t in multiset(r);
    assert |r| == |multiset(r)|;
  }
}
