/**
 * Domain rules of the support models (apps/support/models.py): the numbers a
 * client and a subscription receive on their first save, the three-state ticket
 * status and its defaults, the active-ticket count of an engineer, and what
 * deleting a client or an engineer does to the rows that point at it.
 *
 * The database is a value: a row is created with the primary key the database
 * hands out, passed in as a parameter.
 */
module SupportModels {
  import opened Wrappers
  import opened Strings

  // ------------------------------------------------------------ numbers given on first save

  /** `str(100000 + id)`: the account number of the client with primary key id. */
  function AccountNumber(id: nat): (s: string)
    ensures |s| >= 1 && AllDigits(s) && s[0] != '0'
    ensures ParseNat(s) == 100000 + id
  {
    ParseNatToString(100000 + id);
    NatToString(100000 + id)
  }

  /** Different clients never share an account number. */
  lemma AccountNumberInjective(a: nat, b: nat)
    requires AccountNumber(a) == AccountNumber(b)
    ensures a == b
  {
    NatToStringInjective(100000 + a, 100000 + b);
  }

  /** A point in time, as far as the service number needs it. */
  datatype Date = Date(year: nat, month: nat)

  /** `f"SL-{now.year}-{now.month:02d}-{id:06d}"`. */
  function ServiceNumber(now: Date, id: nat): (s: string)
    ensures Split(s, '-') == ["SL", NatToString(now.year), ZeroPad(now.month, 2), ZeroPad(id, 6)]
  {
    var parts := ["SL", NatToString(now.year), ZeroPad(now.month, 2), ZeroPad(id, 6)];
    forall k | 0 <= k < |parts| ensures '-' !in parts[k] {
      if k > 0 {
        assert AllDigits(parts[k]);
      }
    }
    SplitJoin(parts, '-');
    Join('-', parts)
  }

  /** The year, the month and the primary key can all be read back from a service number. */
  lemma ServiceNumberDecodes(now: Date, id: nat)
    ensures var parts := Split(ServiceNumber(now, id), '-');
      && |parts| == 4 && parts[0] == "SL"
      && ParseNat(parts[1]) == now.year
      && ParseNat(parts[2]) == now.month
      && ParseNat(parts[3]) == id
  {
    ParseNatToString(now.year);
    ZeroPadValue(now.month, 2);
    ZeroPadValue(id, 6);
  }

  /** Different subscriptions never share a service number. */
  lemma ServiceNumberInjective(d1: Date, id1: nat, d2: Date, id2: nat)
    requires ServiceNumber(d1, id1) == ServiceNumber(d2, id2)
    ensures id1 == id2 && d1 == d2
  {
    ServiceNumberDecodes(d1, id1);
    ServiceNumberDecodes(d2, id2);
  }

  /** A client row: the primary key is absent until the first save. */
  class ClientRecord {
    var id: Option<nat>
    var accountNumber: string
    var isCompany: bool

    constructor (isCompany: bool)
      ensures id.None? && accountNumber == "" && this.isCompany == isCompany
    {
      id := None;
      accountNumber := "";
      this.isCompany := isCompany;
    }

    /**
     * `Client.save`: on the first save the database assigns `newId` and the account
     * number is derived from it; a later save leaves both alone.
     */
    method Save(newId: nat)
      modifies this
      ensures old(id).None? ==> id == Some(newId) && accountNumber == AccountNumber(newId)
      ensures old(id).Some? ==> id == old(id) && accountNumber == old(accountNumber)
      ensures isCompany == old(isCompany)
    {
      var isNew := id.None?;
      if isNew {
        id := Some(newId);
        accountNumber := AccountNumber(newId);
      }
    }
  }

  /** A subscription row (ClientService). */
  class ClientServiceRecord {
    var id: Option<nat>
    var client: nat
    var serviceNumber: string
    var createdAt: Option<Date>

    constructor (client: nat)
      ensures id.None? && serviceNumber == "" && createdAt.None? && this.client == client
    {
      id := None;
      this.client := client;
      serviceNumber := "";
      createdAt := None;
    }

    /**
     * `ClientService.save`: `now` is the time read before the insert and `stampedAt` the
     * `auto_now_add` stamp taken during it. The first save stamps the creation time and
     * derives the service number from `now` and the new key; a later save changes neither.
     */
    method Save(newId: nat, now: Date, stampedAt: Date)
      modifies this
      ensures old(id).None? ==> id == Some(newId) && serviceNumber == ServiceNumber(now, newId)
                                && createdAt == Some(stampedAt)
      ensures old(id).Some? ==> id == old(id) && serviceNumber == old(serviceNumber)
                                && createdAt == old(createdAt)
      ensures client == old(client)
    {
      var isNew := id.None?;
      if isNew {
        id := Some(newId);
        createdAt := Some(stampedAt);
        serviceNumber := ServiceNumber(now, newId);
      }
    }
  }

  // ------------------------------------------------------------ tickets

  /** `SupportTicket.STATUSES`. */
  datatype Status = New | InProgress | Done

  function StatusCode(s: Status): (code: string)
    ensures |code| >= 3
  {
    match s
    case New => "new"
    case InProgress => "in_progress"
    case Done => "done"
  }

  /** The stored string back to a status; any other string is not a valid choice. */
  function ParseStatus(code: string): (s: Option<Status>)
    ensures s.Some? ==> StatusCode(s.value) == code
  {
    match code
    case "new" => Some(New)
    case "in_progress" => Some(InProgress)
    case "done" => Some(Done)
    case _ => None
  }

  lemma ParseStatusCode(s: Status)
    ensures ParseStatus(StatusCode(s)) == Some(s)
  {
  }

  /** The largest value of a PositiveSmallIntegerField. */
  const MaxSmallInt: nat := 32767

  datatype Ticket = Ticket(
    id: nat,
    client: nat,
    engineer: Option<nat>,
    description: string,
    priorityScore: nat,
    finalResolution: Option<string>,
    status: Status,
    createdAt: int)

  /** A ticket created with only the required fields: every default applied. */
  function NewTicket(id: nat, client: nat, description: string, createdAt: int): (t: Ticket)
    ensures t.status == New && t.priorityScore == 50 && t.priorityScore <= MaxSmallInt
    ensures t.engineer.None? && t.finalResolution.None?
    ensures t.id == id && t.client == client && t.description == description && t.createdAt == createdAt
  {
    Ticket(id, client, None, description, 50, None, New, createdAt)
  }

  predicate Active(t: Ticket) {
    t.status == New || t.status == InProgress
  }

  predicate AssignedTo(t: Ticket, engineer: nat) {
    t.engineer == Some(engineer)
  }

  /** `Engineer.active_tickets_count`: the engineer's tickets whose status is new or in_progress. */
  function ActiveTicketsCount(tickets: seq<Ticket>, engineer: nat): (n: nat)
    ensures n <= |tickets|
    ensures n == 0 <==> forall k :: 0 <= k < |tickets| ==> !(AssignedTo(tickets[k], engineer) && Active(tickets[k]))
  {
    if tickets == [] then 0
    else
      var rest := ActiveTicketsCount(tickets[1..], engineer);
      assert forall k :: 1 <= k < |tickets| ==> tickets[k] == tickets[1..][k - 1];
      (if AssignedTo(tickets[0], engineer) && Active(tickets[0]) then 1 else 0) + rest
  }

  function AssignedCount(tickets: seq<Ticket>, engineer: nat): (n: nat)
    ensures n <= |tickets|
  {
    if tickets == [] then 0
    else (if AssignedTo(tickets[0], engineer) then 1 else 0) + AssignedCount(tickets[1..], engineer)
  }

  function DoneCount(tickets: seq<Ticket>, engineer: nat): (n: nat)
    ensures n <= |tickets|
  {
    if tickets == [] then 0
    else (if AssignedTo(tickets[0], engineer) && tickets[0].status == Done then 1 else 0)
         + DoneCount(tickets[1..], engineer)
  }

  /** The engineer's tickets split into the active ones and the done ones. */
  lemma {:induction false} ActivePlusDone(tickets: seq<Ticket>, engineer: nat)
    ensures ActiveTicketsCount(tickets, engineer) + DoneCount(tickets, engineer) == AssignedCount(tickets, engineer)
    decreases |tickets|
  {
    if tickets != [] {
      ActivePlusDone(tickets[1..], engineer);
    }
  }

  /** Closing a ticket lowers its engineer's active count by one. */
  lemma {:induction false} CloseTicketLowersCount(tickets: seq<Ticket>, k: nat, engineer: nat)
    requires k < |tickets| && AssignedTo(tickets[k], engineer) && Active(tickets[k])
    ensures ActiveTicketsCount(tickets[k := tickets[k].(status := Done)], engineer)
         == ActiveTicketsCount(tickets, engineer) - 1
    decreases k
  {
    var closed := tickets[k := tickets[k].(status := Done)];
    if k > 0 {
      assert closed[1..] == tickets[1..][k - 1 := tickets[k].(status := Done)];
      CloseTicketLowersCount(tickets[1..], k - 1, engineer);
    } else {
      assert closed[1..] == tickets[1..];
    }
  }

  // ------------------------------------------------------------ deletion

  datatype Subscription = Subscription(id: nat, client: nat, service: nat)

  /** The rows that point at clients and engineers. */
  datatype Db = Db(subscriptions: seq<Subscription>, tickets: seq<Ticket>)

  function Unassign(t: Ticket, engineer: nat): Ticket {
    if t.engineer == Some(engineer) then t.(engineer := None) else t
  }

  /** Deleting an engineer: `on_delete=SET_NULL` on the ticket's engineer. */
  function DeleteEngineer(db: Db, engineer: nat): (r: Db)
    ensures r.subscriptions == db.subscriptions
    ensures |r.tickets| == |db.tickets|
    ensures forall k :: 0 <= k < |db.tickets| ==> r.tickets[k] == Unassign(db.tickets[k], engineer)
  {
    Db(db.subscriptions, seq(|db.tickets|, k requires 0 <= k < |db.tickets| => Unassign(db.tickets[k], engineer)))
  }

  function TicketsNotOf(tickets: seq<Ticket>, client: nat): (r: seq<Ticket>)
    ensures |r| <= |tickets|
    ensures forall t :: t in r <==> t in tickets && t.client != client
  {
    if tickets == [] then []
    else if tickets[0].client == client then TicketsNotOf(tickets[1..], client)
    else [tickets[0]] + TicketsNotOf(tickets[1..], client)
  }

  function SubscriptionsNotOf(subs: seq<Subscription>, client: nat): (r: seq<Subscription>)
    ensures |r| <= |subs|
    ensures forall s :: s in r <==> s in subs && s.client != client
  {
    if subs == [] then []
    else if subs[0].client == client then SubscriptionsNotOf(subs[1..], client)
    else [subs[0]] + SubscriptionsNotOf(subs[1..], client)
  }

  /** The cascade filter over subscriptions keeps the other clients' subscriptions in order. */
  lemma {:induction false} SubscriptionsNotOfAppend(a: seq<Subscription>, b: seq<Subscription>, client: nat)
    ensures SubscriptionsNotOf(a + b, client) == SubscriptionsNotOf(a, client) + SubscriptionsNotOf(b, client)
    decreases |a|
  {
    if a != [] {
      assert (a + b)[0] == a[0];
      assert (a + b)[1..] == a[1..] + b;
      SubscriptionsNotOfAppend(a[1..], b, client);
    } else {
      assert a + b == b;
    }
  }

  /** Deleting a client: `on_delete=CASCADE` on both its subscriptions and its tickets. */
  function DeleteClient(db: Db, client: nat): (r: Db)
    ensures forall t :: t in r.tickets <==> t in db.tickets && t.client != client
    ensures forall s :: s in r.subscriptions <==> s in db.subscriptions && s.client != client
  {
    Db(SubscriptionsNotOf(db.subscriptions, client), TicketsNotOf(db.tickets, client))
  }

  /** After its deletion an engineer has no tickets, and every other engineer keeps the same count. */
  lemma {:induction false} DeleteEngineerCounts(tickets: seq<Ticket>, engineer: nat, other: nat)
    requires other != engineer
    ensures ActiveTicketsCount(DeleteEngineer(Db([], tickets), engineer).tickets, engineer) == 0
    ensures ActiveTicketsCount(DeleteEngineer(Db([], tickets), engineer).tickets, other)
         == ActiveTicketsCount(tickets, other)
    decreases |tickets|
  {
    var r := DeleteEngineer(Db([], tickets), engineer).tickets;
    if tickets != [] {
      DeleteEngineerCounts(tickets[1..], engineer, other);
      assert r[1..] == DeleteEngineer(Db([], tickets[1..]), engineer).tickets;
    }
  }

  /**
   * The cascade filter works piecewise: deleting a client from a list of tickets keeps the
   * other clients' tickets in the same order, wherever the deleted client's tickets sat.
   */
  lemma {:induction false} TicketsNotOfAppend(a: seq<Ticket>, b: seq<Ticket>, client: nat)
    ensures TicketsNotOf(a + b, client) == TicketsNotOf(a, client) + TicketsNotOf(b, client)
    decreases |a|
  {
    if a != [] {
      assert (a + b)[0] == a[0];
      assert (a + b)[1..] == a[1..] + b;
      TicketsNotOfAppend(a[1..], b, client);
    } else {
      assert a + b == b;
    }
  }

  /** Deleting a client that owns no ticket leaves the ticket list as it was. */
  lemma {:induction false} DeleteClientKeepsOthers(tickets: seq<Ticket>, client: nat)
    requires forall k :: 0 <= k < |tickets| ==> tickets[k].client != client
    ensures TicketsNotOf(tickets, client) == tickets
    decreases |tickets|
  {
    if tickets != [] {
      DeleteClientKeepsOthers(tickets[1..], client);
    }
  }
}
