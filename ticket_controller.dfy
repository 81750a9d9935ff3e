/** The ticket route handlers (controllers/ticket.js): creating a ticket and announcing it,
    listing and fetching tickets as the caller's role allows, and changing a status. The
    event delivery is a parameter: whether `inngest.send` succeeded. */
module TicketController {
  import opened JsValue
  import opened TicketModel
  import opened UserModel
  import opened Store
  import opened Http

  /** The "ticket/created" event: the new id, the title and description as the request sent
      them, and the creator. */
  datatype TicketEvent = TicketCreatedEvent(ticketId: ObjectId, title: Value, description: Value, createdBy: ObjectId)

  /** A ticket as a response shows it: the whole document for moderators and admins, the
      projection `title description status createdAt` (with `_id`) for role "user". */
  datatype TicketView =
    | Full(ticket: Ticket)
    | Summary(id: ObjectId, title: string, description: string, status: Status, createdAt: int)

  datatype Payload =
    | Message(text: string)
    | CreatedTicket(message: string, ticket: Ticket)
    | TicketList(tickets: seq<TicketView>)
    | OneTicket(view: TicketView)

  const InternalError: Response<Payload> := Response(500, Message("Internal Server Error"))

  /** The query filter of each role: role "user" is restricted to `{ createdBy: user._id }`. */
  predicate Sees(caller: Caller, t: Ticket) {
    caller.role != RegularUser || t.createdBy == caller.id
  }

  function View(caller: Caller, t: Ticket): (v: TicketView)
    ensures caller.role == RegularUser <==> v.Summary?
    ensures v.Summary? ==> v == Summary(t.id, t.title, t.description, t.status, t.createdAt)
    ensures v.Full? ==> v.ticket == t
  {
    if caller.role == RegularUser then Summary(t.id, t.title, t.description, t.status, t.createdAt) else Full(t)
  }

  function CreatedAtOf(v: TicketView): int {
    match v
    case Full(t) => t.createdAt
    case Summary(_, _, _, _, createdAt) => createdAt
  }

  /** The tickets of `ts` the caller's filter selects, in the order of `ts`. */
  function VisibleTo(caller: Caller, ts: seq<Ticket>): (r: seq<Ticket>)
    ensures |r| <= |ts|
    ensures forall t :: t in r <==> t in ts && Sees(caller, t)
  {
    if ts == [] then []
    else
      var rest := VisibleTo(caller, ts[1..]);
      assert forall t :: t in ts <==> t == ts[0] || t in ts[1..];
      if Sees(caller, ts[0]) then [ts[0]] + rest else rest
  }

  function Views(caller: Caller, ts: seq<Ticket>): (r: seq<TicketView>)
    ensures |r| == |ts| && forall i :: 0 <= i < |ts| ==> r[i] == View(caller, ts[i])
  {
    seq(|ts|, i requires 0 <= i < |ts| => View(caller, ts[i]))
  }

  /** `sort({ createdAt: -1 })`: newest first. */
  predicate NewestFirstOrder(vs: seq<TicketView>) {
    forall i, j :: 0 <= i < j < |vs| ==> CreatedAtOf(vs[i]) >= CreatedAtOf(vs[j])
  }

  function InsertByAge(v: TicketView, vs: seq<TicketView>): (r: seq<TicketView>)
    requires NewestFirstOrder(vs)
    ensures NewestFirstOrder(r)
    ensures multiset(r) == multiset(vs) + multiset{v}
  {
    if vs == [] || CreatedAtOf(v) >= CreatedAtOf(vs[0]) then
      ConsSorted(v, vs);
      [v] + vs
    else
      var rest := InsertByAge(v, vs[1..]);
      assert vs == [vs[0]] + vs[1..];
      PermutationBounded(CreatedAtOf(vs[0]), v, vs[1..], rest);
      ConsSorted(vs[0], rest);
      [vs[0]] + rest
  }

  /** A view no younger than every view of a newest-first list can go in front of it. */
  lemma ConsSorted(x: TicketView, vs: seq<TicketView>)
    requires NewestFirstOrder(vs)
    requires forall k :: 0 <= k < |vs| ==> CreatedAtOf(vs[k]) <= CreatedAtOf(x)
    ensures NewestFirstOrder([x] + vs)
  {
    var r := [x] + vs;
    forall i, j | 0 <= i < j < |r| ensures CreatedAtOf(r[i]) >= CreatedAtOf(r[j]) {
      assert r[j] == vs[j - 1];
      if i > 0 {
        assert r[i] == vs[i - 1];
      }
    }
  }

  /** A bound on the creation times of `vs` and of `v` bounds every rearrangement of them. */
  lemma PermutationBounded(bound: int, v: TicketView, vs: seq<TicketView>, rest: seq<TicketView>)
    requires CreatedAtOf(v) <= bound
    requires forall k :: 0 <= k < |vs| ==> CreatedAtOf(vs[k]) <= bound
    requires multiset(rest) == multiset(vs) + multiset{v}
    ensures forall k :: 0 <= k < |rest| ==> CreatedAtOf(rest[k]) <= bound
  {
    forall k | 0 <= k < |rest|
      ensures CreatedAtOf(rest[k]) <= bound
    {
      assert rest[k] in multiset(rest);
      if rest[k] != v {
        assert rest[k] in multiset(vs);
        var m :| 0 <= m < |vs| && vs[m] == rest[k];
      }
    }
  }

  /** Sorting by insertion: a permutation of `vs`, newest first. */
  function NewestFirst(vs: seq<TicketView>): (r: seq<TicketView>)
    ensures NewestFirstOrder(r)
    ensures multiset(r) == multiset(vs)
  {
    if vs == [] then []
    else
      assert vs == [vs[0]] + vs[1..];
      InsertByAge(vs[0], NewestFirst(vs[1..]))
  }

  /** The document `Ticket.create` validates, once Mongoose has cast the title and the
      description to strings; `None` when either cast fails. */
  function Draft(title: Value, description: Value, id: ObjectId, createdBy: ObjectId, now: int): (d: Option<Ticket>)
    ensures d.Some? <==> CastString(title).Some? && CastString(description).Some?
    ensures d.Some? ==> d.value == NewTicket(id, CastString(title).value, CastString(description).value, createdBy, now)
  {
    if CastString(title).Some? && CastString(description).Some? then
      Some(NewTicket(id, CastString(title).value, CastString(description).value, createdBy, now))
    else None
  }

  /** A draft that casts and passes the schema's validators. */
  predicate Drafted(d: Option<Ticket>) {
    d.Some? && ValidTicket(d.value)
  }

  /** `createTicket`: a falsy title or description is refused with 400 before anything is
      written; a value Mongoose cannot cast to a string, or one the validators reject,
      gives 500 with nothing stored; a failed event gives 500 with the ticket stored. */
  method CreateTicket(db: Database, caller: Caller, body: Value, eventDelivered: bool, now: int)
    returns (r: Response<Payload>, event: Option<TicketEvent>)
    requires db.Valid()
    modifies db
    ensures db.Valid()
    ensures db.users == old(db.users)
    ensures Nullish(body) ==> r == InternalError && event.None? && db.tickets == old(db.tickets)
    ensures !Nullish(body) && !(Truthy(Member(body, "title")) && Truthy(Member(body, "description"))) ==>
      r == Response(400, Message("Title and description are required")) && event.None? && db.tickets == old(db.tickets)
    ensures event.Some? <==> db.tickets != old(db.tickets)
    ensures db.tickets != old(db.tickets) ==>
      var title := Member(body, "title");
      var description := Member(body, "description");
      var draft := Draft(title, description, old(db.nextId), caller.id, now);
      !Nullish(body) && Truthy(title) && Truthy(description) && draft.Some? && ValidTicket(draft.value) &&
      db.tickets == old(db.tickets)[draft.value.id := draft.value] && db.ticketOrder == old(db.ticketOrder) + [draft.value.id] &&
      event == Some(TicketCreatedEvent(draft.value.id, title, description, caller.id)) &&
      r == (if eventDelivered then Response(201, CreatedTicket("Ticket created and processing started", draft.value)) else InternalError)
    ensures r.status == 201 ==> event.Some? && eventDelivered
    ensures !Nullish(body) && Truthy(Member(body, "title")) && Truthy(Member(body, "description")) &&
            Drafted(Draft(Member(body, "title"), Member(body, "description"), old(db.nextId), caller.id, now)) ==>
      event.Some?
    ensures !Nullish(body) && Truthy(Member(body, "title")) && Truthy(Member(body, "description")) &&
            !Drafted(Draft(Member(body, "title"), Member(body, "description"), old(db.nextId), caller.id, now)) ==>
      r == InternalError && event.None? && db.tickets == old(db.tickets)
  {
    event := None;
    if Nullish(body) {
      return InternalError, None;
    }
    var title := Member(body, "title");
    var description := Member(body, "description");
    if !Truthy(title) || !Truthy(description) {
      return Response(400, Message("Title and description are required")), None;
    }
    var castTitle := CastString(title);
    var castDescription := CastString(description);
    if castTitle.None? || castDescription.None? {
      return InternalError, None;
    }
    var created := db.CreateTicket(castTitle.value, castDescription.value, caller.id, now);
    if created.None? {
      return InternalError, None;
    }
    var ticket := created.value;
    assert ticket.id !in old(db.tickets);
    assert db.tickets[ticket.id] == ticket;
    event := Some(TicketCreatedEvent(ticket.id, title, description, caller.id));
    if !eventDelivered {
      return InternalError, event;
    }
    r := Response(201, CreatedTicket("Ticket created and processing started", ticket));
  }

  /** `getTickets`: every ticket the caller's role lets them see, each once, newest first. */
  method GetTickets(db: Database, caller: Caller) returns (r: Response<Payload>)
    requires db.Valid()
    ensures r.status == 200 && r.body.TicketList?
    ensures NewestFirstOrder(r.body.tickets)
    ensures multiset(r.body.tickets) == multiset(Views(caller, VisibleTo(caller, db.AllTickets())))
    ensures forall v :: v in r.body.tickets <==> exists t :: t in db.tickets.Values && Sees(caller, t) && v == View(caller, t)
  {
    var visible := VisibleTo(caller, db.AllTickets());
    var views := Views(caller, visible);
    var sorted := NewestFirst(views);
    forall v ensures v in sorted <==> exists t :: t in db.tickets.Values && Sees(caller, t) && v == View(caller, t) {
      assert v in sorted <==> v in multiset(views);
      if v in views {
        var i :| 0 <= i < |views| && views[i] == v;
        assert visible[i] in db.tickets.Values && Sees(caller, visible[i]);
      }
      if exists t :: t in db.tickets.Values && Sees(caller, t) && v == View(caller, t) {
        var t :| t in db.tickets.Values && Sees(caller, t) && v == View(caller, t);
        var i :| 0 <= i < |visible| && visible[i] == t;
        assert views[i] == v;
      }
    }
    r := Response(200, TicketList(sorted));
  }

  /** `getTicket(id)`: `None` stands for a path parameter that is not an ObjectId, which the
      cast rejects with 500. A ticket the caller may not see is reported as missing. */
  method GetTicket(db: Database, caller: Caller, id: Option<ObjectId>) returns (r: Response<Payload>)
    requires db.Valid()
    ensures id.None? ==> r == InternalError
    ensures id.Some? && id.value in db.tickets && Sees(caller, db.tickets[id.value]) ==>
      r == Response(200, OneTicket(View(caller, db.tickets[id.value])))
    ensures id.Some? && !(id.value in db.tickets && Sees(caller, db.tickets[id.value])) ==>
      r == Response(404, Message("Ticket not found"))
  {
    if id.None? {
      return InternalError;
    }
    var found := db.FindTicket(id.value);
    if caller.role == RegularUser && found.Some? && found.value.createdBy != caller.id {
      found := None;
    }
    if found.None? {
      return Response(404, Message("Ticket not found"));
    }
    r := Response(200, OneTicket(View(caller, found.value)));
  }

  /** One of the four status names, exactly as spelled. */
  function RequestedStatus(body: Value): (s: Option<Status>)
    ensures s.Some? <==> Member(body, "status").Str? && ParseStatus(Member(body, "status").s).Some?
    ensures s.Some? ==> Member(body, "status") == Str(StatusName(s.value))
  {
    var v := Member(body, "status");
    if v.Str? then ParseStatus(v.s) else None
  }

  /** `updateTicketStatus`: the status is checked (400) before the role (403); a caller who
      passes both gets 200 whether or not the ticket exists, and only that ticket's status
      changes. */
  method UpdateTicketStatus(db: Database, caller: Caller, body: Value, id: Option<ObjectId>) returns (r: Response<Payload>)
    requires db.Valid()
    modifies db
    ensures db.Valid()
    ensures db.users == old(db.users) && db.ticketOrder == old(db.ticketOrder) && db.nextId == old(db.nextId)
    ensures Nullish(body) ==> r == InternalError && db.tickets == old(db.tickets)
    ensures !Nullish(body) && RequestedStatus(body).None? ==>
      r == Response(400, Message("Invalid status")) && db.tickets == old(db.tickets)
    ensures !Nullish(body) && RequestedStatus(body).Some? && caller.role == RegularUser ==>
      r == Response(403, Message("Only admins/moderators can update status")) && db.tickets == old(db.tickets)
    ensures !Nullish(body) && RequestedStatus(body).Some? && caller.role != RegularUser && id.None? ==>
      r == InternalError && db.tickets == old(db.tickets)
    ensures !Nullish(body) && RequestedStatus(body).Some? && caller.role != RegularUser && id.Some? ==>
      r == Response(200, Message("Status updated")) &&
      db.tickets == if id.value in old(db.tickets)
        then old(db.tickets)[id.value := old(db.tickets)[id.value].(status := RequestedStatus(body).value)]
        else old(db.tickets)
  {
    if Nullish(body) {
      return InternalError;
    }
    var status := RequestedStatus(body);
    if status.None? {
      return Response(400, Message("Invalid status"));
    }
    if caller.role == RegularUser {
      return Response(403, Message("Only admins/moderators can update status"));
    }
    if id.None? {
      return InternalError;
    }
    db.UpdateTicket(id.value, TicketPatch(Some(status.value), None, None, None, None));
    r := Response(200, Message("Status updated"));
  }

  /** Role "user" sees exactly its own tickets; moderators and admins see every ticket. */
  lemma VisibilityByRole(caller: Caller, ts: seq<Ticket>)
    ensures caller.role == RegularUser ==> forall t :: t in VisibleTo(caller, ts) <==> t in ts && t.createdBy == caller.id
    ensures caller.role != RegularUser ==> VisibleTo(caller, ts) == ts
  {
    if caller.role != RegularUser && ts != [] {
      VisibilityByRole(caller, ts[1..]);
      assert ts == [ts[0]] + ts[1..];
    }
  }

  /** Sorting keeps what is already in order. */
  lemma {:induction false} NewestFirstKeepsSorted(vs: seq<TicketView>)
    requires NewestFirstOrder(vs)
    ensures NewestFirst(vs) == vs
  {
    if vs != [] {
      assert NewestFirstOrder(vs[1..]);
      NewestFirstKeepsSorted(vs[1..]);
      assert vs == [vs[0]] + vs[1..];
    }
  }
}
