/** The two MongoDB collections the server reads and writes, with the Mongoose
    operations the code calls on them: `findById`, `find`, `findOne`,
    `countDocuments`, `create` (which runs the schema validators and the unique
    index on email), `findByIdAndUpdate` and `updateOne` (which run neither). */
module Store {
  import opened JsValue
  import opened TicketModel
  import opened UserModel

  /** The fields one `Ticket.findByIdAndUpdate` sets; `None` leaves a field as it is. */
  datatype TicketPatch = TicketPatch(
    status: Option<Status>,
    priority: Option<Priority>,
    helpfulNotes: Option<string>,
    relatedSkills: Option<seq<string>>,
    assignedTo: Option<Option<ObjectId>>)

  function Patched(t: Ticket, p: TicketPatch): (r: Ticket)
    ensures r.id == t.id && r.title == t.title && r.description == t.description
    ensures r.createdBy == t.createdBy && r.createdAt == t.createdAt
    ensures r.status == (if p.status.Some? then p.status.value else t.status)
    ensures r.priority == (if p.priority.Some? then p.priority.value else t.priority)
    ensures r.helpfulNotes == (if p.helpfulNotes.Some? then Some(p.helpfulNotes.value) else t.helpfulNotes)
    ensures r.relatedSkills == (if p.relatedSkills.Some? then p.relatedSkills.value else t.relatedSkills)
    ensures r.assignedTo == (if p.assignedTo.Some? then p.assignedTo.value else t.assignedTo)
    ensures p == TicketPatch(None, None, None, None, None) ==> r == t
  {
    Ticket(t.id, t.title, t.description,
           if p.status.Some? then p.status.value else t.status,
           t.createdBy,
           if p.assignedTo.Some? then p.assignedTo.value else t.assignedTo,
           if p.priority.Some? then p.priority.value else t.priority,
           if p.helpfulNotes.Some? then Some(p.helpfulNotes.value) else t.helpfulNotes,
           if p.relatedSkills.Some? then p.relatedSkills.value else t.relatedSkills,
           t.createdAt)
  }

  /** The fields one `User.updateOne` sets (the `updateData` object). */
  datatype UserPatch = UserPatch(skills: Option<seq<string>>, role: Option<Role>)

  function PatchedUser(u: User, p: UserPatch): (r: User)
    ensures r.id == u.id && r.email == u.email && r.password == u.password && r.createdAt == u.createdAt
    ensures r.role == (if p.role.Some? then p.role.value else u.role)
    ensures r.skills == (if p.skills.Some? then p.skills.value else u.skills)
    ensures p == UserPatch(None, None) ==> r == u
  {
    User(u.id, u.email, u.password,
         if p.role.Some? then p.role.value else u.role,
         if p.skills.Some? then p.skills.value else u.skills,
         u.createdAt)
  }

  /** `us[i]` is the first user that satisfies `p`: what `findOne` returns in natural order. */
  ghost predicate FirstAt(us: seq<User>, p: User -> bool, i: int) {
    0 <= i < |us| && p(us[i]) && forall j :: 0 <= j < i ==> !p(us[j])
  }

  /** `User.findOne(filter)` with the filter as a predicate. */
  function FindFirst(us: seq<User>, p: User -> bool): (r: Option<User>)
    ensures r.None? <==> (forall i :: 0 <= i < |us| ==> !p(us[i]))
    ensures forall i :: FirstAt(us, p, i) ==> r == Some(us[i])
    ensures r.Some? ==> exists i :: FirstAt(us, p, i) && r.value == us[i]
  {
    if us == [] then None
    else if p(us[0]) then
      assert FirstAt(us, p, 0);
      Some(us[0])
    else
      var r := FindFirst(us[1..], p);
      assert forall i :: FirstAt(us, p, i) ==> i > 0 && FirstAt(us[1..], p, i - 1);
      assert forall i :: FirstAt(us[1..], p, i) ==> FirstAt(us, p, i + 1);
      r
  }

  /** Why `User.create` rejected a document. */
  datatype CreateError = ValidationError | DuplicateKey

  datatype CreateResult = Created(user: User) | Rejected(error: CreateError)

  predicate EmailTaken(us: seq<User>, email: string) {
    exists i :: 0 <= i < |us| && us[i].email == email
  }

  /** A document `User.create` stores: the validators pass and the email is free. */
  predicate Admissible(u: User, users: seq<User>) {
    ValidUser(u) && !EmailTaken(users, u.email)
  }

  class Database {
    var tickets: map<ObjectId, Ticket>
    /** The ticket collection's natural order: ids in insertion order. */
    var ticketOrder: seq<ObjectId>
    /** The user collection in natural order. */
    var users: seq<User>
    /** The next ObjectId to hand out. */
    var nextId: ObjectId

    /** Every stored ticket is keyed by its own id and passed the schema's validators;
        users have distinct ids and, by the unique index, distinct emails. */
    ghost predicate Valid()
      reads this
    {
      (forall id :: id in tickets <==> id in ticketOrder) &&
      (forall i, j :: 0 <= i < j < |ticketOrder| ==> ticketOrder[i] != ticketOrder[j]) &&
      (forall id :: id in tickets ==> tickets[id].id == id && id < nextId && ValidTicket(tickets[id])) &&
      (forall i :: 0 <= i < |users| ==> users[i].id < nextId && ValidUser(users[i])) &&
      (forall i, j :: 0 <= i < j < |users| ==> users[i].id != users[j].id && users[i].email != users[j].email)
    }

    constructor ()
      ensures Valid()
      ensures tickets == map[] && ticketOrder == [] && users == [] && nextId == 0
    {
      tickets, ticketOrder, users, nextId := map[], [], [], 0;
    }

    /** `Ticket.findById(id)` */
    function FindTicket(id: ObjectId): (r: Option<Ticket>)
      reads this
      ensures r.Some? <==> id in tickets
      ensures r.Some? ==> r.value == tickets[id]
    {
      if id in tickets then Some(tickets[id]) else None
    }

    /** `Ticket.find({})` in natural order. */
    function AllTickets(): (r: seq<Ticket>)
      reads this
      requires Valid()
      ensures |r| == |ticketOrder|
      ensures forall t :: t in r <==> t in tickets.Values
      ensures forall i, j :: 0 <= i < j < |r| ==> r[i].id != r[j].id
    {
      assert forall i :: 0 <= i < |ticketOrder| ==> ticketOrder[i] in tickets;
      var r := InOrder(ticketOrder, tickets);
      assert forall t :: t in tickets.Values ==> t in r by {
        forall t | t in tickets.Values ensures t in r {
          var id :| id in tickets && tickets[id] == t;
          var i :| 0 <= i < |ticketOrder| && ticketOrder[i] == id;
          assert r[i] == t;
        }
      }
      r
    }

    /** `User.findOne({ email })` */
    function UserByEmail(email: string): (r: Option<User>)
      reads this
      ensures r.None? <==> !EmailTaken(users, email)
      ensures r.Some? ==> r.value in users && r.value.email == email
    {
      FindFirst(users, (u: User) => u.email == email)
    }

    /** `User.findById(id)` */
    function UserById(id: ObjectId): (r: Option<User>)
      reads this
      ensures r.None? <==> (forall i :: 0 <= i < |users| ==> users[i].id != id)
      ensures r.Some? ==> r.value in users && r.value.id == id
    {
      FindFirst(users, (u: User) => u.id == id)
    }

    /** `Ticket.create(doc)`: the validators run first; a document they reject is not stored. */
    method CreateTicket(title: string, description: string, createdBy: ObjectId, now: int) returns (r: Option<Ticket>)
      requires Valid()
      modifies this
      ensures Valid()
      ensures r.None? <==> !ValidTicket(NewTicket(old(nextId), title, description, createdBy, now))
      ensures r.None? ==> tickets == old(tickets) && ticketOrder == old(ticketOrder) && nextId == old(nextId)
      ensures r.Some? ==> r.value == NewTicket(old(nextId), title, description, createdBy, now)
      ensures r.Some? ==> tickets == old(tickets)[old(nextId) := r.value] && old(nextId) !in old(tickets)
      ensures r.Some? ==> ticketOrder == old(ticketOrder) + [old(nextId)] && nextId == old(nextId) + 1
      ensures users == old(users)
    {
      var t := NewTicket(nextId, title, description, createdBy, now);
      if !ValidTicket(t) {
        return None;
      }
      assert nextId !in ticketOrder;
      tickets := tickets[nextId := t];
      ticketOrder := ticketOrder + [nextId];
      nextId := nextId + 1;
      r := Some(t);
    }

    /** `Ticket.findByIdAndUpdate(id, patch)`: no validators run; a missing id changes nothing. */
    method UpdateTicket(id: ObjectId, p: TicketPatch)
      requires Valid()
      modifies this
      ensures Valid()
      ensures tickets == if id in old(tickets) then old(tickets)[id := Patched(old(tickets)[id], p)] else old(tickets)
      ensures ticketOrder == old(ticketOrder) && users == old(users) && nextId == old(nextId)
    {
      if id in tickets {
        var t := Patched(tickets[id], p);
        assert t.id == id && ValidTicket(t);
        tickets := tickets[id := t];
      }
    }

    /** `User.create(doc)`: the schema's validators, then the unique index on email. */
    method CreateUser(email: string, password: string, role: Role, skills: seq<string>, now: int) returns (r: CreateResult)
      requires Valid()
      modifies this
      ensures Valid()
      ensures r.Rejected? ==> users == old(users) && nextId == old(nextId)
      ensures r == Rejected(ValidationError) <==> !ValidUser(NewUser(old(nextId), email, password, role, skills, now))
      ensures r == Rejected(DuplicateKey) <==>
        ValidUser(NewUser(old(nextId), email, password, role, skills, now)) && EmailTaken(old(users), email)
      ensures r.Created? <==> Admissible(NewUser(old(nextId), email, password, role, skills, now), old(users))
      ensures r.Created? ==> r.user == NewUser(old(nextId), email, password, role, skills, now)
      ensures r.Created? ==> users == old(users) + [r.user] && nextId == old(nextId) + 1
      ensures tickets == old(tickets) && ticketOrder == old(ticketOrder)
    {
      var u := NewUser(nextId, email, password, role, skills, now);
      if !ValidUser(u) {
        return Rejected(ValidationError);
      }
      if UserByEmail(email).Some? {
        return Rejected(DuplicateKey);
      }
      users := users + [u];
      nextId := nextId + 1;
      r := Created(u);
    }

    /** `User.updateOne(filter, patch)`: the first user the filter selects is patched; no validators run. */
    method UpdateFirstUser(select: User -> bool, p: UserPatch)
      requires Valid()
      modifies this
      ensures Valid()
      ensures |users| == |old(users)|
      ensures forall i :: 0 <= i < |users| ==> users[i] == (if FirstAt(old(users), select, i) then PatchedUser(old(users)[i], p) else old(users)[i])
      ensures tickets == old(tickets) && ticketOrder == old(ticketOrder) && nextId == old(nextId)
    {
      var k := FindFirstIndex(users, select);
      if k < |users| {
        var v := PatchedUser(users[k], p);
        assert ValidUser(v) by {
          SameCredentials(users[k], v);
        }
        users := users[k := v];
      }
    }
  }

  /** The validators read only the email and the password. */
  lemma SameCredentials(u: User, v: User)
    requires ValidUser(u) && v.email == u.email && v.password == u.password
    ensures ValidUser(v)
  {
  }

  /** The tickets of `m` listed in the order `order` gives. */
  function InOrder(order: seq<ObjectId>, m: map<ObjectId, Ticket>): (r: seq<Ticket>)
    requires forall i :: 0 <= i < |order| ==> order[i] in m
    ensures |r| == |order| && forall i :: 0 <= i < |order| ==> r[i] == m[order[i]]
  {
    seq(|order|, i requires 0 <= i < |order| => m[order[i]])
  }

  /** The position of the first user that satisfies `p`, or `|us|` when none does. */
  function FindFirstIndex(us: seq<User>, p: User -> bool): (k: nat)
    ensures k <= |us|
    ensures k < |us| ==> FirstAt(us, p, k)
    ensures k == |us| ==> forall i :: 0 <= i < |us| ==> !p(us[i])
    ensures forall i :: FirstAt(us, p, i) ==> i == k
  {
    if us == [] then 0
    else if p(us[0]) then 0
    else
      var k := FindFirstIndex(us[1..], p);
      assert forall i :: FirstAt(us, p, i) ==> i > 0 && FirstAt(us[1..], p, i - 1);
      assert forall i :: FirstAt(us[1..], p, i) ==> FirstAt(us, p, i + 1);
      k + 1
  }
}
