/** The background function run for a "ticket/refresh" event
    (inngest/functions/on-ticket-refresh.js): classify the ticket again and reassign it.
    Unlike the create run it never touches the status, writes the classification only
    when the answer carries an array of skills, and writes `assignedTo` only when a
    moderator was found. */
module OnTicketRefresh {
  import opened JsValue
  import opened TicketModel
  import opened UserModel
  import opened Store
  import opened Ai
  import opened Triage
  import opened OnTicketCreate

  /** The "ai-analysis" step's patch, when there is one. */
  function RefreshPatch(analysis: Value): Option<TicketPatch> {
    match SkillArray(analysis)
    case Some(raw) => Some(TicketPatch(None, Some(PriorityOf(analysis)), Some(NotesOf(analysis)), Some(NormaliseSkills(raw)), None))
    case None => None
  }

  /** The stored ticket `t` as a complete refresh leaves it. */
  function RefreshTriaged(t: Ticket, analysis: Value, roster: seq<User>): (r: Ticket)
    ensures r.id == t.id && r.title == t.title && r.description == t.description
    ensures r.createdBy == t.createdBy && r.createdAt == t.createdAt
    ensures r.status == t.status
    ensures SkillArray(analysis).Some? ==>
      r.priority == PriorityOf(analysis) && r.helpfulNotes == Some(NotesOf(analysis)) && r.relatedSkills == AnalysedSkills(analysis)
    ensures SkillArray(analysis).None? ==>
      r.priority == t.priority && r.helpfulNotes == t.helpfulNotes && r.relatedSkills == t.relatedSkills
    ensures ResolveAssignee(roster, AnalysedSkills(analysis)).Some? ==>
      r.assignedTo == Some(ResolveAssignee(roster, AnalysedSkills(analysis)).value.id)
    ensures ResolveAssignee(roster, AnalysedSkills(analysis)).None? ==> r.assignedTo == t.assignedTo
  {
    var classified := if RefreshPatch(analysis).Some? then Patched(t, RefreshPatch(analysis).value) else t;
    var assignee := ResolveAssignee(roster, AnalysedSkills(analysis));
    if assignee.Some? then Patched(classified, AssigneePatch(assignee)) else classified
  }

  /** The "ai-analysis" step: writes the classification only when the answer has an array
      of skills, and hands on the normalised skills (none otherwise). */
  method Reanalyse(db: Database, id: ObjectId, analysis: Value) returns (skills: seq<string>)
    requires db.Valid()
    modifies db
    ensures db.Valid()
    ensures skills == AnalysedSkills(analysis)
    ensures db.tickets == if id in old(db.tickets) && RefreshPatch(analysis).Some?
      then old(db.tickets)[id := Patched(old(db.tickets)[id], RefreshPatch(analysis).value)] else old(db.tickets)
    ensures db.ticketOrder == old(db.ticketOrder) && db.users == old(db.users) && db.nextId == old(db.nextId)
  {
    skills := [];
    match SkillArray(analysis) {
      case Some(raw) =>
        skills := NormaliseSkills(raw);
        db.UpdateTicket(id, TicketPatch(None, Some(PriorityOf(analysis)), Some(NotesOf(analysis)), Some(skills), None));
      case None =>
    }
  }

  /** The "assign-user" step: the same search as the create run, but nothing is written when
      it finds nobody. */
  method Reassign(db: Database, id: ObjectId, skills: seq<string>) returns (user: Option<User>)
    requires db.Valid()
    modifies db
    ensures db.Valid()
    ensures user == ResolveAssignee(db.users, skills)
    ensures db.tickets == if id in old(db.tickets) && user.Some?
      then old(db.tickets)[id := Patched(old(db.tickets)[id], AssigneePatch(user))] else old(db.tickets)
    ensures db.ticketOrder == old(db.ticketOrder) && db.users == old(db.users) && db.nextId == old(db.nextId)
  {
    user := None;
    if |skills| > 0 {
      user := FindFirst(db.users, (u: User) => SkilledModerator(u, skills));
    }
    if user.None? {
      user := FindFirst(db.users, IsModerator);
    }
    if user.Some? {
      db.UpdateTicket(id, TicketPatch(None, None, None, None, Some(Some(user.value.id))));
    }
  }

  /** One refresh run for the event's `ticketId`. */
  method OnTicketRefreshed(db: Database, ticketId: ObjectId, reply: Option<Value>, parse: string -> Option<Value>)
    returns (result: RunResult)
    requires db.Valid()
    modifies db
    ensures db.Valid()
    ensures result.success <==> ticketId in old(db.tickets)
    ensures ticketId !in old(db.tickets) ==> db.tickets == old(db.tickets)
    ensures ticketId in old(db.tickets) ==>
      var t := old(db.tickets)[ticketId];
      db.tickets == old(db.tickets)[ticketId := RefreshTriaged(t, AnalyzeTicket(t.title, t.description, reply, parse), old(db.users))]
    ensures db.ticketOrder == old(db.ticketOrder) && db.users == old(db.users) && db.nextId == old(db.nextId)
  {
    // fetch-ticket
    var found := db.FindTicket(ticketId);
    if found.None? {
      return RunResult(false);
    }
    var ticket := found.value;
    assert ticket.id == ticketId;
    ghost var before := db.tickets;
    ghost var roster0 := db.users;

    // ai-analysis
    var analysis := AnalyzeTicket(ticket.title, ticket.description, reply, parse);
    var skills := Reanalyse(db, ticket.id, analysis);
    ghost var t1 := if RefreshPatch(analysis).Some? then Patched(ticket, RefreshPatch(analysis).value) else ticket;
    if RefreshPatch(analysis).None? {
      SameValueOverwrite(before, ticketId);
    }
    assert db.tickets == before[ticketId := t1];

    // assign-user
    ghost var m1 := db.tickets;
    assert ticketId in m1 && m1[ticketId] == t1;
    var user := Reassign(db, ticket.id, skills);
    ghost var t2 := if user.Some? then Patched(t1, AssigneePatch(user)) else t1;
    if user.Some? {
      assert db.tickets == m1[ticketId := t2];
    } else {
      assert db.tickets == m1;
      SameValueOverwrite(m1, ticketId);
    }
    OverwriteTwice(before, ticketId, t1, t2);
    assert t2 == RefreshTriaged(ticket, analysis, roster0) by {
      RefreshStepsCompose(ticket, analysis, roster0, user);
    }
    return RunResult(true);
  }

  lemma SameValueOverwrite(m: map<ObjectId, Ticket>, k: ObjectId)
    requires k in m
    ensures m[k := m[k]] == m
  {
  }

  /** The two steps of a refresh add up to the ticket `RefreshTriaged` describes. */
  lemma RefreshStepsCompose(t: Ticket, analysis: Value, roster: seq<User>, user: Option<User>)
    requires user == ResolveAssignee(roster, AnalysedSkills(analysis))
    ensures var t1 := if RefreshPatch(analysis).Some? then Patched(t, RefreshPatch(analysis).value) else t;
      (if user.Some? then Patched(t1, AssigneePatch(user)) else t1) == RefreshTriaged(t, analysis, roster)
  {
  }

  /** A refresh never changes the status a ticket has. */
  lemma RefreshKeepsStatus(t: Ticket, analysis: Value, roster: seq<User>)
    ensures RefreshTriaged(t, analysis, roster).status == t.status
  {
  }

  /** Refreshing twice with the same answer and roster is refreshing once. */
  lemma RefreshIdempotent(t: Ticket, analysis: Value, roster: seq<User>)
    ensures RefreshTriaged(RefreshTriaged(t, analysis, roster), analysis, roster) == RefreshTriaged(t, analysis, roster)
  {
  }

  /** A refresh with an unusable answer and no moderator in the roster leaves the ticket as it was. */
  lemma RefreshWithNothingChangesNothing(t: Ticket, analysis: Value, roster: seq<User>)
    requires SkillArray(analysis).None?
    requires forall i :: 0 <= i < |roster| ==> roster[i].role != Moderator
    ensures RefreshTriaged(t, analysis, roster) == t
  {
  }

  /** Where the two runs agree: with an array of skills in the answer and a moderator to
      assign, a refresh of a TODO ticket writes just what the create run writes. */
  lemma RefreshMatchesCreate(t: Ticket, analysis: Value, roster: seq<User>)
    requires SkillArray(analysis).Some?
    requires exists i :: 0 <= i < |roster| && roster[i].role == Moderator
    ensures RefreshTriaged(t.(status := TODO), analysis, roster) == CreateTriaged(t, analysis, roster)
  {
  }

  /** and where they differ: without a moderator the create run clears `assignedTo` while a
      refresh keeps it; without an array of skills the create run resets priority and
      skills while a refresh keeps them. */
  lemma RefreshDiffersFromCreate(t: Ticket, analysis: Value, roster: seq<User>)
    ensures (forall i :: 0 <= i < |roster| ==> roster[i].role != Moderator) ==>
      CreateTriaged(t, analysis, roster).assignedTo.None? && RefreshTriaged(t, analysis, roster).assignedTo == t.assignedTo
    ensures SkillArray(analysis).None? ==>
      CreateTriaged(t, analysis, roster).priority == Medium && CreateTriaged(t, analysis, roster).relatedSkills == [] &&
      RefreshTriaged(t, analysis, roster).priority == t.priority && RefreshTriaged(t, analysis, roster).relatedSkills == t.relatedSkills
  {
  }
}
