/** The background function run for a "ticket/created" event
    (inngest/functions/on-ticket-create.js): fetch the ticket, mark it TODO, classify
    it, write the classification, pick a moderator, write the assignment and mail the
    moderator. The mail delivery is a parameter: whether the SMTP transport accepted
    the message. */
module OnTicketCreate {
  import opened JsValue
  import opened JsString
  import opened TicketModel
  import opened UserModel
  import opened Store
  import opened Ai
  import opened Triage

  /** The message `sendMail(to, subject, text)` is asked to deliver. */
  datatype Mail = Mail(to: string, subject: string, text: string)

  /** The value the function returns: `{ success }`. */
  datatype RunResult = RunResult(success: bool)

  /** The "update-ticket-status" step's patch. */
  const StatusPatch: TicketPatch := TicketPatch(Some(TODO), None, None, None, None)

  /** The "ai-processing" step's patch: the classification when the analysis carries an
      array of skills, otherwise medium priority and no skills, leaving the notes alone. */
  function AnalysisPatch(analysis: Value): TicketPatch {
    match SkillArray(analysis)
    case Some(raw) => TicketPatch(Some(TODO), Some(PriorityOf(analysis)), Some(NotesOf(analysis)), Some(NormaliseSkills(raw)), None)
    case None => TicketPatch(Some(TODO), Some(Medium), None, Some([]), None)
  }

  /** The "assign-moderator" step's patch: `assignedTo` is always written, `null` when
      nobody was found. */
  function AssigneePatch(assignee: Option<User>): TicketPatch {
    TicketPatch(None, None, None, None, Some(if assignee.Some? then Some(assignee.value.id) else None))
  }

  /** The stored ticket `t` as a complete run leaves it, for the classifier's answer
      `analysis` and the user collection `roster`. */
  function CreateTriaged(t: Ticket, analysis: Value, roster: seq<User>): (r: Ticket)
    ensures r.id == t.id && r.title == t.title && r.description == t.description
    ensures r.createdBy == t.createdBy && r.createdAt == t.createdAt
    ensures r.status == TODO
    ensures r.relatedSkills == AnalysedSkills(analysis)
    ensures r.priority == (if SkillArray(analysis).Some? then PriorityOf(analysis) else Medium)
    ensures r.helpfulNotes == (if SkillArray(analysis).Some? then Some(NotesOf(analysis)) else t.helpfulNotes)
    ensures r.assignedTo.Some? <==> ResolveAssignee(roster, AnalysedSkills(analysis)).Some?
    ensures r.assignedTo.Some? ==> r.assignedTo.value == ResolveAssignee(roster, AnalysedSkills(analysis)).value.id
  {
    var assignee := ResolveAssignee(roster, AnalysedSkills(analysis));
    Patched(Patched(Patched(t, StatusPatch), AnalysisPatch(analysis)), AssigneePatch(assignee))
  }

  const NotificationPrefix: string := "A new ticket is assigned to you: "

  /** The notification for the chosen moderator: the fixed sentence, then the ticket's
      title URI-encoded, so the text holds no character outside the unreserved set and '%'
      after the sentence. */
  function Notification(assignee: Option<User>, title: string): (m: Option<Mail>)
    ensures m.Some? <==> assignee.Some?
    ensures m.Some? ==> m.value.to == assignee.value.email && m.value.subject == "Ticket Assigned"
    ensures m.Some? ==> m.value.text == NotificationPrefix + EncodeURIComponent(title)
    ensures m.Some? ==> |m.value.text| >= |NotificationPrefix| && m.value.text[..|NotificationPrefix|] == NotificationPrefix
    ensures m.Some? ==> UriSafe(m.value.text[|NotificationPrefix|..])
  {
    match assignee
    case None => None
    case Some(u) =>
      var text := NotificationPrefix + EncodeURIComponent(title);
      EncodeURIComponentIsUriSafe(title);
      assert text[|NotificationPrefix|..] == EncodeURIComponent(title);
      Some(Mail(u.email, "Ticket Assigned", text))
  }

  /** A title made only of unreserved characters appears in the mail as it is. */
  lemma PlainTitleNotification(u: User, title: string)
    requires forall i :: 0 <= i < |title| ==> Unreserved(title[i])
    ensures Notification(Some(u), title) == Some(Mail(u.email, "Ticket Assigned", NotificationPrefix + title))
  {
    EncodeURIComponentKeepsUnreserved(title);
  }

  /** The "ai-processing" step: writes the classification and hands on the normalised skills. */
  method ProcessAnalysis(db: Database, id: ObjectId, analysis: Value) returns (skills: seq<string>)
    requires db.Valid()
    modifies db
    ensures db.Valid()
    ensures skills == AnalysedSkills(analysis)
    ensures db.tickets == if id in old(db.tickets) then old(db.tickets)[id := Patched(old(db.tickets)[id], AnalysisPatch(analysis))] else old(db.tickets)
    ensures db.ticketOrder == old(db.ticketOrder) && db.users == old(db.users) && db.nextId == old(db.nextId)
  {
    skills := [];
    match SkillArray(analysis) {
      case Some(raw) =>
        skills := NormaliseSkills(raw);
        db.UpdateTicket(id, TicketPatch(Some(TODO), Some(PriorityOf(analysis)), Some(NotesOf(analysis)), Some(skills), None));
      case None =>
        db.UpdateTicket(id, TicketPatch(Some(TODO), Some(Medium), None, Some([]), None));
    }
  }

  /** The "assign-moderator" step: looks for a skilled moderator, then for any moderator, and
      writes the result, `null` included. */
  method AssignModerator(db: Database, id: ObjectId, skills: seq<string>) returns (user: Option<User>)
    requires db.Valid()
    modifies db
    ensures db.Valid()
    ensures user == ResolveAssignee(db.users, skills)
    ensures db.tickets == if id in old(db.tickets) then old(db.tickets)[id := Patched(old(db.tickets)[id], AssigneePatch(user))] else old(db.tickets)
    ensures db.ticketOrder == old(db.ticketOrder) && db.users == old(db.users) && db.nextId == old(db.nextId)
  {
    user := None;
    if |skills| > 0 {
      user := FindFirst(db.users, (u: User) => SkilledModerator(u, skills));
    }
    if user.None? {
      user := FindFirst(db.users, IsModerator);
    }
    db.UpdateTicket(id, AssigneePatch(user));
  }

  /** One run for the event's `ticketId`, with the classifier's reply `reply` (None when the
      request failed) and `parse` standing for `JSON.parse`. A missing ticket ends the run
      before any write; a mail the transport refuses ends it after every write. */
  method OnTicketCreated(db: Database, ticketId: ObjectId, reply: Option<Value>, parse: string -> Option<Value>, mailDelivered: bool)
    returns (result: RunResult, mail: Option<Mail>)
    requires db.Valid()
    modifies db
    ensures db.Valid()
    ensures ticketId !in old(db.tickets) ==> !result.success && mail.None? && db.tickets == old(db.tickets)
    ensures ticketId in old(db.tickets) ==>
      var t := old(db.tickets)[ticketId];
      var analysis := AnalyzeTicket(t.title, t.description, reply, parse);
      db.tickets == old(db.tickets)[ticketId := CreateTriaged(t, analysis, old(db.users))] &&
      mail == Notification(ResolveAssignee(old(db.users), AnalysedSkills(analysis)), t.title) &&
      (result.success <==> mail.None? || mailDelivered)
    ensures db.ticketOrder == old(db.ticketOrder) && db.users == old(db.users) && db.nextId == old(db.nextId)
  {
    // fetch-ticket
    var found := db.FindTicket(ticketId);
    if found.None? {
      return RunResult(false), None;
    }
    var ticket := found.value;
    assert ticket.id == ticketId;
    ghost var before := db.tickets;
    ghost var roster0 := db.users;

    // update-ticket-status
    db.UpdateTicket(ticket.id, StatusPatch);
    ghost var t1 := Patched(ticket, StatusPatch);
    assert db.tickets == before[ticketId := t1];

    var analysis := AnalyzeTicket(ticket.title, ticket.description, reply, parse);
    ghost var m1 := db.tickets;
    assert ticketId in m1 && m1[ticketId] == t1;
    var skills := ProcessAnalysis(db, ticket.id, analysis);
    ghost var t2 := Patched(t1, AnalysisPatch(analysis));
    assert db.tickets == m1[ticketId := t2];
    OverwriteTwice(before, ticketId, t1, t2);

    ghost var m2 := db.tickets;
    assert ticketId in m2 && m2[ticketId] == t2;
    var user := AssignModerator(db, ticket.id, skills);
    ghost var t3 := Patched(t2, AssigneePatch(user));
    assert db.tickets == m2[ticketId := t3];
    OverwriteTwice(before, ticketId, t2, t3);
    assert t3 == CreateTriaged(ticket, analysis, roster0) by {
      StepsCompose(ticket, analysis, roster0, user);
    }

    // send-email-notification
    mail := None;
    if user.Some? {
      var finalTicket := db.FindTicket(ticket.id);
      assert finalTicket.value.title == ticket.title;
      mail := Some(Mail(user.value.email, "Ticket Assigned", NotificationPrefix + EncodeURIComponent(finalTicket.value.title)));
      assert mail == Notification(user, ticket.title);
      if !mailDelivered {
        return RunResult(false), mail;
      }
    }
    return RunResult(true), mail;
  }

  lemma OverwriteTwice(m: map<ObjectId, Ticket>, k: ObjectId, a: Ticket, b: Ticket)
    ensures m[k := a][k := b] == m[k := b]
  {
  }

  /** The three patches of a run add up to the ticket `CreateTriaged` describes. */
  lemma StepsCompose(t: Ticket, analysis: Value, roster: seq<User>, user: Option<User>)
    requires user == ResolveAssignee(roster, AnalysedSkills(analysis))
    ensures Patched(Patched(Patched(t, StatusPatch), AnalysisPatch(analysis)), AssigneePatch(user)) == CreateTriaged(t, analysis, roster)
  {
  }

  /** Only a moderator of the roster is ever assigned, and the ticket is left unassigned
      exactly when the roster holds no moderator. */
  lemma CreateAssignsModerators(t: Ticket, analysis: Value, roster: seq<User>)
    ensures CreateTriaged(t, analysis, roster).assignedTo.Some? ==>
      exists i :: 0 <= i < |roster| && roster[i].id == CreateTriaged(t, analysis, roster).assignedTo.value && roster[i].role == Moderator
    ensures CreateTriaged(t, analysis, roster).assignedTo.None? <==> forall i :: 0 <= i < |roster| ==> roster[i].role != Moderator
  {
    var a := ResolveAssignee(roster, AnalysedSkills(analysis));
    if a.Some? {
      var i :| 0 <= i < |roster| && roster[i] == a.value;
      assert roster[i].id == CreateTriaged(t, analysis, roster).assignedTo.value;
    }
  }

  /** When the answer has an array of skills, the run rewrites every triage field: what the
      ticket held before does not matter. */
  lemma CreateOverwritesTriage(t: Ticket, analysis: Value, roster: seq<User>,
                               status: Status, priority: Priority, notes: Option<string>, skills: seq<string>, assignedTo: Option<ObjectId>)
    requires SkillArray(analysis).Some?
    ensures CreateTriaged(t.(status := status, priority := priority, helpfulNotes := notes, relatedSkills := skills, assignedTo := assignedTo), analysis, roster)
         == CreateTriaged(t, analysis, roster)
  {
  }

  /** Running the whole function again on its own result, with the same answer and roster,
      changes nothing. */
  lemma CreateIdempotent(t: Ticket, analysis: Value, roster: seq<User>)
    ensures CreateTriaged(CreateTriaged(t, analysis, roster), analysis, roster) == CreateTriaged(t, analysis, roster)
  {
  }

  /** When the classifier cannot be reached, the ticket takes the keyword classifier's
      priority, the fixed notes and the normalised keyword skills. */
  lemma CreateAfterFailedRequest(t: Ticket, parse: string -> Option<Value>, roster: seq<User>)
    ensures var r := CreateTriaged(t, AnalyzeTicket(t.title, t.description, None, parse), roster);
      r.priority == FallbackPriority(t.title, t.description) &&
      r.helpfulNotes == Some(FallbackNotes) &&
      r.relatedSkills == NormaliseSkills(StrArray(FallbackSkills(t.title, t.description)).items)
  {
    var analysis := AnalyzeTicket(t.title, t.description, None, parse);
    assert analysis == FallbackAnalysis(t.title, t.description);
    PriorityOfNamed(analysis, FallbackPriority(t.title, t.description));
  }

  /** The keyword classifier's "General" is dropped: such a ticket goes to the first
      moderator, whatever skills the moderators have. */
  lemma GeneralTicketGoesToFirstModerator(t: Ticket, parse: string -> Option<Value>, roster: seq<User>)
    requires FallbackSkills(t.title, t.description) == [Placeholder]
    ensures var r := CreateTriaged(t, AnalyzeTicket(t.title, t.description, None, parse), roster);
      r.relatedSkills == [] &&
      r.assignedTo == (var m := FindFirst(roster, IsModerator); if m.Some? then Some(m.value.id) else None)
  {
    CreateAfterFailedRequest(t, parse, roster);
    assert StrArray([Placeholder]).items == [Str(Placeholder)];
    PlaceholderDropped();
    NoSkillsFirstModerator(roster);
  }
}
