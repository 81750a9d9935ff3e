/** The Ticket schema (models/ticket.js): the status and priority enumerations,
    the field defaults a new document receives, and the length bounds that
    Mongoose checks when a ticket is created. */
module TicketModel {
  import opened JsValue
  import opened JsString

  /** A MongoDB ObjectId, shared by tickets and users. */
  type ObjectId = nat

  datatype Status = TODO | IN_PROGRESS | DONE | CANCELLED

  datatype Priority = Low | Medium | High

  datatype Ticket = Ticket(
    id: ObjectId,
    title: string,
    description: string,
    status: Status,
    createdBy: ObjectId,
    assignedTo: Option<ObjectId>,
    priority: Priority,
    helpfulNotes: Option<string>,
    relatedSkills: seq<string>,
    createdAt: int)

  const MaxTitleLength: nat := 200
  const MaxDescriptionLength: nat := 2000

  function StatusName(s: Status): string {
    match s
    case TODO => "TODO"
    case IN_PROGRESS => "IN_PROGRESS"
    case DONE => "DONE"
    case CANCELLED => "CANCELLED"
  }

  /** Membership in the status enumeration, case-sensitive. */
  function ParseStatus(s: string): (r: Option<Status>)
    ensures r.Some? ==> StatusName(r.value) == s
  {
    if s == "TODO" then Some(TODO)
    else if s == "IN_PROGRESS" then Some(IN_PROGRESS)
    else if s == "DONE" then Some(DONE)
    else if s == "CANCELLED" then Some(CANCELLED)
    else None
  }

  lemma StatusNameRoundTrip(st: Status)
    ensures ParseStatus(StatusName(st)) == Some(st)
  {
  }

  function PriorityName(p: Priority): string {
    match p
    case Low => "low"
    case Medium => "medium"
    case High => "high"
  }

  /** Membership in the priority enumeration, case-sensitive. */
  function ParsePriority(s: string): (r: Option<Priority>)
    ensures r.Some? ==> PriorityName(r.value) == s
  {
    if s == "low" then Some(Low)
    else if s == "medium" then Some(Medium)
    else if s == "high" then Some(High)
    else None
  }

  lemma PriorityNameRoundTrip(p: Priority)
    ensures ParsePriority(PriorityName(p)) == Some(p)
  {
  }

  /** A string that satisfies `required` and `maxlength`: Mongoose rejects the empty string
      as missing and counts length in UTF-16 code units. */
  predicate RequiredWithin(s: string, max: nat) {
    s != "" && Utf16Length(s) <= max
  }

  /** The schema's validators: title and description required and bounded. */
  predicate ValidTicket(t: Ticket) {
    RequiredWithin(t.title, MaxTitleLength) && RequiredWithin(t.description, MaxDescriptionLength)
  }

  /** The document `Ticket.create({title, description, createdBy})` builds before validation:
      every other field takes its schema default. */
  function NewTicket(id: ObjectId, title: string, description: string, createdBy: ObjectId, now: int): (t: Ticket)
    ensures t.id == id && t.title == title && t.description == description && t.createdBy == createdBy
    ensures t.status == TODO && t.priority == Medium && t.assignedTo == None
    ensures t.helpfulNotes == None && t.relatedSkills == [] && t.createdAt == now
  {
    Ticket(id, title, description, TODO, createdBy, None, Medium, None, [], now)
  }

  /** Mongoose's cast of a request value to a String path: strings are kept, numbers and
      booleans are printed, an object is replaced by its `_id` when that is a non-empty
      string; anything else is a cast error (None): an array, and an object whose
      `toString` is the default one. `null` and `undefined` never get here: the controller
      refuses falsy values first. */
  function CastString(v: Value): (r: Option<string>)
    ensures v.Str? ==> r == Some(v.s)
    ensures v.Num? ==> r == Some(IntToString(v.n))
    ensures v.Bool? ==> r == Some(if v.b then "true" else "false")
    ensures v.Obj? ==> (r.Some? <==> "_id" in v.fields && v.fields["_id"].Str? && v.fields["_id"].s != "")
    ensures v.Obj? && r.Some? ==> r.value == v.fields["_id"].s
    ensures v.Arr? || Nullish(v) ==> r == None
  {
    match v
    case Str(s) => Some(s)
    case Num(n) => Some(IntToString(n))
    case Bool(b) => Some(if b then "true" else "false")
    case Obj(fields) => if "_id" in fields && fields["_id"].Str? && fields["_id"].s != "" then Some(fields["_id"].s) else None
    case _ => None
  }
}
