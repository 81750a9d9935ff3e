# AI ticket assistant: a Dafny model of the server core

This project models the Express/MongoDB back end of the AI ticket assistant (`ai-ticket-assistant/`):

- **Data model.** The Ticket and User schemas, with their enumerations, defaults and validators.
- **Ticket classification.** The classifier in `utils/ai.js`. It calls a generative-language service and falls back to keyword rules when that fails.
- **Background functions.** The two functions run for the "ticket/created" and "ticket/refresh" events. Each classifies a ticket, normalises its skills through an alias table and assigns it to a moderator. The create run also mails the moderator.
- **Route handlers.** The handlers for tickets and users.
- **CSRF filter.** The request filter in `middlewares/csrf.js`.

## How the model is built

**Collections.** Both MongoDB collections live in one `Store.Database` object:

- a map of tickets, with their insertion order;
- the sequence of users in natural order, which makes `findOne`'s "first match" well defined;
- the next ObjectId to hand out.

Each Mongoose call the code makes is a method or function of that object: `findById`, `find`, `findOne`, `create` (which runs the validators and the unique email index), `findByIdAndUpdate` and `updateOne`. The object's invariant `Valid()` says:

- every stored ticket passed the schema's validators;
- every stored user passed them too;
- emails are unique.

Every operation keeps that invariant.

**Pipelines.** Each background function and each handler is a method that performs the same sequence of store calls as the source. The two background runs normalise skills with the corrected lookup of "## Findings", which reads only the alias table's own entries; the code also finds the names every object inherits. The two differ only for the tokens "constructor" and "__proto__", and "## Left out" says what the runs then do not capture. The net effect of a background run is given by a pure function of the old ticket, the classifier's answer and the user collection:

- `OnTicketCreate.CreateTriaged` for the create run;
- `OnTicketRefresh.RefreshTriaged` for the refresh run.

Lemmas then relate those functions: idempotence, what the runs overwrite, where the two runs agree and where they differ.

**Oracles.** Things outside the process are parameters:

| outside the process | model parameter |
|---|---|
| the decoded reply of the classification service | `reply: Option<Value>`; `None` when the request or `response.json()` threw |
| `JSON.parse` | `parse`; `None` on a syntax error |
| bcrypt | `hash`, `compare` |
| `jwt.sign` | `sign` |
| the clock | `now` |
| whether an email or an Inngest event was delivered | a `bool` |

**Callers and bodies.**

- The authenticated caller is the payload of the token: `Http.Caller(id, role)`.
- Request bodies and the classifier's answer are JSON values (`JsValue.Value`). They are read with JavaScript's truthiness, `typeof` tests and the defaults that destructuring gives.

**JavaScript built-ins.** `trim`, `toLowerCase`, `indexOf`, `lastIndexOf`, `substring` (including its swapping of reversed bounds), `includes` and `encodeURIComponent` are modelled in `JsString`.

**Behaviour of the code the model keeps, where a reader might expect otherwise:**

- The skill normaliser does not remove duplicates (`Triage.DuplicatesKept`).
- `JSON.parse` receives the text from the first `{` to the last `}`, which need not be a balanced span (`Ai.SpanFromFirstToLastBrace`, `Ai.SpanWhenBracesInverted`).
- A failed mail delivery fails the create run: the exception reaches the run's `catch`, and `{ success: false }` is returned after every ticket write (`OnTicketCreate.OnTicketCreated`).
- The create run always writes `assignedTo`, `null` when no moderator exists. The refresh run writes it only when it found one (`OnTicketRefresh.RefreshDiffersFromCreate`).
- The password's `minlength` of 8 is checked against the bcrypt hash, not the password the client sent (`UserModel.ValidUser`). The model keeps that as written.

## Model

| member | source | states |
|---|---|---|
| TicketModel.ParseStatus | ai-ticket-assistant/models/ticket.js:6-10 | a status string is accepted only when it is one of the four names, spelled exactly |
| TicketModel.StatusNameRoundTrip | ai-ticket-assistant/models/ticket.js:6-10 | every status reads back as itself from its name |
| TicketModel.ParsePriority | ai-ticket-assistant/models/ticket.js:17-21 | a priority string is accepted only when it is "low", "medium" or "high" |
| TicketModel.PriorityNameRoundTrip | ai-ticket-assistant/models/ticket.js:17-21 | every priority reads back as itself from its name |
| TicketModel.NewTicket | ai-ticket-assistant/models/ticket.js:3-26 | a new ticket takes the schema defaults: status TODO, priority medium, no assignee, no notes, no skills, created now |
| TicketModel.CastString | ai-ticket-assistant/controllers/ticket.js:12-16 | Mongoose's string cast keeps strings; prints an integer below 10^21 in magnitude as its shortest decimal numeral, after a minus sign when negative; prints booleans as "true" and "false"; takes an object's non-empty string `_id` and refuses any other object; refuses arrays, `null` and `undefined` |
| UserModel.ParseRole | ai-ticket-assistant/models/user.js:15 | only the exact strings "user", "moderator" and "admin" are roles |
| UserModel.RoleNameRoundTrip | ai-ticket-assistant/models/user.js:15 | every role reads back as itself from its name |
| UserModel.EmailMatchesIsShape | ai-ticket-assistant/models/user.js:8 | the computed email check accepts a string exactly when it splits as local@name.tld with no whitespace or '@' in any part (both directions) |
| UserModel.EmailMatchesGivesSplit | ai-ticket-assistant/models/user.js:8 | a string the check accepts has such a split |
| UserModel.EmailSplitMatches | ai-ticket-assistant/models/user.js:8 | every such split passes the check |
| UserModel.Public | ai-ticket-assistant/controllers/user.js:130 | `select('-password')` keeps id, email, role, skills and creation time |
| Store.Patched | ai-ticket-assistant/inngest/functions/on-ticket-create.js:67-74 | a `findByIdAndUpdate` patch sets each of status, priority, notes, skills and assignee that it names to the patch's value and keeps each one it does not name; it never changes a ticket's id, title, description, creator or creation time; the empty patch changes nothing |
| Store.PatchedUser | ai-ticket-assistant/controllers/user.js:113-117 | an `updateOne` patch stores the role and the skills it gives and keeps those it does not give; it never changes a user's id, email, password or creation time; the empty patch changes nothing |
| Store.FindFirst | ai-ticket-assistant/inngest/functions/on-ticket-create.js:91-99 | `findOne` returns the first matching user in natural order, and nothing exactly when no user matches |
| Store.FindFirstIndex | ai-ticket-assistant/controllers/user.js:117 | the position `updateOne` patches is the first user the filter selects, or none |
| Store.InOrder | ai-ticket-assistant/controllers/ticket.js:42 | the tickets listed in the collection's order |
| Store.Database.FindTicket | ai-ticket-assistant/inngest/functions/on-ticket-create.js:17 | `findById` finds a ticket exactly when one is stored under that id |
| Store.Database.AllTickets | ai-ticket-assistant/controllers/ticket.js:42 | `find({})` lists every stored ticket, each once |
| Store.Database.UserByEmail | ai-ticket-assistant/controllers/user.js:61 | `findOne({ email })` finds a user exactly when the email is taken, and the user found holds it |
| Store.Database.UserById | ai-ticket-assistant/controllers/user.js:170 | `findById` finds a user exactly when one has that id |
| Store.Database.CreateTicket | ai-ticket-assistant/controllers/ticket.js:12-16 | `Ticket.create` stores the defaulted document under a fresh id exactly when the title and description pass `required` and `maxlength`; otherwise nothing is stored |
| Store.Database.UpdateTicket | ai-ticket-assistant/inngest/functions/on-ticket-create.js:25 | `findByIdAndUpdate` patches the one ticket with that id, and a missing id changes nothing |
| Store.Database.CreateUser | ai-ticket-assistant/controllers/user.js:23-28 | `User.create` appends the user exactly when the validators pass and the email is free; it reports which of the two refused otherwise |
| Store.Database.UpdateFirstUser | ai-ticket-assistant/controllers/user.js:117 | `updateOne` patches the first selected user and no other |
| Store.SameCredentials | ai-ticket-assistant/models/user.js:4-15 | the validators read only a user's email and password, so a patch of role or skills keeps a valid user valid |
| Ai.CandidateText | ai-ticket-assistant/utils/ai.js:36-37 | reading the reply's text throws for a null reply; a reply without candidates gives the empty text |
| Ai.CandidateTextOfReply | ai-ticket-assistant/utils/ai.js:36-37 | in the documented reply shape, a string at `candidates[0].content.parts[0].text` is the text read, a falsy non-string gives "", and a truthy non-string throws at `.trim()` |
| Ai.ExtractJsonSpan | ai-ticket-assistant/utils/ai.js:42-48 | the text handed to `JSON.parse` is never longer than the trimmed reply |
| Ai.SpanFromFirstToLastBrace | ai-ticket-assistant/utils/ai.js:42-48 | with a '{' before the last '}', the span parsed runs from the first '{' to the last '}' inclusive |
| Ai.SpanWhenBracesInverted | ai-ticket-assistant/utils/ai.js:43-47 | when the last '}' precedes the first '{', `substring` swaps its bounds and what lies between them is parsed |
| Ai.SpanWithoutBraces | ai-ticket-assistant/utils/ai.js:42-48 | without both braces the trimmed text is parsed as it is |
| Ai.FallbackPriorityRules | ai-ticket-assistant/utils/ai.js:58-70 | the fallback priority is high exactly for failure words, low exactly for question words without them, medium otherwise (each an iff) |
| Ai.FallbackSkillRules | ai-ticket-assistant/utils/ai.js:72-76 | the fallback skills follow the four keyword rules in order, with "General" when none applies |
| Ai.FallbackAnalysis | ai-ticket-assistant/utils/ai.js:78-83 | the fallback record holds the summary, the rule priority, the fixed notes and the rule skills |
| Ai.ParsedReply | ai-ticket-assistant/utils/ai.js:36-52 | the try block yields what `JSON.parse` makes of the extracted span, or nothing when any step threw |
| Ai.AnalyzeTicket | ai-ticket-assistant/utils/ai.js:36-84 | the classifier returns the parsed reply, or the fallback record when the try block threw |
| Ai.FailuresGiveFallback | ai-ticket-assistant/utils/ai.js:54-84 | a failed request, an unreadable reply and unparsable text each give the fallback record |
| Ai.ReplyParsedFromSpan | ai-ticket-assistant/utils/ai.js:42-52 | on the happy path the answer is exactly what `JSON.parse` made of the span |
| Ai.OutageLowered | ai-ticket-assistant/utils/ai.js:58-59 | the outage example lower-cases as expected |
| Ai.OutageHeldWords | ai-ticket-assistant/utils/ai.js:65-74 | the lower-cased outage title holds "down" and "database" |
| Ai.OutageLacksReact | ai-ticket-assistant/utils/ai.js:73 | neither lower-cased part of the outage example mentions React |
| Ai.OutagePriority | ai-ticket-assistant/utils/ai.js:65-67 | "Database down" / "db timeout" classified without the service is high priority |
| Ai.OutageSkills | ai-ticket-assistant/utils/ai.js:73-74 | the same ticket gets the database skills, since it does not mention React |
| Triage.NotAliasByInitial | ai-ticket-assistant/inngest/functions/on-ticket-create.js:35-54 | every key of the alias table starts with one of nine letters |
| Triage.AliasKeyOfLowerWord | ai-ticket-assistant/inngest/functions/on-ticket-create.js:59 | a token of lower-case letters and underscores is its own lookup key |
| Triage.Canonical | ai-ticket-assistant/inngest/functions/on-ticket-create.js:58-61 | a token whose lower-cased, trimmed key is in the table maps to that key's canonical name; any other token maps to itself |
| Triage.MapStrings | ai-ticket-assistant/inngest/functions/on-ticket-create.js:56-62 | the filter-map-filter pipeline never lengthens the list and never yields the dropped name |
| Triage.MapStringsAppend | ai-ticket-assistant/inngest/functions/on-ticket-create.js:56-62 | the pipeline distributes over concatenation |
| Triage.MapStringsMembership | ai-ticket-assistant/inngest/functions/on-ticket-create.js:56-62 | a name is in the result exactly when some string entry maps to it and it is not the dropped name |
| Triage.NormaliseSkills | ai-ticket-assistant/inngest/functions/on-ticket-create.js:56-62 | normalising never lengthens the list and never yields "General" |
| Triage.NormaliseSkillsAppend | ai-ticket-assistant/inngest/functions/on-ticket-create.js:56-62 | normalising works entry by entry, in order |
| Triage.NormaliseOne | ai-ticket-assistant/inngest/functions/on-ticket-create.js:56-62 | a non-string entry is dropped; a string becomes its canonical name unless that is "General" |
| Triage.NormaliseSkillsMembership | ai-ticket-assistant/inngest/functions/on-ticket-create.js:56-62 | a name is in the result exactly when some string entry maps to it and it is not "General" |
| Triage.UnmappedTokenPassesThrough | ai-ticket-assistant/inngest/functions/on-ticket-create.js:60 | a token the table does not know is kept unchanged |
| Triage.UnmappedWordPassesThrough | ai-ticket-assistant/inngest/functions/on-ticket-create.js:58-61 | a lower-case word starting unlike every key is kept unchanged |
| Triage.LowerCaseGeneralPassesThrough | ai-ticket-assistant/inngest/functions/on-ticket-create.js:62 | "general" in lower case is kept: only the exact "General" is dropped |
| Triage.DuplicatesKept | ai-ticket-assistant/inngest/functions/on-ticket-create.js:56-62 | duplicates are not removed |
| Triage.PriorityOf | ai-ticket-assistant/inngest/functions/on-ticket-create.js:68-70 | the stored priority is the answer's, when it names one, and medium otherwise |
| Triage.PriorityOfNamed | ai-ticket-assistant/inngest/functions/on-ticket-create.js:68-70 | every priority the answer names is read back as itself |
| Triage.NotesOf | ai-ticket-assistant/inngest/functions/on-ticket-create.js:71 | the stored notes are the answer's when they are a string, and empty otherwise |
| Triage.SkillArray | ai-ticket-assistant/inngest/functions/on-ticket-create.js:33 | the answer has a skill array exactly when it is truthy and its `relatedSkills` is an array |
| Triage.AnalysedSkills | ai-ticket-assistant/inngest/functions/on-ticket-create.js:32-84 | the step hands on the normalised array, or no skills when there is none |
| Triage.ResolveAssignee | ai-ticket-assistant/inngest/functions/on-ticket-create.js:87-100 | the choice is the first moderator sharing a skill, else the first moderator; it is a moderator of the roster, and there is none exactly when the roster has no moderator |
| Triage.NeverAssignsAdmin | ai-ticket-assistant/inngest/functions/on-ticket-create.js:97-100 | an admin is never chosen |
| Triage.NoSkillsFirstModerator | ai-ticket-assistant/inngest/functions/on-ticket-create.js:89-100 | with no skills the choice is the first moderator |
| Triage.CanonicalAsWritten | ai-ticket-assistant/inngest/functions/on-ticket-create.js:35-61 | the lookup as written agrees with the own-entry lookup except on the keys "constructor" and "__proto__" |
| Triage.StoredSkillsAsWritten | ai-ticket-assistant/inngest/functions/on-ticket-create.js:56-74 | the skills as stored by the code as written never outnumber the answer's entries |
| Triage.ConstructorNotAlias | ai-ticket-assistant/inngest/functions/on-ticket-create.js:35-54 | "constructor" is not a key of the table's own |
| Triage.ProtoNotAlias | ai-ticket-assistant/inngest/functions/on-ticket-create.js:35-54 | "__proto__" is not a key of the table's own |
| Triage.PlaceholderKey | ai-ticket-assistant/inngest/functions/on-ticket-create.js:59-62 | "General" is looked up under "general" |
| Triage.GeneralNotAlias | ai-ticket-assistant/inngest/functions/on-ticket-create.js:35-54 | "general" is not a key of the table |
| Triage.PlaceholderDropped | ai-ticket-assistant/inngest/functions/on-ticket-create.js:56-62 | the keyword classifier's "General" is removed |
| Triage.InheritedNamesAreKeys | ai-ticket-assistant/inngest/functions/on-ticket-create.js:59-60 | the plain tokens "constructor" and "__proto__" are their own lookup keys |
| Triage.ConstructorTokenAsWritten | ai-ticket-assistant/inngest/functions/on-ticket-create.js:58-61 | as written, a "constructor" token is stored as the source text of `Object`; the corrected normaliser keeps the token |
| Triage.ProtoTokenAsWritten | ai-ticket-assistant/inngest/functions/on-ticket-create.js:58-61 | as written, a "__proto__" token makes the update throw; the corrected normaliser keeps the token |
| Triage.AsWrittenAgreesElsewhere | ai-ticket-assistant/inngest/functions/on-ticket-create.js:56-74 | for every answer without those two tokens, the code as written stores exactly the corrected normaliser's result |
| OnTicketCreate.CreateTriaged | ai-ticket-assistant/inngest/functions/on-ticket-create.js:24-108 | a run leaves the ticket TODO, with the normalised skills, the answer's priority and notes when it has a skill array (medium and the old notes otherwise), and assigned exactly when a moderator was found |
| OnTicketCreate.Notification | ai-ticket-assistant/inngest/functions/on-ticket-create.js:112-121 | a mail goes exactly when a moderator was assigned, to that moderator, with the fixed subject and sentence followed by the URI-encoded title |
| OnTicketCreate.PlainTitleNotification | ai-ticket-assistant/inngest/functions/on-ticket-create.js:112-121 | a title of unreserved characters appears in the mail unchanged |
| OnTicketCreate.ProcessAnalysis | ai-ticket-assistant/inngest/functions/on-ticket-create.js:28-85 | the "ai-processing" step writes the analysis patch to that ticket only and hands on the analysed skills |
| OnTicketCreate.AssignModerator | ai-ticket-assistant/inngest/functions/on-ticket-create.js:87-110 | the "assign-moderator" step chooses the resolved moderator and always writes `assignedTo` |
| OnTicketCreate.OnTicketCreated | ai-ticket-assistant/inngest/functions/on-ticket-create.js:11-127 | a missing ticket fails the run and changes nothing; otherwise the ticket becomes `CreateTriaged` of it, the mail is the notification, and the run succeeds exactly when no mail was due or it was delivered |
| OnTicketCreate.OverwriteTwice | ai-ticket-assistant/inngest/functions/on-ticket-create.js:67-108 | writing the same ticket twice keeps only the second write |
| OnTicketCreate.StepsCompose | ai-ticket-assistant/inngest/functions/on-ticket-create.js:24-108 | the three patches of a run add up to `CreateTriaged` |
| OnTicketCreate.CreateAssignsModerators | ai-ticket-assistant/inngest/functions/on-ticket-create.js:97-108 | only a moderator of the roster is assigned, and the ticket is unassigned exactly when there is none |
| OnTicketCreate.CreateOverwritesTriage | ai-ticket-assistant/inngest/functions/on-ticket-create.js:67-108 | with a skill array, what the ticket held before in the triage fields does not matter |
| OnTicketCreate.CreateIdempotent | ai-ticket-assistant/inngest/functions/on-ticket-create.js:24-108 | running the function again on its result with the same answer and roster changes nothing |
| OnTicketCreate.CreateAfterFailedRequest | ai-ticket-assistant/inngest/functions/on-ticket-create.js:28-74 | when the service is unreachable the ticket gets the keyword priority, the fixed notes and the normalised keyword skills |
| OnTicketCreate.GeneralTicketGoesToFirstModerator | ai-ticket-assistant/inngest/functions/on-ticket-create.js:56-100 | a ticket the keyword rules call "General" has no skills and goes to the first moderator |
| OnTicketRefresh.RefreshTriaged | ai-ticket-assistant/inngest/functions/on-ticket-refresh.js:22-105 | a refresh keeps the status, writes the classification only with a skill array, and changes the assignee only when a moderator was found |
| OnTicketRefresh.Reanalyse | ai-ticket-assistant/inngest/functions/on-ticket-refresh.js:22-71 | the "ai-analysis" step writes to that ticket only when the answer has a skill array, and hands on the analysed skills |
| OnTicketRefresh.Reassign | ai-ticket-assistant/inngest/functions/on-ticket-refresh.js:73-105 | the "assign-user" step chooses the resolved moderator and writes only when there is one |
| OnTicketRefresh.OnTicketRefreshed | ai-ticket-assistant/inngest/functions/on-ticket-refresh.js:11-111 | the run succeeds exactly when the ticket exists, and then leaves it as `RefreshTriaged` of it |
| OnTicketRefresh.SameValueOverwrite | ai-ticket-assistant/inngest/functions/on-ticket-refresh.js:61-67 | writing a ticket's own value back changes nothing |
| OnTicketRefresh.RefreshStepsCompose | ai-ticket-assistant/inngest/functions/on-ticket-refresh.js:22-105 | the two steps of a refresh add up to `RefreshTriaged` |
| OnTicketRefresh.RefreshKeepsStatus | ai-ticket-assistant/inngest/functions/on-ticket-refresh.js:61-67 | a refresh never changes the status |
| OnTicketRefresh.RefreshIdempotent | ai-ticket-assistant/inngest/functions/on-ticket-refresh.js:22-105 | refreshing twice with the same answer and roster is refreshing once |
| OnTicketRefresh.RefreshWithNothingChangesNothing | ai-ticket-assistant/inngest/functions/on-ticket-refresh.js:27-98 | without a skill array and without moderators a refresh leaves the ticket as it was |
| OnTicketRefresh.RefreshMatchesCreate | ai-ticket-assistant/inngest/functions/on-ticket-refresh.js:61-98 | with a skill array and a moderator, refreshing a TODO ticket gives what the create run gives |
| OnTicketRefresh.RefreshDiffersFromCreate | ai-ticket-assistant/inngest/functions/on-ticket-refresh.js:95-102 | without moderators the create run clears the assignee and a refresh keeps it; without a skill array the create run resets priority and skills and a refresh keeps them |
| TicketController.View | ai-ticket-assistant/controllers/ticket.js:41-50 | role "user" gets the projection `title description status createdAt`; other roles get the whole ticket |
| TicketController.VisibleTo | ai-ticket-assistant/controllers/ticket.js:41-50 | the tickets listed are exactly those the caller's filter selects |
| TicketController.Views | ai-ticket-assistant/controllers/ticket.js:41-50 | each listed ticket is shown as the caller's role allows |
| TicketController.InsertByAge | ai-ticket-assistant/controllers/ticket.js:45-49 | inserting into a newest-first list keeps it newest first and adds exactly that view |
| TicketController.ConsSorted | ai-ticket-assistant/controllers/ticket.js:45-49 | a view no younger than every view of a newest-first list can go in front of it |
| TicketController.NewestFirst | ai-ticket-assistant/controllers/ticket.js:45-49 | `sort({ createdAt: -1 })` gives a permutation, newest first |
| TicketController.Draft | ai-ticket-assistant/controllers/ticket.js:12-16 | the document exists exactly when the title and the description cast to strings, and is then the defaulted ticket |
| TicketController.CreateTicket | ai-ticket-assistant/controllers/ticket.js:4-35 | a falsy title or description gives 400 with nothing written; an uncastable or invalid value gives 500 with nothing written; otherwise (both cast and pass the validators) the ticket is always stored under a fresh id, the event carries it, and the answer is 201 when the event was delivered and 500 when it was not |
| TicketController.GetTickets | ai-ticket-assistant/controllers/ticket.js:37-56 | 200 with every ticket the caller may see, each once, shown as the role allows, newest first |
| TicketController.GetTicket | ai-ticket-assistant/controllers/ticket.js:58-82 | 200 with the ticket when the caller may see it, 404 when it is missing or another user's, 500 for an id that is not an ObjectId |
| TicketController.RequestedStatus | ai-ticket-assistant/controllers/ticket.js:86-91 | the body's status is accepted exactly when it is one of the four names |
| TicketController.UpdateTicketStatus | ai-ticket-assistant/controllers/ticket.js:84-103 | 400 for an invalid status before 403 for role "user"; otherwise 200 and only that ticket's status changes, with nothing changed when it is missing |
| TicketController.VisibilityByRole | ai-ticket-assistant/controllers/ticket.js:41-50 | role "user" sees exactly its own tickets, other roles see all |
| TicketController.NewestFirstKeepsSorted | ai-ticket-assistant/controllers/ticket.js:45-49 | sorting keeps a list already newest first |
| UserController.SanitizeEmail | ai-ticket-assistant/controllers/user.js:10 | a non-string email becomes ""; a string becomes its trim, character by character lower-cased; the result has no surrounding whitespace and no ASCII upper-case letter |
| UserController.SanitizeEmailIdempotent | ai-ticket-assistant/controllers/user.js:54 | sanitising a sanitised email changes nothing, so log-in finds the address sign-up stored |
| UserController.SanitizeSkills | ai-ticket-assistant/controllers/user.js:11 | a non-array gives no skills; an array gives at most its length |
| UserController.SanitizeSkillsMembership | ai-ticket-assistant/controllers/user.js:11 | a skill is kept exactly when the array holds it as a string |
| UserController.SanitizeSkillsOrder | ai-ticket-assistant/controllers/user.js:11 | the filter keeps the array's order |
| UserController.SignupRole | ai-ticket-assistant/controllers/user.js:19-20 | the first account is the admin, later ones are users, never moderators |
| UserController.SignupUser | ai-ticket-assistant/controllers/user.js:18-28 | the document holds the sanitised email, the hash of the password and the sanitised skills; its role is `admin` for the first user and `user` for every later one |
| UserController.Signup | ai-ticket-assistant/controllers/user.js:6-48 | 400 without an email or password; 500 with nothing stored for a non-string password or a document `create` refuses; otherwise the user is appended, the event carries the email, and the answer is the session when the event was delivered |
| UserController.Login | ai-ticket-assistant/controllers/user.js:50-79 | 400, then 401 "User not found", 500 for a non-string password, 401 "Invalid credentials", else 200 with the stored user whose email it is and a token |
| UserController.UpdateData | ai-ticket-assistant/controllers/user.js:113-115 | the patch sets the skills exactly when the list is non-empty, and the role when the body names one |
| UserController.UpdateDataEffect | ai-ticket-assistant/controllers/user.js:99-117 | an empty skill list and an unknown role leave the old values |
| UserController.EmailSelectsHolder | ai-ticket-assistant/controllers/user.js:117 | with unique emails, `{ email }` selects exactly the user holding it |
| UserController.WithPatch | ai-ticket-assistant/controllers/user.js:117 | the user collection with the holder of the email patched and every other user unchanged |
| UserController.PatchHolder | ai-ticket-assistant/controllers/user.js:117 | `updateOne({ email }, updateData)` leaves the collection as `WithPatch` describes and touches nothing else |
| UserController.UpdateUser | ai-ticket-assistant/controllers/user.js:94-122 | 400 for a missing email before 403 for a non-admin, then 401 for an unknown email; otherwise 200 and only the user holding the email is patched |
| UserController.PublicUsers | ai-ticket-assistant/controllers/user.js:130 | every user, in order, without the password |
| UserController.GetUsers | ai-ticket-assistant/controllers/user.js:124-135 | 403 for a non-admin; an admin gets every user in natural order with every field but the password |
| UserController.CreateAdmin | ai-ticket-assistant/controllers/user.js:138-157 | 400 without an email or password; 500 for non-string values or a document `create` refuses; otherwise an admin with no skills is appended and 200 names its email |
| UserController.IdSelectsHolder | ai-ticket-assistant/controllers/user.js:165-166 | with unique ids, `{ _id }` selects exactly the user holding it |
| UserController.WithSkills | ai-ticket-assistant/controllers/user.js:165-168 | the user collection with the caller's skills replaced and every other user unchanged |
| UserController.SetSkills | ai-ticket-assistant/controllers/user.js:165-168 | `updateOne({ _id }, { skills })` leaves the collection as `WithSkills` describes and touches nothing else |
| UserController.ProfileAfterUpdate | ai-ticket-assistant/controllers/user.js:165-171 | after the update the caller exists exactly when it did before, and holds the new skills |
| UserController.UpdateProfile | ai-ticket-assistant/controllers/user.js:160-175 | a nullish body gives 500 with nothing changed; otherwise the caller's skills become the sanitised list, even an empty one, and nobody else changes; 200 with the caller's stored document, without the password, when the caller exists |
| Csrf.CsrfProtection | ai-ticket-assistant/middlewares/csrf.js:2-17 | GET passes; any other method passes exactly when the token header is non-empty, and is otherwise refused with 403 "CSRF token missing" |
| Csrf.AnyTokenPasses | ai-ticket-assistant/middlewares/csrf.js:8-16 | the token's value is never checked: any two non-empty tokens are treated alike |
| Csrf.OtherHeadersIgnored | ai-ticket-assistant/middlewares/csrf.js:8 | no header but `x-csrf-token` matters |
| Csrf.OnlyExactGetIsExempt | ai-ticket-assistant/middlewares/csrf.js:4-14 | the method test is exact and case-sensitive: HEAD or "get" needs a token |

## Left out

- Inngest's step engine is not modelled: retries (`retries: 2` and `retries: 1`), memoised step results and `NonRetriableError`. Each run is modelled as one pass in which every step executes once.
- Both runs read `ticketId` from the event as an ObjectId. A string that is not an ObjectId makes `findById` throw, which fails the run like a missing ticket. It is not modelled separately.
- The request to the classification service and the prompt text are not modelled. The decoded reply is a parameter.
- `JSON.parse`, bcrypt, `jwt.sign`, `jwt.verify`, SMTP delivery and `inngest.send` are not modelled. Their outcomes are parameters.
- The mail transport (`utils/mailer.js`) is not part of this model. Its one behaviour used here is that it rethrows a delivery failure, which `mailDelivered == false` stands for.
- The sign-up function (`inngest/functions/on-signup.js`) is not part of this model.
- Logging (`console.log`, `console.error`) is not modelled; it has no effect on state or answers.
- Concurrency is not modelled. Runs and requests are taken one at a time, with nothing interleaved between their database calls.
- Failures of the database itself (lost connections and the like) are not modelled. Only the 500s that come from the data are.
- The `deadline` field of the Ticket schema is left out: the code never writes or reads it.
- Numbers in JSON values are integers. Fractional numbers, and the fractional numbers `CastString` prints, are not modelled.
- TicketModel.CastString: numbers are exact integers, printed as decimal numerals. The program's numbers are doubles: `JSON.parse` rounds integers above 2^53 (12345678901234567890 arrives as 12345678901234567000), prints magnitudes of 10^21 or more in exponent form ("1e+21"), and turns a number too large for a double into "Infinity". None of these is modelled. So a title given as the number 10^200 is stored as "1e+200" by the program, while the model's 201-digit numeral fails `maxlength`.
- The email `populate` of `assignedTo` and `createdBy` in `getTickets` and `getTicket` is left out: the ids stay in place of the users.
- `JsString.ToLower` lower-cases ASCII letters and the Kelvin sign only. In ticket text and skill tokens this changes nothing, since the code only compares the lowered text with ASCII keywords and keys.
- UserController.SanitizeEmail: other letters are kept as they are, where the program lower-cases them. A sign-up as "É@x.io" followed by a log-in as "é@x.io" succeeds in the program and gets 401 in the model; the two addresses collide on the unique index only in the program.
- OnTicketCreate.OnTicketCreated: uses the corrected skill lookup. For an answer whose skills hold a token with the key "__proto__" the program's write of the classification throws and the run returns `{ success: false }` with priority, notes and skills unwritten; the model succeeds. For the key "constructor" the program stores the source text of `Object`; the model stores the token. `Triage.AsWrittenAgreesElsewhere` proves the two agree on every other answer.
- OnTicketCreate.ProcessAnalysis: writes the corrected skills, with the same two differences.
- OnTicketCreate.CreateTriaged: describes the run with the corrected skills, with the same two differences.
- OnTicketRefresh.OnTicketRefreshed: uses the corrected skill lookup. For the key "__proto__" the program's run fails with the ticket's classification unwritten, where the model succeeds; for "constructor" it stores the source text of `Object`.
- OnTicketRefresh.Reanalyse: writes the corrected skills, with the same two differences.
- OnTicketRefresh.RefreshTriaged: describes the refresh with the corrected skills, with the same two differences.
- TicketController.GetTickets: MongoDB leaves the order of tickets with equal `createdAt` unspecified. The contract states order and content, not a tie order.
- UserController.Signup: requires a body that is not null or undefined. `express.json` always supplies an object, and the destructuring sits outside the `try`.
- UserController.Login: requires a non-nullish body, for the same reason.
- UserController.UpdateUser: requires a non-nullish body, for the same reason.
- UserController.Signup: the 500 body's `details` (the thrown error's message) is not modelled.
- UserController.Login: the 500 body's `details` is not modelled.
- UserController.CreateAdmin: the 500 body is `Thrown`. The error message it carries is not modelled.
- UserController.UpdateProfile: the 500 body is `Thrown`, as for `CreateAdmin`.
- `logout` is not modelled. It only parses and verifies the token and answers with a fixed message.
- The routes and `index.js` wiring, the authentication middleware and the front end are not part of this model.
- Strings are sequences of Unicode scalar values, so the `URIError` that `encodeURIComponent` throws for a lone surrogate cannot arise in the model.
- The classifier's fallback computes its priority and skills with `let` variables that `if` statements reassign. There is no loop, so the model writes them as the functions `Ai.FallbackPriority` and `Ai.FallbackSkills`; nothing about them is left out.

## Findings

| source | as written | input that shows it | evidently intended | confidence | as-written member | corrected member |
|---|---|---|---|---|---|---|
| ai-ticket-assistant/inngest/functions/on-ticket-create.js:35-61 | `skillMap[normalized] \|\| skill` looks the key up on an object literal, so it also finds members every object inherits. The token "constructor" turns into the function `Object`, and the update stores that function's source text as a skill. on-ticket-refresh.js:29-55 repeats the same code. | an answer whose `relatedSkills` is `["constructor"]` | look up only the table's own entries, so that an unknown token passes through unchanged | not executed | Triage.ConstructorTokenAsWritten | Triage.NormaliseSkills |
| ai-ticket-assistant/inngest/functions/on-ticket-create.js:35-74 | The same lookup turns the token "__proto__" into `Object.prototype`. Mongoose's string cast throws on it, so the update fails and the run returns `{ success: false }` with the ticket unclassified. | an answer whose `relatedSkills` is `["__proto__"]` | as above: the token passes through unchanged | not executed | Triage.ProtoTokenAsWritten | Triage.NormaliseSkills |
