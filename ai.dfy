/** The ticket classifier (utils/ai.js). The call to the generative-language
    service is an oracle: `reply` is the decoded JSON body of its HTTP response,
    or `None` when the request or the decoding of the body threw. `JSON.parse` is
    an oracle as well: `parse(text)` is `None` when it throws a SyntaxError.
    Every failure ends in the rule-based fallback, so the classifier never throws. */
module Ai {
  import opened JsValue
  import opened JsString
  import opened TicketModel

  /** `data.candidates?.[0]?.content?.parts?.[0]?.text || ''` followed by `.trim()`:
      `None` when this throws, that is when `data` is null (reading `.candidates` of
      null) or when the text found is truthy but not a string (`.trim` is not a function). */
  function CandidateText(data: Value): (r: Option<string>)
    ensures Nullish(data) ==> r.None?
    ensures (!Nullish(data) && !Member(data, "candidates").Arr? && !Member(data, "candidates").Obj? &&
             !Member(data, "candidates").Str?) ==> r == Some("")
    ensures !Nullish(data) && Member(data, "candidates") == Arr([]) ==> r == Some("")
  {
    if Nullish(data) then None
    else
      var found := OptMember(OptFirst(OptMember(OptMember(OptFirst(Member(data, "candidates")), "content"), "parts")), "text");
      var text := Or(found, Str(""));
      if text.Str? then Some(text.s) else None
  }

  /** The reply shape the service documents, `{candidates: [{content: {parts: [{text}]}}]}`. */
  function ReplyWithText(text: Value): Value {
    Obj(map["candidates" := Arr([Obj(map["content" := Obj(map["parts" := Arr([Obj(map["text" := text])])])])])])
  }

  /** In that shape, a string `text` is the text read, a missing or other falsy one gives "",
      and a truthy non-string makes `.trim()` throw. */
  lemma CandidateTextOfReply(text: Value)
    ensures text.Str? ==> CandidateText(ReplyWithText(text)) == Some(text.s)
    ensures !Truthy(text) && !text.Str? ==> CandidateText(ReplyWithText(text)) == Some("")
    ensures Truthy(text) && !text.Str? ==> CandidateText(ReplyWithText(text)).None?
  {
    var data := ReplyWithText(text);
    var parts := Arr([Obj(map["text" := text])]);
    var content := Obj(map["parts" := parts]);
    var candidates := Arr([Obj(map["content" := content])]);
    assert Member(data, "candidates") == candidates;
    assert OptFirst(candidates) == Obj(map["content" := content]);
    assert OptMember(Obj(map["content" := content]), "content") == content;
    assert OptFirst(OptMember(content, "parts")) == Obj(map["text" := text]);
    assert OptMember(Obj(map["text" := text]), "text") == text;
  }

  /** `t[i]` is the first occurrence of `c` in `t`. */
  ghost predicate FirstOccurrence(t: string, c: char, i: int) {
    0 <= i < |t| && t[i] == c && forall m :: 0 <= m < i ==> t[m] != c
  }

  /** `t[j]` is the last occurrence of `c` in `t`. */
  ghost predicate LastOccurrence(t: string, c: char, j: int) {
    0 <= j < |t| && t[j] == c && forall m :: j < m < |t| ==> t[m] != c
  }

  /** The string handed to `JSON.parse`: the trimmed reply, cut down to run from its first
      '{' to its last '}' when it holds both. The cut is not a balanced span. */
  function ExtractJsonSpan(text: string): (r: string)
    ensures |r| <= |Trim(text)|
  {
    var t := Trim(text);
    var i := IndexOf(t, '{');
    var j := LastIndexOf(t, '}');
    if i != -1 && j != -1 then Substring(t, i, j + 1) else t
  }

  /** With a '{' before the last '}', the text parsed is exactly the span from the first
      '{' to the last '}', both included. */
  lemma SpanFromFirstToLastBrace(text: string, i: int, j: int)
    requires FirstOccurrence(Trim(text), '{', i) && LastOccurrence(Trim(text), '}', j)
    requires i <= j
    ensures ExtractJsonSpan(text) == Trim(text)[i..j + 1]
    ensures ExtractJsonSpan(text)[0] == '{' && ExtractJsonSpan(text)[|ExtractJsonSpan(text)| - 1] == '}'
  {
    var t := Trim(text);
    BracesFound(t, i, j);
    var r := t[i..j + 1];
    assert r[0] == t[i] && r[|r| - 1] == t[j];
  }

  /** `indexOf` and `lastIndexOf` report the two occurrences, so that the cut is taken. */
  lemma BracesFound(t: string, i: int, j: int)
    requires FirstOccurrence(t, '{', i) && LastOccurrence(t, '}', j)
    ensures IndexOf(t, '{') == i && LastIndexOf(t, '}') == j
  {
    IndexOfFinds(t, '{', i);
    LastIndexOfFinds(t, '}', j);
  }

  /** When the last '}' comes before the first '{', `substring` swaps its bounds and the
      text parsed is what lies strictly between the two. */
  lemma SpanWhenBracesInverted(text: string, i: int, j: int)
    requires FirstOccurrence(Trim(text), '{', i) && LastOccurrence(Trim(text), '}', j)
    requires j < i
    ensures ExtractJsonSpan(text) == Trim(text)[j + 1..i]
  {
    var t := Trim(text);
    BracesFound(t, i, j);
    assert ExtractJsonSpan(text) == Substring(t, i, j + 1);
  }

  /** Without both braces the trimmed text is parsed as it is. */
  lemma SpanWithoutBraces(text: string)
    requires (forall m :: 0 <= m < |Trim(text)| ==> Trim(text)[m] != '{') ||
             (forall m :: 0 <= m < |Trim(text)| ==> Trim(text)[m] != '}')
    ensures ExtractJsonSpan(text) == Trim(text)
  {
  }

  const FallbackNotes: string := "Please review the ticket details and investigate the reported issue."

  /** The reference reading of the priority rules: failure words in the lower-cased title
      or description make a ticket urgent; question words in the title make it a question. */
  ghost predicate Urgent(title: string, description: string) {
    var t := ToLower(title);
    var d := ToLower(description);
    HasSubstring(t, "critical") || HasSubstring(t, "down") || HasSubstring(t, "crash") ||
    HasSubstring(d, "timeout") || HasSubstring(d, "error") || HasSubstring(d, "fail")
  }

  ghost predicate Question(title: string) {
    HasSubstring(ToLower(title), "question") || HasSubstring(ToLower(title), "how to")
  }

  /** The fallback's priority rules. */
  function FallbackPriority(title: string, description: string): Priority {
    var t := ToLower(title);
    var d := ToLower(description);
    if Includes(t, "critical") || Includes(t, "down") || Includes(t, "crash") ||
       Includes(d, "timeout") || Includes(d, "error") || Includes(d, "fail") then High
    else if Includes(t, "question") || Includes(t, "how to") then Low
    else Medium
  }

  lemma FallbackPriorityRules(title: string, description: string)
    ensures FallbackPriority(title, description) == High <==> Urgent(title, description)
    ensures FallbackPriority(title, description) == Low <==> !Urgent(title, description) && Question(title)
    ensures FallbackPriority(title, description) == Medium <==> !Urgent(title, description) && !Question(title)
  {
    var t := ToLower(title);
    var d := ToLower(description);
    IncludesIsSubstring(t, "critical");
    IncludesIsSubstring(t, "down");
    IncludesIsSubstring(t, "crash");
    IncludesIsSubstring(d, "timeout");
    IncludesIsSubstring(d, "error");
    IncludesIsSubstring(d, "fail");
    IncludesIsSubstring(t, "question");
    IncludesIsSubstring(t, "how to");
  }

  /** The fallback's skill detection: the first matching rule wins. */
  function FallbackSkills(title: string, description: string): seq<string> {
    var t := ToLower(title);
    var d := ToLower(description);
    if Includes(t, "react") || Includes(d, "react") then ["React", "JavaScript"]
    else if Includes(t, "database") || Includes(d, "mongodb") || Includes(d, "sql") then ["MongoDB", "PostgreSQL"]
    else if Includes(t, "node") || Includes(d, "node") then ["Node.js", "JavaScript"]
    else if Includes(t, "mobile") || Includes(d, "ios") || Includes(d, "android") then ["Mobile"]
    else ["General"]
  }

  ghost predicate MentionsReact(title: string, description: string) {
    HasSubstring(ToLower(title), "react") || HasSubstring(ToLower(description), "react")
  }

  ghost predicate MentionsDatabase(title: string, description: string) {
    HasSubstring(ToLower(title), "database") || HasSubstring(ToLower(description), "mongodb") ||
    HasSubstring(ToLower(description), "sql")
  }

  ghost predicate MentionsNode(title: string, description: string) {
    HasSubstring(ToLower(title), "node") || HasSubstring(ToLower(description), "node")
  }

  ghost predicate MentionsMobile(title: string, description: string) {
    HasSubstring(ToLower(title), "mobile") || HasSubstring(ToLower(description), "ios") ||
    HasSubstring(ToLower(description), "android")
  }

  lemma FallbackSkillRules(title: string, description: string)
    ensures MentionsReact(title, description) ==> FallbackSkills(title, description) == ["React", "JavaScript"]
    ensures (!MentionsReact(title, description) && MentionsDatabase(title, description)) ==>
      FallbackSkills(title, description) == ["MongoDB", "PostgreSQL"]
    ensures (!MentionsReact(title, description) && !MentionsDatabase(title, description) && MentionsNode(title, description)) ==>
      FallbackSkills(title, description) == ["Node.js", "JavaScript"]
    ensures (!MentionsReact(title, description) && !MentionsDatabase(title, description) && !MentionsNode(title, description) &&
             MentionsMobile(title, description)) ==> FallbackSkills(title, description) == ["Mobile"]
    ensures (!MentionsReact(title, description) && !MentionsDatabase(title, description) && !MentionsNode(title, description) &&
             !MentionsMobile(title, description)) ==> FallbackSkills(title, description) == ["General"]
  {
    var t := ToLower(title);
    var d := ToLower(description);
    IncludesIsSubstring(t, "react");
    IncludesIsSubstring(d, "react");
    IncludesIsSubstring(t, "database");
    IncludesIsSubstring(d, "mongodb");
    IncludesIsSubstring(d, "sql");
    IncludesIsSubstring(t, "node");
    IncludesIsSubstring(d, "node");
    IncludesIsSubstring(t, "mobile");
    IncludesIsSubstring(d, "ios");
    IncludesIsSubstring(d, "android");
  }

  /** The record the catch block returns. */
  function FallbackAnalysis(title: string, description: string): (v: Value)
    ensures v.Obj?
    ensures Member(v, "summary") == Str("Issue with " + title)
    ensures Member(v, "helpfulNotes") == Str(FallbackNotes)
    ensures Member(v, "priority") == Str(PriorityName(FallbackPriority(title, description)))
    ensures Member(v, "relatedSkills") == StrArray(FallbackSkills(title, description))
  {
    Obj(map[
      "summary" := Str("Issue with " + title),
      "priority" := Str(PriorityName(FallbackPriority(title, description))),
      "helpfulNotes" := Str(FallbackNotes),
      "relatedSkills" := StrArray(FallbackSkills(title, description))])
  }

  /** The `try` block of `analyzeTicket`: the value `JSON.parse` produced from the reply,
      or `None` when any of its steps threw. */
  function ParsedReply(reply: Option<Value>, parse: string -> Option<Value>): (r: Option<Value>)
    ensures reply.None? ==> r.None?
    ensures reply.Some? && CandidateText(reply.value).None? ==> r.None?
    ensures reply.Some? && CandidateText(reply.value).Some? ==> r == parse(ExtractJsonSpan(CandidateText(reply.value).value))
  {
    match reply
    case None => None
    case Some(data) =>
      match CandidateText(data)
      case None => None
      case Some(text) => parse(ExtractJsonSpan(text))
  }

  /** `analyzeTicket(ticket)`: the parsed reply, or the fallback record when the `try` block threw. */
  function AnalyzeTicket(title: string, description: string, reply: Option<Value>, parse: string -> Option<Value>): (r: Value)
    ensures ParsedReply(reply, parse).Some? ==> r == ParsedReply(reply, parse).value
    ensures ParsedReply(reply, parse).None? ==> r == FallbackAnalysis(title, description)
  {
    match ParsedReply(reply, parse)
    case None => FallbackAnalysis(title, description)
    case Some(v) => v
  }

  /** A failed request, an unreadable reply and text that does not parse all give the fallback record. */
  lemma FailuresGiveFallback(title: string, description: string, reply: Option<Value>, parse: string -> Option<Value>)
    requires reply.None? || CandidateText(reply.value).None? ||
             parse(ExtractJsonSpan(CandidateText(reply.value).value)).None?
    ensures AnalyzeTicket(title, description, reply, parse) == FallbackAnalysis(title, description)
  {
  }

  /** The service's reply on the happy path is what `JSON.parse` made of the span between its braces. */
  lemma ReplyParsedFromSpan(title: string, description: string, data: Value, parse: string -> Option<Value>, text: string, v: Value)
    requires CandidateText(data) == Some(text) && parse(ExtractJsonSpan(text)) == Some(v)
    ensures AnalyzeTicket(title, description, Some(data), parse) == v
  {
    assert ParsedReply(Some(data), parse) == Some(v);
  }

  /** The lower-cased text of the outage example below. */
  lemma OutageLowered(title: string, description: string)
    requires title == "Database down" && description == "db timeout"
    ensures ToLower(title) == "database down" && ToLower(description) == "db timeout"
  {
    assert forall k :: 0 <= k < |title| ==> ToLower(title)[k] == "database down"[k];
    assert forall k :: 0 <= k < |description| ==> ToLower(description)[k] == "db timeout"[k];
  }

  /** The fallback's words that the lowered outage example holds, and the one it lacks. */
  lemma OutageHeldWords()
    ensures Includes("database down", "down") && Includes("database down", "database")
  {
    assert OccursAt("database down", "down", 9);
    IncludesIsSubstring("database down", "down");
    assert OccursAt("database down", "database", 0);
    IncludesIsSubstring("database down", "database");
  }

  lemma OutageLacksReact(s: string)
    requires s == "database down" || s == "db timeout"
    ensures !Includes(s, "react")
  {
    assert forall i :: 0 <= i < |s| ==> s[i] != 'r';
    MissingCharExcludes(s, "react", 0);
  }

  /** An outage ticket classified while the service is unreachable is urgent */
  lemma OutagePriority(title: string, description: string)
    requires title == "Database down" && description == "db timeout"
    ensures FallbackPriority(title, description) == High
  {
    OutageLowered(title, description);
    OutageHeldWords();
  }

  /** and is routed to the database skills, since it does not mention React. */
  lemma OutageSkills(title: string, description: string)
    requires title == "Database down" && description == "db timeout"
    ensures FallbackSkills(title, description) == ["MongoDB", "PostgreSQL"]
  {
    OutageLowered(title, description);
    OutageHeldWords();
    OutageLacksReact("database down");
    OutageLacksReact("db timeout");
  }
}
