/** The decision logic that the ticket-created and ticket-refresh functions
    (inngest/functions/on-ticket-create.js and on-ticket-refresh.js) both carry,
    line for line: reading the classifier's record, normalising its skills through
    the alias table, and choosing a moderator to assign. */
module Triage {
  import opened JsValue
  import opened JsString
  import opened TicketModel
  import opened UserModel
  import opened Store

  /** The `skillMap` table: lower-cased, trimmed tokens and the canonical skill names they stand for. */
  const SkillAliases: map<string, string> := map[
    "react" := "React", "reactjs" := "React",
    "node" := "Node.js", "nodejs" := "Node.js",
    "javascript" := "JavaScript", "js" := "JavaScript",
    "mongodb" := "MongoDB", "mongo" := "MongoDB", "database" := "MongoDB",
    "python" := "Python", "java" := "Java", "docker" := "Docker", "aws" := "AWS",
    "security" := "Security", "mobile" := "Mobile",
    "ui" := "UI/UX", "ux" := "UI/UX", "design" := "UI/UX"]

  /** Every key of the table starts with one of the letters r, n, j, m, d, p, a, s, u. */
  lemma NotAliasByInitial(key: string)
    requires key != [] && key[0] !in "rnjmdpasu"
    ensures key !in SkillAliases
  {
  }

  /** The one skill name the normaliser drops, compared case-sensitively after mapping. */
  const Placeholder: string := "General"

  /** The key a token is looked up under: `skill.toLowerCase().trim()`. */
  function AliasKey(token: string): string {
    Trim(ToLower(token))
  }

  /** A token of lower-case ASCII letters and underscores is its own key. */
  lemma AliasKeyOfLowerWord(token: string)
    requires forall i :: 0 <= i < |token| ==> 'a' <= token[i] <= 'z' || token[i] == '_'
    ensures AliasKey(token) == token
  {
    ToLowerOfLower(token);
    if token != [] {
      TrimUnpadded(token);
    }
  }

  /** `skillMap[normalized] || skill`, reading only the table's own entries. */
  function Canonical(token: string): (r: string)
    ensures r == token || r in SkillAliases.Values
    ensures AliasKey(token) !in SkillAliases ==> r == token
    ensures AliasKey(token) in SkillAliases ==> r == SkillAliases[AliasKey(token)]
  {
    var key := AliasKey(token);
    if key in SkillAliases then SkillAliases[key] else token
  }

  /** `raw.filter(s => typeof s === 'string').map(f).filter(s => s !== drop)`. */
  function MapStrings(raw: seq<Value>, f: string -> string, drop: string): (r: seq<string>)
    ensures |r| <= |raw|
    ensures drop !in r
  {
    if raw == [] then []
    else
      var head := if raw[0].Str? && f(raw[0].s) != drop then [f(raw[0].s)] else [];
      head + MapStrings(raw[1..], f, drop)
  }

  /** The pipeline works entry by entry, in order: it distributes over concatenation. */
  lemma {:induction false} MapStringsAppend(a: seq<Value>, b: seq<Value>, f: string -> string, drop: string)
    ensures MapStrings(a + b, f, drop) == MapStrings(a, f, drop) + MapStrings(b, f, drop)
  {
    if a == [] {
      assert a + b == b;
    } else {
      var ab := a + b;
      assert ab[0] == a[0];
      assert ab[1..] == a[1..] + b;
      MapStringsAppend(a[1..], b, f, drop);
    }
  }

  /** A name is in the result exactly when some string entry maps to it and it is not `drop`. */
  lemma {:induction false} MapStringsMembership(raw: seq<Value>, f: string -> string, drop: string, s: string)
    ensures s in MapStrings(raw, f, drop) <==>
      s != drop && exists i :: 0 <= i < |raw| && raw[i].Str? && f(raw[i].s) == s
  {
    if raw != [] {
      MapStringsMembership(raw[1..], f, drop, s);
      if exists i :: 0 <= i < |raw| && raw[i].Str? && f(raw[i].s) == s {
        var i :| 0 <= i < |raw| && raw[i].Str? && f(raw[i].s) == s;
        if i > 0 {
          assert raw[1..][i - 1] == raw[i];
        }
      }
      if exists i :: 0 <= i < |raw[1..]| && raw[1..][i].Str? && f(raw[1..][i].s) == s {
        var i :| 0 <= i < |raw[1..]| && raw[1..][i].Str? && f(raw[1..][i].s) == s;
        assert raw[i + 1] == raw[1..][i];
      }
    }
  }

  /** `relatedSkills.filter(isString).map(canonical).filter(s => s !== 'General')`. */
  function NormaliseSkills(raw: seq<Value>): (r: seq<string>)
    ensures |r| <= |raw|
    ensures Placeholder !in r
  {
    MapStrings(raw, Canonical, Placeholder)
  }

  /** Normalising works entry by entry, in order: it distributes over concatenation. */
  lemma NormaliseSkillsAppend(a: seq<Value>, b: seq<Value>)
    ensures NormaliseSkills(a + b) == NormaliseSkills(a) + NormaliseSkills(b)
  {
    MapStringsAppend(a, b, Canonical, Placeholder);
  }

  /** One entry: a non-string is dropped, a string becomes its canonical name unless that is "General". */
  lemma NormaliseOne(v: Value)
    ensures !v.Str? ==> NormaliseSkills([v]) == []
    ensures v.Str? ==> NormaliseSkills([v]) == (if Canonical(v.s) == Placeholder then [] else [Canonical(v.s)])
  {
    assert [v][1..] == [];
  }

  /** A name is in the result exactly when some string entry canonicalises to it and it is not "General". */
  lemma NormaliseSkillsMembership(raw: seq<Value>, s: string)
    ensures s in NormaliseSkills(raw) <==>
      s != Placeholder && exists i :: 0 <= i < |raw| && raw[i].Str? && Canonical(raw[i].s) == s
  {
    MapStringsMembership(raw, Canonical, Placeholder, s);
  }

  /** A token the table does not know is kept in its original form, untrimmed and with its case. */
  lemma UnmappedTokenPassesThrough(token: string)
    requires AliasKey(token) !in SkillAliases && token != Placeholder
    ensures NormaliseSkills([Str(token)]) == [token]
  {
    NormaliseOne(Str(token));
  }

  /** A word of lower-case letters and underscores that no key of the table starts like is kept. */
  lemma UnmappedWordPassesThrough(token: string)
    requires token != [] && forall i :: 0 <= i < |token| ==> 'a' <= token[i] <= 'z' || token[i] == '_'
    requires token[0] !in "rnjmdpasu"
    ensures NormaliseSkills([Str(token)]) == [token]
  {
    assert AliasKey(token) !in SkillAliases by {
      AliasKeyOfLowerWord(token);
      NotAliasByInitial(token);
    }
    assert token != Placeholder by {
      assert token[0] != Placeholder[0];
    }
    UnmappedTokenPassesThrough(token);
  }

  /** Only the exact token "General" is dropped: its lower-case spelling stays. */
  lemma LowerCaseGeneralPassesThrough(token: string)
    requires token == "general"
    ensures NormaliseSkills([Str(token)]) == [token]
  {
    UnmappedWordPassesThrough(token);
  }

  /** The normaliser does not remove duplicates. */
  lemma DuplicatesKept()
    ensures NormaliseSkills([Str("react"), Str("react")]) == ["React", "React"]
  {
    AliasKeyOfLowerWord("react");
    NormaliseSkillsAppend([Str("react")], [Str("react")]);
    NormaliseOne(Str("react"));
    assert [Str("react"), Str("react")] == [Str("react")] + [Str("react")];
  }

  /** `["low", "medium", "high"].includes(analysis.priority) ? analysis.priority : "medium"`. */
  function PriorityOf(analysis: Value): (p: Priority)
    ensures Member(analysis, "priority").Str? && ParsePriority(Member(analysis, "priority").s).Some? ==>
      PriorityName(p) == Member(analysis, "priority").s
    ensures !(Member(analysis, "priority").Str? && ParsePriority(Member(analysis, "priority").s).Some?) ==> p == Medium
  {
    var v := Member(analysis, "priority");
    if v.Str? && ParsePriority(v.s).Some? then ParsePriority(v.s).value else Medium
  }

  /** Every priority the classifier can name is read back as itself. */
  lemma PriorityOfNamed(analysis: Value, p: Priority)
    requires Member(analysis, "priority") == Str(PriorityName(p))
    ensures PriorityOf(analysis) == p
  {
    PriorityNameRoundTrip(p);
  }

  /** `typeof analysis.helpfulNotes === 'string' ? analysis.helpfulNotes : ''`. */
  function NotesOf(analysis: Value): (n: string)
    ensures Member(analysis, "helpfulNotes").Str? ==> n == Member(analysis, "helpfulNotes").s
    ensures !Member(analysis, "helpfulNotes").Str? ==> n == ""
  {
    var v := Member(analysis, "helpfulNotes");
    if v.Str? then v.s else ""
  }

  /** `analysis && Array.isArray(analysis.relatedSkills)`: the skill array when there is one. */
  function SkillArray(analysis: Value): (r: Option<seq<Value>>)
    ensures r.Some? <==> Truthy(analysis) && Member(analysis, "relatedSkills").Arr?
    ensures r.Some? ==> r.value == Member(analysis, "relatedSkills").items
  {
    if Truthy(analysis) && Member(analysis, "relatedSkills").Arr? then Some(Member(analysis, "relatedSkills").items)
    else None
  }

  /** The skills the analysis step hands on: the normalised array, or none. */
  function AnalysedSkills(analysis: Value): (r: seq<string>)
    ensures SkillArray(analysis).None? ==> r == []
    ensures SkillArray(analysis).Some? ==> r == NormaliseSkills(SkillArray(analysis).value)
  {
    match SkillArray(analysis)
    case None => []
    case Some(raw) => NormaliseSkills(raw)
  }

  /** The filter `{ role: "moderator", skills: { $in: skills } }`. */
  predicate SkilledModerator(u: User, skills: seq<string>) {
    u.role == Moderator && exists s :: s in skills && s in u.skills
  }

  predicate IsModerator(u: User) {
    u.role == Moderator
  }

  /** `roster[i]` is the first moderator sharing a skill with `skills`. */
  ghost predicate FirstSkilled(roster: seq<User>, skills: seq<string>, i: int) {
    0 <= i < |roster| && SkilledModerator(roster[i], skills) &&
    forall j :: 0 <= j < i ==> !SkilledModerator(roster[j], skills)
  }

  /** `roster[i]` is the first moderator. */
  ghost predicate FirstModerator(roster: seq<User>, i: int) {
    0 <= i < |roster| && IsModerator(roster[i]) && forall j :: 0 <= j < i ==> !IsModerator(roster[j])
  }

  /** The moderator chosen for skills `skills`: with skills, the first moderator who has one of
      them; failing that, the first moderator; failing that, nobody. */
  function ResolveAssignee(roster: seq<User>, skills: seq<string>): (r: Option<User>)
    ensures r.Some? ==> r.value in roster && r.value.role == Moderator
    ensures r.None? <==> forall i :: 0 <= i < |roster| ==> roster[i].role != Moderator
    ensures |skills| > 0 ==> forall i :: FirstSkilled(roster, skills, i) ==> r == Some(roster[i])
    ensures (|skills| == 0 || forall i :: 0 <= i < |roster| ==> !SkilledModerator(roster[i], skills)) ==>
      forall i :: FirstModerator(roster, i) ==> r == Some(roster[i])
  {
    var skilled := if |skills| > 0 then FindFirst(roster, (u: User) => SkilledModerator(u, skills)) else None;
    assert forall i :: FirstSkilled(roster, skills, i) ==> FirstAt(roster, (u: User) => SkilledModerator(u, skills), i);
    assert forall i :: FirstModerator(roster, i) ==> FirstAt(roster, IsModerator, i);
    if skilled.Some? then skilled else FindFirst(roster, IsModerator)
  }

  /** An admin is never chosen, whatever the roster and the skills. */
  lemma NeverAssignsAdmin(roster: seq<User>, skills: seq<string>)
    ensures ResolveAssignee(roster, skills).Some? ==> ResolveAssignee(roster, skills).value.role != Admin
  {
  }

  /** With no skills to match, the choice is simply the first moderator. */
  lemma NoSkillsFirstModerator(roster: seq<User>)
    ensures ResolveAssignee(roster, []) == FindFirst(roster, IsModerator)
  {
  }

  // The table as the code reads it. `skillMap` is an object literal, so `skillMap[key]`
  // also finds the members every object inherits. The only inherited names a lower-cased,
  // trimmed token can spell are "constructor" (the function `Object`) and "__proto__"
  // (the object `Object.prototype`); both are truthy, so `|| skill` does not apply.

  /** What `skillMap[normalized] || skill` evaluates to, as the code is written. */
  datatype Lookup = Text(s: string) | ObjectFunction | ObjectPrototype

  function CanonicalAsWritten(token: string): (r: Lookup)
    ensures AliasKey(token) != "constructor" && AliasKey(token) != "__proto__" ==> r == Text(Canonical(token))
  {
    var key := AliasKey(token);
    if key in SkillAliases then Text(SkillAliases[key])
    else if key == "constructor" then ObjectFunction
    else if key == "__proto__" then ObjectPrototype
    else Text(token)
  }

  /** What Mongoose's string cast makes of `Object` when the skills are written: its `toString`. */
  const ObjectFunctionText: string := "function Object() { [native code] }"

  /** The skills array as the update stores it, cast element by element: `None` when the cast
      throws, which it does for `Object.prototype`, whose `toString` is the default one. */
  function StoredSkillsAsWritten(raw: seq<Value>): (r: Option<seq<string>>)
    ensures r.Some? ==> |r.value| <= |raw|
  {
    if raw == [] then Some([])
    else
      var rest := StoredSkillsAsWritten(raw[1..]);
      if !raw[0].Str? then rest
      else
        match CanonicalAsWritten(raw[0].s)
        case ObjectPrototype => None
        case ObjectFunction => if rest.Some? then Some([ObjectFunctionText] + rest.value) else None
        case Text(s) =>
          if s == Placeholder then rest
          else if rest.Some? then Some([s] + rest.value) else None
  }

  /** Neither inherited name is a key of the table. */
  lemma ConstructorNotAlias()
    ensures "constructor" !in SkillAliases
  {
  }

  lemma ProtoNotAlias()
    ensures "__proto__" !in SkillAliases
  {
  }

  /** "General" is looked up under "general", so it is not one of the inherited names. */
  lemma PlaceholderKey()
    ensures AliasKey(Placeholder) == "general"
  {
    assert ToLower(Placeholder) == "general";
    TrimUnpadded("general");
  }

  /** The keyword classifier's placeholder is looked up under a key the table lacks. */
  lemma GeneralNotAlias()
    ensures "general" !in SkillAliases
  {
  }

  /** so the placeholder itself is dropped. */
  lemma PlaceholderDropped()
    ensures NormaliseSkills([Str(Placeholder)]) == []
  {
    assert AliasKey(Placeholder) !in SkillAliases by {
      PlaceholderKey();
      GeneralNotAlias();
    }
    assert Canonical(Placeholder) == Placeholder;
    NormaliseOne(Str(Placeholder));
  }

  /** Each inherited name is its own key, so the plain token reaches the inherited member. */
  lemma InheritedNamesAreKeys()
    ensures AliasKey("constructor") == "constructor"
    ensures AliasKey("__proto__") == "__proto__"
  {
    AliasKeyOfLowerWord("constructor");
    AliasKeyOfLowerWord("__proto__");
  }

  /** A token whose key is "constructor" (the token "constructor" itself, or " Constructor ")
      is stored as the source text of `Object`, where it should be kept as it is. */
  lemma ConstructorTokenAsWritten(token: string)
    requires AliasKey(token) == "constructor"
    ensures StoredSkillsAsWritten([Str(token)]) == Some([ObjectFunctionText])
    ensures NormaliseSkills([Str(token)]) == [token]
  {
    ConstructorNotAlias();
    assert CanonicalAsWritten(token) == ObjectFunction;
    assert [Str(token)][1..] == [];
    assert StoredSkillsAsWritten([]) == Some([]);
    assert [ObjectFunctionText] + [] == [ObjectFunctionText];
    PlaceholderKey();
    UnmappedTokenPassesThrough(token);
  }

  /** A token whose key is "__proto__" makes the update throw, where it should be kept as it is. */
  lemma ProtoTokenAsWritten(token: string)
    requires AliasKey(token) == "__proto__"
    ensures StoredSkillsAsWritten([Str(token)]).None?
    ensures NormaliseSkills([Str(token)]) == [token]
  {
    ProtoNotAlias();
    assert CanonicalAsWritten(token) == ObjectPrototype;
    PlaceholderKey();
    UnmappedTokenPassesThrough(token);
  }

  /** Apart from those two tokens, the code as written and the own-entry reading agree. */
  lemma {:induction false} AsWrittenAgreesElsewhere(raw: seq<Value>)
    requires forall i :: 0 <= i < |raw| && raw[i].Str? ==>
      AliasKey(raw[i].s) != "constructor" && AliasKey(raw[i].s) != "__proto__"
    ensures StoredSkillsAsWritten(raw) == Some(NormaliseSkills(raw))
  {
    if raw != [] {
      assert forall i :: 0 <= i < |raw[1..]| ==> raw[1..][i] == raw[i + 1];
      AsWrittenAgreesElsewhere(raw[1..]);
      var tail := NormaliseSkills(raw[1..]);
      if raw[0].Str? && Canonical(raw[0].s) != Placeholder {
        assert CanonicalAsWritten(raw[0].s) == Text(Canonical(raw[0].s));
        assert NormaliseSkills(raw) == [Canonical(raw[0].s)] + tail;
      } else {
        assert NormaliseSkills(raw) == [] + tail == tail;
      }
    }
  }
}
