/** The User schema (models/user.js): the role enumeration, the
    email pattern `^[^\s@]+@[^\s@]+\.[^\s@]+$`, the password's minimum length and
    the uniqueness of emails (kept by the store). */
module UserModel {
  import opened JsValue
  import opened JsString
  import opened TicketModel

  /** The roles "user", "moderator" and "admin". */
  datatype Role = RegularUser | Moderator | Admin

  datatype User = User(
    id: ObjectId,
    email: string,
    password: string,
    role: Role,
    skills: seq<string>,
    createdAt: int)

  const MinPasswordLength: nat := 8

  function RoleName(r: Role): string {
    match r
    case RegularUser => "user"
    case Moderator => "moderator"
    case Admin => "admin"
  }

  /** `['user', 'moderator', 'admin'].includes(v)`: only these three strings, case-sensitive. */
  function ParseRole(v: Value): (r: Option<Role>)
    ensures r.Some? ==> v == Str(RoleName(r.value))
  {
    if v == Str("user") then Some(RegularUser)
    else if v == Str("moderator") then Some(Moderator)
    else if v == Str("admin") then Some(Admin)
    else None
  }

  lemma RoleNameRoundTrip(r: Role)
    ensures ParseRole(Str(RoleName(r))) == Some(r)
  {
  }

  /** One or more characters, none of them whitespace or '@': the class `[^\s@]+`. */
  predicate Plain(s: string) {
    s != [] && forall i :: 0 <= i < |s| ==> !IsWhitespace(s[i]) && s[i] != '@'
  }

  /** The regular expression read as a shape: `local@name.tld`, where the dot at `j` is any
      dot of the part after '@' that has a non-empty piece on either side. */
  ghost predicate EmailSplit(s: string, i: int, j: int) {
    0 < i && i + 1 < j && j + 1 < |s| && s[i] == '@' && s[j] == '.' &&
    Plain(s[..i]) && Plain(s[i + 1..j]) && Plain(s[j + 1..])
  }

  ghost predicate EmailShape(s: string) {
    exists i, j :: EmailSplit(s, i, j)
  }

  /** The schema's `match` validator, computed without backtracking: one '@' with a plain
      local part before it, and after it a plain part that has a '.' strictly inside. */
  predicate EmailMatches(s: string) {
    var at := IndexOf(s, '@');
    at > 0 && Plain(s[..at]) &&
    var d := s[at + 1..];
    |d| >= 3 && Plain(d) && '.' in d[1..|d| - 1]
  }

  lemma EmailMatchesIsShape(s: string)
    ensures EmailMatches(s) <==> EmailShape(s)
  {
    if EmailMatches(s) {
      EmailMatchesGivesSplit(s);
    }
    if EmailShape(s) {
      var i, j :| EmailSplit(s, i, j);
      EmailSplitMatches(s, i, j);
    }
  }

  /** The computed check finds a split: the '@' it found, and the first dot after it. */
  lemma EmailMatchesGivesSplit(s: string)
    requires EmailMatches(s)
    ensures EmailShape(s)
  {
    var at := IndexOf(s, '@');
    var d := s[at + 1..];
    var inner := d[1..|d| - 1];
    var k := IndexOf(inner, '.');
    var j := at + 2 + k;
    assert s[at + 1..j] == d[..k + 1];
    assert s[j + 1..] == d[k + 2..];
    assert EmailSplit(s, at, j);
  }

  /** Any split passes the computed check: its '@' is the only one. */
  lemma EmailSplitMatches(s: string, i: int, j: int)
    requires EmailSplit(s, i, j)
    ensures EmailMatches(s)
  {
    assert forall m :: 0 <= m < i ==> s[..i][m] == s[m];
    IndexOfFinds(s, '@', i);
    var d := s[i + 1..];
    assert d == s[i + 1..j] + "." + s[j + 1..];
    assert d[j - i - 1] == '.';
    assert d[1..|d| - 1][j - i - 2] == '.';
  }

  /** The schema's validators on a stored user: the email pattern, and a password of at
      least eight UTF-16 code units. The password stored is the bcrypt hash. */
  predicate ValidUser(u: User) {
    EmailMatches(u.email) && Utf16Length(u.password) >= MinPasswordLength
  }

  /** The document `User.create` builds: `skills` defaults to an empty array. */
  function NewUser(id: ObjectId, email: string, password: string, role: Role, skills: seq<string>, now: int): User {
    User(id, email, password, role, skills, now)
  }

  /** What `select('-password')` returns: every field but the password. */
  datatype PublicUser = PublicUser(id: ObjectId, email: string, role: Role, skills: seq<string>, createdAt: int)

  function Public(u: User): (p: PublicUser)
    ensures p.id == u.id && p.email == u.email && p.role == u.role && p.skills == u.skills
    ensures p.createdAt == u.createdAt
  {
    PublicUser(u.id, u.email, u.role, u.skills, u.createdAt)
  }
}
