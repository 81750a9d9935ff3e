/** The user route handlers (controllers/user.js): sign-up, log-in, the admin's user
    update and listing, admin creation and the caller's own profile. bcrypt's hash and
    compare and the token signer are parameters; so is whether `inngest.send` succeeded.
    `logout` is not part of this model. */
module UserController {
  import opened JsValue
  import opened JsString
  import opened TicketModel
  import opened UserModel
  import opened Store
  import opened Http

  /** The "user/signup" event. */
  datatype SignupEvent = UserSignedUp(email: string)

  datatype Payload =
    | Error(error: string)
    /** A 500 whose body carries the thrown error's message, which the model does not name. */
    | Thrown
    | Session(user: User, token: string)
    | Message(message: string)
    | UserList(users: seq<PublicUser>)
    | AdminCreated(message: string, email: string)
    | Profile(message: string, profile: Option<PublicUser>)

  /** The arguments a handler reads from `req.body`, with the defaults its destructuring gives. */
  function EmailField(body: Value): Value { Member(body, "email") }
  function PasswordField(body: Value): Value { Member(body, "password") }
  function SkillsField(body: Value): Value { Member(body, "skills") }
  function RoleField(body: Value): Value { Member(body, "role") }

  /** `typeof email === 'string' ? email.trim().toLowerCase() : ''` */
  function SanitizeEmail(v: Value): (e: string)
    ensures !v.Str? ==> e == ""
    ensures v.Str? ==> |e| == |Trim(v.s)| && forall i :: 0 <= i < |e| ==> e[i] == LowerChar(Trim(v.s)[i])
    ensures v.Str? ==> |e| <= |v.s|
    ensures Trimmed(e)
    ensures forall i :: 0 <= i < |e| ==> !('A' <= e[i] <= 'Z')
  {
    if v.Str? then
      var t := Trim(v.s);
      LowerKeepsTrimmed(t);
      ToLower(t)
    else ""
  }

  /** A sanitised email sanitises to itself, so the address stored at sign-up is the one a
      later log-in or update computes from the same input. */
  lemma SanitizeEmailIdempotent(v: Value)
    ensures SanitizeEmail(Str(SanitizeEmail(v))) == SanitizeEmail(v)
  {
    if v.Str? {
      var e := SanitizeEmail(v);
      TrimUnpadded(e);
      ToLowerIdempotent(Trim(v.s));
    }
  }

  /** `Array.isArray(skills) ? skills.filter(s => typeof s === 'string') : []`, with an absent
      field defaulting to `[]`. */
  function SanitizeSkills(v: Value): (ss: seq<string>)
    ensures !v.Arr? ==> ss == []
    ensures v.Arr? ==> |ss| <= |v.items|
  {
    if v.Arr? then StringEntries(v.items) else []
  }

  /** The sanitised skills are the array's strings: each one kept, nothing else added. */
  lemma SanitizeSkillsMembership(v: Value, s: string)
    ensures s in SanitizeSkills(v) <==> v.Arr? && Str(s) in v.items
  {
    if v.Arr? {
      StringEntriesMembership(v.items, s);
    }
  }

  /** and in their order: the filter distributes over concatenation. */
  lemma SanitizeSkillsOrder(a: seq<Value>, b: seq<Value>)
    ensures SanitizeSkills(Arr(a + b)) == SanitizeSkills(Arr(a)) + SanitizeSkills(Arr(b))
  {
    StringEntriesAppend(a, b);
  }

  /** Sign-up's role: the first account is the admin. */
  function SignupRole(userCount: nat): (r: Role)
    ensures r == Admin <==> userCount == 0
    ensures r != Moderator
  {
    if userCount == 0 then Admin else RegularUser
  }

  /** The document sign-up hands to `User.create`. */
  function SignupUser(body: Value, id: ObjectId, userCount: nat, hash: string -> string, now: int): (u: User)
    requires PasswordField(body).Str?
    ensures u.email == SanitizeEmail(EmailField(body)) && u.password == hash(PasswordField(body).s)
    ensures u.role == Admin <==> userCount == 0
    ensures u.role == (if userCount == 0 then Admin else RegularUser)
    ensures u.skills == SanitizeSkills(SkillsField(body))
  {
    NewUser(id, SanitizeEmail(EmailField(body)), hash(PasswordField(body).s), SignupRole(userCount), SanitizeSkills(SkillsField(body)), now)
  }

  /** `signup`. `hash` stands for `bcrypt.hash(password, 10)`, which throws for a password
      that is not a string, and `sign` for `jwt.sign`. The response includes the stored
      document, hash included. */
  method Signup(db: Database, body: Value, hash: string -> string, sign: (ObjectId, Role) -> string, eventDelivered: bool, now: int)
    returns (r: Response<Payload>, event: Option<SignupEvent>)
    requires db.Valid()
    requires !Nullish(body)
    modifies db
    ensures db.Valid()
    ensures db.tickets == old(db.tickets) && db.ticketOrder == old(db.ticketOrder)
    ensures db.users == old(db.users) || |db.users| == |old(db.users)| + 1
    ensures SanitizeEmail(EmailField(body)) == "" || !Truthy(PasswordField(body)) ==>
      r == Response(400, Error("Email and password are required")) && event.None? && db.users == old(db.users)
    ensures SanitizeEmail(EmailField(body)) != "" && Truthy(PasswordField(body)) && !PasswordField(body).Str? ==>
      r == Response(500, Error("Signup failed")) && event.None? && db.users == old(db.users)
    ensures SanitizeEmail(EmailField(body)) != "" && PasswordField(body).Str? && PasswordField(body).s != "" ==>
      var u := SignupUser(body, old(db.nextId), |old(db.users)|, hash, now);
      (!Admissible(u, old(db.users)) ==>
        r == Response(500, Error("Signup failed")) && event.None? && db.users == old(db.users)) &&
      (Admissible(u, old(db.users)) ==>
        db.users == old(db.users) + [u] && event == Some(UserSignedUp(u.email)) &&
        r == (if eventDelivered then Response(200, Session(u, sign(u.id, u.role))) else Response(500, Error("Signup failed"))))
  {
    event := None;
    var email := SanitizeEmail(EmailField(body));
    var skills := SanitizeSkills(SkillsField(body));
    var password := PasswordField(body);
    if email == "" || !Truthy(password) {
      return Response(400, Error("Email and password are required")), None;
    }
    var role := SignupRole(|db.users|);
    if !password.Str? {
      return Response(500, Error("Signup failed")), None;
    }
    var hashed := hash(password.s);
    ghost var u := SignupUser(body, db.nextId, |db.users|, hash, now);
    assert u == NewUser(db.nextId, email, hashed, role, skills, now);
    var created := db.CreateUser(email, hashed, role, skills, now);
    if created.Rejected? {
      return Response(500, Error("Signup failed")), None;
    }
    var user := created.user;
    event := Some(UserSignedUp(email));
    if !eventDelivered {
      return Response(500, Error("Signup failed")), event;
    }
    r := Response(200, Session(user, sign(user.id, user.role)));
  }

  /** `login`. `compare` stands for `bcrypt.compare`, which throws for a password that is
      not a string. An unknown email and a wrong password are told apart (401 both). */
  method Login(db: Database, body: Value, compare: (string, string) -> bool, sign: (ObjectId, Role) -> string)
    returns (r: Response<Payload>)
    requires db.Valid()
    requires !Nullish(body)
    ensures SanitizeEmail(EmailField(body)) == "" || !Truthy(PasswordField(body)) ==>
      r == Response(400, Error("Email and password are required"))
    ensures SanitizeEmail(EmailField(body)) != "" && Truthy(PasswordField(body)) ==>
      var found := db.UserByEmail(SanitizeEmail(EmailField(body)));
      var password := PasswordField(body);
      r == if found.None? then Response(401, Error("User not found"))
           else if !password.Str? then Response(500, Error("Login failed"))
           else if !compare(password.s, found.value.password) then Response(401, Error("Invalid credentials"))
           else Response(200, Session(found.value, sign(found.value.id, found.value.role)))
    ensures r.status == 200 ==>
      (r.body.Session? && r.body.user in db.users &&
       r.body.user.email == SanitizeEmail(EmailField(body)) && compare(PasswordField(body).s, r.body.user.password))
  {
    var email := SanitizeEmail(EmailField(body));
    var password := PasswordField(body);
    if email == "" || !Truthy(password) {
      return Response(400, Error("Email and password are required"));
    }
    var found := db.UserByEmail(email);
    if found.None? {
      return Response(401, Error("User not found"));
    }
    var user := found.value;
    if !password.Str? {
      return Response(500, Error("Login failed"));
    }
    if !compare(password.s, user.password) {
      return Response(401, Error("Invalid credentials"));
    }
    r := Response(200, Session(user, sign(user.id, user.role)));
  }

  /** The `updateData` object: skills only when the sanitised list is non-empty, the role
      only when it is one of the three names. */
  function UpdateData(skills: seq<string>, role: Option<Role>): (p: UserPatch)
    ensures p.skills.Some? <==> |skills| > 0
    ensures p.skills.Some? ==> p.skills.value == skills
    ensures p.role == role
  {
    UserPatch(if |skills| > 0 then Some(skills) else None, role)
  }

  /** What the update does to one user: an empty skill list and an unknown role leave the
      old values. */
  lemma UpdateDataEffect(u: User, skills: seq<string>, roleValue: Value)
    ensures var v := PatchedUser(u, UpdateData(skills, ParseRole(roleValue)));
      v.id == u.id && v.email == u.email && v.password == u.password &&
      v.skills == (if skills == [] then u.skills else skills) &&
      (ParseRole(roleValue).None? ==> v.role == u.role) &&
      (ParseRole(roleValue).Some? ==> roleValue == Str(RoleName(v.role)))
  {
  }

  /** With emails unique, the filter `{ email }` selects exactly the user holding it. */
  lemma EmailSelectsHolder(db: Database, select: User -> bool, email: string, i: int)
    requires db.Valid() && 0 <= i < |db.users|
    requires forall u :: select(u) <==> u.email == email
    ensures FirstAt(db.users, select, i) <==> db.users[i].email == email
  {
  }

  /** With ids unique, the filter `{ _id: id }` selects exactly the user holding it. */
  lemma IdSelectsHolder(db: Database, select: User -> bool, id: ObjectId, i: int)
    requires db.Valid() && 0 <= i < |db.users|
    requires forall u :: select(u) <==> u.id == id
    ensures FirstAt(db.users, select, i) <==> db.users[i].id == id
  {
  }

  /** After the caller's skills are replaced, the caller exists exactly when it existed
      before, and every document holding the caller's id has the new skills. */
  lemma ProfileAfterUpdate(before: seq<User>, after: seq<User>, id: ObjectId, skills: seq<string>)
    requires after == WithSkills(before, id, skills)
    ensures (exists i :: 0 <= i < |after| && after[i].id == id) <==> (exists i :: 0 <= i < |before| && before[i].id == id)
    ensures forall u :: u in after && u.id == id ==> u.skills == skills
  {
    if exists i :: 0 <= i < |before| && before[i].id == id {
      var i :| 0 <= i < |before| && before[i].id == id;
      assert after[i].id == id;
    }
  }

  /** `updateUser`: the email is checked (400) before the caller's role (403), then the
      user must exist (401); only that user is patched. */
  method UpdateUser(db: Database, caller: Caller, body: Value) returns (r: Response<Payload>)
    requires db.Valid()
    requires !Nullish(body)
    modifies db
    ensures db.Valid()
    ensures db.tickets == old(db.tickets) && db.ticketOrder == old(db.ticketOrder) && db.nextId == old(db.nextId)
    ensures SanitizeEmail(EmailField(body)) == "" ==>
      r == Response(400, Error("Valid email is required")) && db.users == old(db.users)
    ensures SanitizeEmail(EmailField(body)) != "" && caller.role != Admin ==>
      r == Response(403, Error("Forbidden")) && db.users == old(db.users)
    ensures SanitizeEmail(EmailField(body)) != "" && caller.role == Admin && !EmailTaken(old(db.users), SanitizeEmail(EmailField(body))) ==>
      r == Response(401, Error("User not found")) && db.users == old(db.users)
    ensures SanitizeEmail(EmailField(body)) != "" && caller.role == Admin && EmailTaken(old(db.users), SanitizeEmail(EmailField(body))) ==>
      r == Response(200, Message("User updated successfully")) &&
      db.users == WithPatch(old(db.users), SanitizeEmail(EmailField(body)), UpdateData(SanitizeSkills(SkillsField(body)), ParseRole(RoleField(body))))
  {
    var skills := SanitizeSkills(SkillsField(body));
    var role := ParseRole(RoleField(body));
    var email := SanitizeEmail(EmailField(body));
    if email == "" {
      return Response(400, Error("Valid email is required"));
    }
    if caller.role != Admin {
      return Response(403, Error("Forbidden"));
    }
    var found := db.UserByEmail(email);
    if found.None? {
      return Response(401, Error("User not found"));
    }
    PatchHolder(db, email, UpdateData(skills, role));
    r := Response(200, Message("User updated successfully"));
  }

  /** The users with the holder of `email` patched by `p`. */
  function WithPatch(us: seq<User>, email: string, p: UserPatch): (r: seq<User>)
    ensures |r| == |us|
    ensures forall i :: 0 <= i < |us| ==> r[i] == if us[i].email == email then PatchedUser(us[i], p) else us[i]
  {
    seq(|us|, i requires 0 <= i < |us| => if us[i].email == email then PatchedUser(us[i], p) else us[i])
  }

  /** `User.updateOne({ email }, p)`. */
  method PatchHolder(db: Database, email: string, p: UserPatch)
    requires db.Valid()
    modifies db
    ensures db.Valid()
    ensures db.users == WithPatch(old(db.users), email, p)
    ensures db.tickets == old(db.tickets) && db.ticketOrder == old(db.ticketOrder) && db.nextId == old(db.nextId)
  {
    ghost var before := db.users;
    var select := (u: User) => u.email == email;
    forall i | 0 <= i < |before| ensures FirstAt(before, select, i) <==> before[i].email == email {
      EmailSelectsHolder(db, select, email, i);
    }
    db.UpdateFirstUser(select, p);
    assert forall i :: 0 <= i < |db.users| ==> db.users[i] == WithPatch(before, email, p)[i];
  }

  function PublicUsers(us: seq<User>): (ps: seq<PublicUser>)
    ensures |ps| == |us| && forall i :: 0 <= i < |us| ==> ps[i] == Public(us[i])
  {
    seq(|us|, i requires 0 <= i < |us| => Public(us[i]))
  }

  /** `getUsers`: admins get every user without the password, in natural order. */
  method GetUsers(db: Database, caller: Caller) returns (r: Response<Payload>)
    ensures caller.role != Admin ==> r == Response(403, Error("Forbidden"))
    ensures caller.role == Admin ==>
      (r.status == 200 && r.body.UserList? && |r.body.users| == |db.users| &&
       forall i :: 0 <= i < |db.users| ==>
         (r.body.users[i].id == db.users[i].id && r.body.users[i].email == db.users[i].email &&
          r.body.users[i].role == db.users[i].role && r.body.users[i].skills == db.users[i].skills &&
          r.body.users[i].createdAt == db.users[i].createdAt))
    ensures caller.role == Admin ==> r.body.users == PublicUsers(db.users)
  {
    if caller.role != Admin {
      return Response(403, Error("Forbidden"));
    }
    r := Response(200, UserList(PublicUsers(db.users)));
  }

  /** `createAdmin`, open to anyone: any truthy email and password make an admin with no
      skills. A password that is not a string makes the hash throw, an email that is not a
      string makes `trim` throw. */
  method CreateAdmin(db: Database, body: Value, hash: string -> string, now: int) returns (r: Response<Payload>)
    requires db.Valid()
    modifies db
    ensures db.Valid()
    ensures db.tickets == old(db.tickets) && db.ticketOrder == old(db.ticketOrder)
    ensures Nullish(body) ==> r == Response(500, Thrown) && db.users == old(db.users)
    ensures !Nullish(body) && !(Truthy(EmailField(body)) && Truthy(PasswordField(body))) ==>
      r == Response(400, Error("Email and password required")) && db.users == old(db.users)
    ensures !Nullish(body) && Truthy(EmailField(body)) && Truthy(PasswordField(body)) &&
            !(EmailField(body).Str? && PasswordField(body).Str?) ==>
      r == Response(500, Thrown) && db.users == old(db.users)
    ensures !Nullish(body) && EmailField(body).Str? && EmailField(body).s != "" && PasswordField(body).Str? && PasswordField(body).s != "" ==>
      var u := NewUser(old(db.nextId), SanitizeEmail(EmailField(body)), hash(PasswordField(body).s), Admin, [], now);
      (!Admissible(u, old(db.users)) ==> r == Response(500, Thrown) && db.users == old(db.users)) &&
      (Admissible(u, old(db.users)) ==>
        db.users == old(db.users) + [u] && r == Response(200, AdminCreated("Admin created successfully", u.email)))
  {
    if Nullish(body) {
      return Response(500, Thrown);
    }
    var email := EmailField(body);
    var password := PasswordField(body);
    if !Truthy(email) || !Truthy(password) {
      return Response(400, Error("Email and password required"));
    }
    if !password.Str? {
      return Response(500, Thrown);
    }
    var hashed := hash(password.s);
    if !email.Str? {
      return Response(500, Thrown);
    }
    ghost var u := NewUser(db.nextId, SanitizeEmail(email), hashed, Admin, [], now);
    var created := db.CreateUser(ToLower(Trim(email.s)), hashed, Admin, [], now);
    if created.Rejected? {
      return Response(500, Thrown);
    }
    r := Response(200, AdminCreated("Admin created successfully", created.user.email));
  }

  /** `updateProfile`: the caller's skills become the sanitised list, even an empty one, and
      the response shows the caller's document as stored now. */
  method UpdateProfile(db: Database, caller: Caller, body: Value) returns (r: Response<Payload>)
    requires db.Valid()
    modifies db
    ensures db.Valid()
    ensures db.tickets == old(db.tickets) && db.ticketOrder == old(db.ticketOrder) && db.nextId == old(db.nextId)
    ensures Nullish(body) ==> r == Response(500, Thrown) && db.users == old(db.users)
    ensures !Nullish(body) ==>
      db.users == WithSkills(old(db.users), caller.id, SanitizeSkills(SkillsField(body))) &&
      r.status == 200 && r.body.Profile? && r.body.message == "Profile updated" &&
      (r.body.profile.Some? <==> exists i :: 0 <= i < |old(db.users)| && old(db.users)[i].id == caller.id) &&
      (r.body.profile.Some? ==> r.body.profile.value.id == caller.id && r.body.profile.value.skills == SanitizeSkills(SkillsField(body)))
    ensures !Nullish(body) && r.body.profile.Some? ==>
      exists i :: 0 <= i < |db.users| && db.users[i].id == caller.id && r.body.profile.value == Public(db.users[i])
  {
    if Nullish(body) {
      return Response(500, Thrown);
    }
    var skills := SanitizeSkills(SkillsField(body));
    ghost var before := db.users;
    SetSkills(db, caller.id, skills);
    ProfileAfterUpdate(before, db.users, caller.id, skills);
    var updated := db.UserById(caller.id);
    if updated.Some? {
      ghost var k :| 0 <= k < |db.users| && db.users[k] == updated.value;
      assert db.users[k].id == caller.id && Public(updated.value) == Public(db.users[k]);
    }
    r := Response(200, Profile("Profile updated", if updated.Some? then Some(Public(updated.value)) else None));
  }

  /** The users with `id`'s skills replaced by `skills`. */
  function WithSkills(us: seq<User>, id: ObjectId, skills: seq<string>): (r: seq<User>)
    ensures |r| == |us|
    ensures forall i :: 0 <= i < |us| ==> r[i] == if us[i].id == id then us[i].(skills := skills) else us[i]
  {
    seq(|us|, i requires 0 <= i < |us| => if us[i].id == id then us[i].(skills := skills) else us[i])
  }

  /** `User.updateOne({ _id: id }, { skills })`. */
  method SetSkills(db: Database, id: ObjectId, skills: seq<string>)
    requires db.Valid()
    modifies db
    ensures db.Valid()
    ensures db.users == WithSkills(old(db.users), id, skills)
    ensures db.tickets == old(db.tickets) && db.ticketOrder == old(db.ticketOrder) && db.nextId == old(db.nextId)
  {
    ghost var before := db.users;
    var select := (u: User) => u.id == id;
    forall i | 0 <= i < |before| ensures FirstAt(before, select, i) <==> before[i].id == id {
      IdSelectsHolder(db, select, id, i);
    }
    db.UpdateFirstUser(select, UserPatch(Some(skills), None));
    forall i | 0 <= i < |db.users| ensures db.users[i] == WithSkills(before, id, skills)[i] {
      assert PatchedUser(before[i], UserPatch(Some(skills), None)) == before[i].(skills := skills);
    }
  }
}
