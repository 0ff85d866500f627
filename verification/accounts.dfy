/** The account handlers of the auth controller and the duplicated profile
    routes of the users router, over the user collection of `UserModel`.

    `req.user` is the id `protect` authenticated. JWT signing is the opaque
    `sign` parameter; the id a new document receives is the `freshId`
    parameter. Every handler returns its reply together with the collection
    after it ran. */
module Accounts {
  import opened Js
  import opened Http
  import opened UserModel

  /** The user fields the handlers copy into their replies: there is no password field. */
  datatype PublicUser = PublicUser(
    id: UserId, username: string, email: string, avatar: Option<string>, preferences: Preferences)

  /** A document fetched with `select('-password')`. */
  datatype Profile = Profile(
    id: UserId, username: string, email: string, avatar: Option<string>,
    isOnline: bool, lastSeen: nat, preferences: Preferences, stats: Stats)

  datatype AccountReply =
    | Session(user: PublicUser, stats: Option<Stats>, token: Option<string>)
    | Document(profile: Option<Profile>)
    | StatsOf(counters: Stats)
    | Notice(message: string)
    | Refreshed(newToken: string, account: PublicUser)

  datatype AccountResult = AccountResult(response: Response<AccountReply>, users: seq<User>)

  function Public(u: User): PublicUser {
    PublicUser(u.id, u.username, u.email, u.avatar, u.preferences)
  }

  function ProfileOf(u: User): Profile {
    Profile(u.id, u.username, u.email, u.avatar, u.isOnline, u.lastSeen, u.preferences, u.stats)
  }

  // ---------------------------------------------------------------------------
  // Writing to the collection

  /** The unique indexes on `_id`, `username` and `email` admit `u` at position
      `at` (or as a new document when `at` is `None`). */
  predicate IndexAllows(users: seq<User>, at: Option<nat>, u: User) {
    forall j :: 0 <= j < |users| && Some(j) != at ==>
      users[j].id != u.id && users[j].username != u.username && users[j].email != u.email
  }

  /** `save()` against the collection: validation and the password hook, then
      the unique indexes. `None` is an error of either kind, which every
      handler turns into a 500. */
  function Commit(users: seq<User>, at: Option<nat>, doc: User): (r: Option<User>)
    ensures r.Some? <==> Save(doc).Some? && IndexAllows(users, at, Save(doc).value)
    ensures r.Some? ==> r == Save(doc)
  {
    match Save(doc)
    case None => None
    case Some(s) => if IndexAllows(users, at, s) then Some(s) else None
  }

  /** The collection once the saved document is in place. */
  function Place(users: seq<User>, at: Option<nat>, s: User): (r: seq<User>)
    requires at.Some? ==> at.value < |users|
    ensures at.None? ==> r == users + [s]
    ensures at.Some? ==> |r| == |users| && r[at.value] == s
    ensures at.Some? ==> forall j :: 0 <= j < |users| && j != at.value ==> r[j] == users[j]
  {
    match at
    case None => users + [s]
    case Some(i) => users[i := s]
  }

  /** A committed, normalized document keeps the collection well formed. */
  lemma CommitKeepsWellFormed(users: seq<User>, at: Option<nat>, doc: User)
    requires WellFormed(users) && (at.Some? ==> at.value < |users|)
    requires Commit(users, at, doc).Some? && Normalized(doc)
    ensures WellFormed(Place(users, at, Commit(users, at, doc).value))
  {
    var s := Commit(users, at, doc).value;
    assert Stored(s);
    var r := Place(users, at, s);
    var k := if at.Some? then at.value else |users|;
    assert |r| == |users| || |r| == |users| + 1;
    assert r[k] == s;
    assert forall i :: 0 <= i < |r| && i != k ==> r[i] == users[i];
    forall i | 0 <= i < |r|
      ensures Stored(r[i])
    {
      if i != k {
        assert r[i] == users[i];
      }
    }
    forall i, j | 0 <= i < |r| && 0 <= j < |r| && i != j
      ensures Apart(r[i], r[j])
    {
      if i == k {
        assert Apart(users[j], s);
      } else if j == k {
        assert Apart(users[i], s);
      } else {
        assert Apart(users[i], users[j]);
      }
    }
  }

  // ---------------------------------------------------------------------------
  // POST /api/auth/register

  datatype RegisterBody = RegisterBody(username: Field<string>, email: Field<string>, password: Field<string>)

  predicate RegisterComplete(b: RegisterBody) {
    TruthyStr(b.username) && TruthyStr(b.email) && TruthyStr(b.password)
  }

  /** `findOne({ $or: [{ email }, { username }] })`, both query values passing through their setters. */
  function FindEither(users: seq<User>, email: string, username: string): (r: Option<nat>)
    ensures r.None? <==> forall i :: 0 <= i < |users| ==>
      users[i].email != NormalizeEmail(email) && users[i].username != NormalizeUsername(username)
  {
    FirstWhere(users, (u: User) => u.email == NormalizeEmail(email) || u.username == NormalizeUsername(username))
  }

  function Register(users: seq<User>, body: RegisterBody, freshId: UserId, now: nat, sign: UserId -> string): (r: AccountResult)
    ensures !RegisterComplete(body) ==>
      r == AccountResult(Fail(400, "Please provide all required fields"), users)
    ensures r.response.Fail? ==> r.users == users
    ensures r.response.Ok? ==>
      && RegisterComplete(body)
      && r.response.status == 201
      && var c := Create(freshId, body.username.value, body.email.value, body.password.value, now);
        && c.Some?
        && r.users == users + [c.value]
        && r.response.body == Session(Public(c.value), None, Some(sign(freshId)))
  {
    if !RegisterComplete(body) then
      AccountResult(Fail(400, "Please provide all required fields"), users)
    else
      var username, email, password := body.username.value, body.email.value, body.password.value;
      if FindEither(users, email, username).Some? then
        AccountResult(Fail(400, "User already exists with this email or username"), users)
      else
        match Create(freshId, username, email, password, now)
        case None => AccountResult(Fail(500, "Server error during registration"), users)
        case Some(u) =>
          match Commit(users, None, u)
          case None => AccountResult(Fail(500, "Server error during registration"), users)
          case Some(s) => AccountResult(Ok(201, Session(Public(s), None, Some(sign(s.id)))), users + [s])
  }

  /** `u` already holds the normalized email or the normalized username of the body. */
  predicate Holds(u: User, body: RegisterBody)
    requires RegisterComplete(body)
  {
    u.email == NormalizeEmail(body.email.value) || u.username == NormalizeUsername(body.username.value)
  }

  /** A complete registration is refused as a duplicate exactly when some
      user already holds the normalized email or the normalized username. */
  lemma RegisterDuplicateIff(users: seq<User>, body: RegisterBody, freshId: UserId, now: nat, sign: UserId -> string)
    requires RegisterComplete(body)
    ensures (Register(users, body, freshId, now, sign).response ==
      Fail(400, "User already exists with this email or username")) <==>
      exists i :: 0 <= i < |users| && Holds(users[i], body)
  {
    var f := FindEither(users, body.email.value, body.username.value);
    if f.Some? {
      var i := FirstWhere(users, (u: User) =>
        u.email == NormalizeEmail(body.email.value) || u.username == NormalizeUsername(body.username.value)).value;
      assert Holds(users[i], body);
    }
  }

  /** The duplicate check makes the unique indexes redundant: on a well-formed
      collection with an unused id, a registration fails with a 500 only when
      the new document does not validate. */
  lemma RegisterIndexNeverFires(users: seq<User>, body: RegisterBody, freshId: UserId, now: nat, sign: UserId -> string)
    requires WellFormed(users) && forall i :: 0 <= i < |users| ==> users[i].id != freshId
    requires RegisterComplete(body)
    requires FindEither(users, body.email.value, body.username.value).None?
    ensures Register(users, body, freshId, now, sign).response.Ok?
      <==> Create(freshId, body.username.value, body.email.value, body.password.value, now).Some?
  {
    var username, email, password := body.username.value, body.email.value, body.password.value;
    var c := Create(freshId, username, email, password, now);
    if c.Some? {
      CommitCreated(users, freshId, username, email, password, now);
      assert Register(users, body, freshId, now, sign).response == Ok(201, Session(Public(c.value), None, Some(sign(c.value.id))));
    } else {
      assert Register(users, body, freshId, now, sign).response == Fail(500, "Server error during registration");
    }
  }

  /** A created document whose id, username and email nobody holds passes
      the unique indexes and saves as created. */
  lemma CommitCreated(users: seq<User>, freshId: UserId, username: string, email: string, password: string, now: nat)
    requires forall i :: 0 <= i < |users| ==> users[i].id != freshId
    requires FindEither(users, email, username).None?
    requires Create(freshId, username, email, password, now).Some?
    ensures Commit(users, None, Create(freshId, username, email, password, now).value)
      == Create(freshId, username, email, password, now)
  {
    var c := Create(freshId, username, email, password, now);
    var u := c.value;
    SaveIdempotent(NewUser(freshId, username, email, password, now));
    assert Save(u) == c;
    assert IndexAllows(users, None, u);
  }

  /** Registration keeps ids, usernames and emails unique and every stored document valid. */
  lemma RegisterKeepsWellFormed(users: seq<User>, body: RegisterBody, freshId: UserId, now: nat, sign: UserId -> string)
    requires WellFormed(users)
    ensures WellFormed(Register(users, body, freshId, now, sign).users)
  {
    var r := Register(users, body, freshId, now, sign);
    if r.response.Ok? {
      var username, email, password := body.username.value, body.email.value, body.password.value;
      var u := Create(freshId, username, email, password, now).value;
      CreatedUserNormalized(freshId, username, email, password, now);
      CommitKeepsWellFormed(users, None, u);
    }
  }

  // ---------------------------------------------------------------------------
  // POST /api/auth/login

  datatype LoginBody = LoginBody(email: Field<string>, password: Field<string>)

  const InvalidCredentials := Fail(401, "Invalid credentials")

  function Login(users: seq<User>, body: LoginBody, now: nat, sign: UserId -> string): (r: AccountResult)
    ensures !(TruthyStr(body.email) && TruthyStr(body.password)) ==>
      r == AccountResult(Fail(400, "Please provide email and password"), users)
    ensures r.response.Fail? ==> r.users == users
    ensures r.response.Ok? ==>
      && var i := FindByEmail(users, body.email.value);
        && i.Some? && ComparePassword(users[i.value], body.password.value)
        && r.users == users[i.value := UpdateLastSeen(users[i.value], now)]
        && r.response == Ok(200, Session(Public(users[i.value]), Some(users[i.value].stats), Some(sign(users[i.value].id))))
  {
    if !(TruthyStr(body.email) && TruthyStr(body.password)) then
      AccountResult(Fail(400, "Please provide email and password"), users)
    else
      match FindByEmail(users, body.email.value)
      case None => AccountResult(InvalidCredentials, users)
      case Some(i) =>
        if !ComparePassword(users[i], body.password.value) then AccountResult(InvalidCredentials, users)
        else
          match Commit(users, Some(i), UpdateLastSeen(users[i], now))
          case None => AccountResult(Fail(500, "Server error during login"), users)
          case Some(s) => AccountResult(Ok(200, Session(Public(s), Some(s.stats), Some(sign(s.id)))), users[i := s])
  }

  /** An unknown email and a wrong password get the very same reply, so a
      client cannot tell which accounts exist. */
  lemma LoginFailuresIndistinguishable(users: seq<User>, e1: string, p1: string, e2: string, p2: string, now: nat, sign: UserId -> string)
    requires e1 != "" && p1 != "" && e2 != "" && p2 != ""
    requires FindByEmail(users, e1).None?
    requires FindByEmail(users, e2).Some? && !ComparePassword(users[FindByEmail(users, e2).value], p2)
    ensures Login(users, LoginBody(Val(e1), Val(p1)), now, sign) == AccountResult(InvalidCredentials, users)
    ensures Login(users, LoginBody(Val(e2), Val(p2)), now, sign) == AccountResult(InvalidCredentials, users)
  {
  }

  /** Logging in on a well-formed collection only marks the user online. */
  lemma LoginKeepsWellFormed(users: seq<User>, body: LoginBody, now: nat, sign: UserId -> string)
    requires WellFormed(users)
    ensures WellFormed(Login(users, body, now, sign).users)
  {
    var r := Login(users, body, now, sign);
    if r.response.Ok? {
      var i := FindByEmail(users, body.email.value).value;
      PresenceKeepsValid(users[i], now);
      CommitKeepsWellFormed(users, Some(i), UpdateLastSeen(users[i], now));
    }
  }

  /** In a well-formed collection the email lookup finds the one document
      holding the normalized email. */
  lemma FindByEmailUnique(users: seq<User>, e: string, k: nat)
    requires WellFormed(users) && k < |users| && users[k].email == NormalizeEmail(e)
    ensures FindByEmail(users, e) == Some(k)
  {
    var i := FindByEmail(users, e).value;
    WellFormedLookupsUnique(users, i, k);
  }

  /** A login whose email finds a document with that password succeeds on a
      well-formed collection, for that document. */
  lemma LoginFinds(users: seq<User>, e: string, pw: string, k: nat, now: nat, sign: UserId -> string)
    requires WellFormed(users) && e != "" && pw != ""
    requires FindByEmail(users, e) == Some(k) && ComparePassword(users[k], pw)
    ensures var l := Login(users, LoginBody(Val(e), Val(pw)), now, sign);
      l.response.Ok? && l.response.body.user.id == users[k].id && l.response.body.token == Some(sign(users[k].id))
  {
    CommitLastSeen(users, k, now);
  }

  /** Marking a stored user online saves without touching an index. */
  lemma CommitLastSeen(users: seq<User>, k: nat, now: nat)
    requires WellFormed(users) && k < |users|
    ensures Commit(users, Some(k), UpdateLastSeen(users[k], now)) == Some(UpdateLastSeen(users[k], now))
  {
    PresenceKeepsValid(users[k], now);
    var seen := UpdateLastSeen(users[k], now);
    assert Save(seen) == Some(seen);
    forall j | 0 <= j < |users| && j != k
      ensures users[j].id != seen.id && users[j].username != seen.username && users[j].email != seen.email
    {
      WellFormedLookupsUnique(users, j, k);
    }
    assert IndexAllows(users, Some(k), seen);
  }

  /** Register, then log in with the same email and password: the login
      succeeds, for the account just created. */
  lemma RegisterThenLogin(users: seq<User>, body: RegisterBody, freshId: UserId, t1: nat, t2: nat, sign: UserId -> string)
    requires WellFormed(users)
    requires Register(users, body, freshId, t1, sign).response.Ok?
    ensures var after := Register(users, body, freshId, t1, sign).users;
      var l := Login(after, LoginBody(body.email, body.password), t2, sign);
      && l.response.Ok?
      && l.response.body.user.id == freshId
      && l.response.body.token == Some(sign(freshId))
  {
    var after := Register(users, body, freshId, t1, sign).users;
    RegisterKeepsWellFormed(users, body, freshId, t1, sign);
    var u := Create(freshId, body.username.value, body.email.value, body.password.value, t1).value;
    var k := |users|;
    assert after[k] == u;
    FindByEmailUnique(after, body.email.value, k);
    LoginFinds(after, body.email.value, body.password.value, k, t2, sign);
  }

  // ---------------------------------------------------------------------------
  // PUT /api/auth/profile and PUT /api/users/profile

  /** The keys of a `preferences` object in a request body. */
  datatype PreferencesPatch = PreferencesPatch(theme: Option<string>, language: Option<string>, notifications: Option<bool>)

  /** `{ ...current, ...patch }`: supplied keys win, the others are kept. */
  function MergePreferences(current: Preferences, patch: PreferencesPatch): (r: Preferences)
    ensures r.theme == patch.theme.GetOr(current.theme)
    ensures r.language == patch.language.GetOr(current.language)
    ensures r.notifications == patch.notifications.GetOr(current.notifications)
  {
    Preferences(
      patch.theme.GetOr(current.theme),
      patch.language.GetOr(current.language),
      patch.notifications.GetOr(current.notifications))
  }

  /** Merging the same patch twice is merging it once; an empty patch changes nothing. */
  lemma MergePreferencesLaws(p: Preferences, patch: PreferencesPatch)
    ensures MergePreferences(MergePreferences(p, patch), patch) == MergePreferences(p, patch)
    ensures MergePreferences(p, PreferencesPatch(None, None, None)) == p
  {
  }

  datatype ProfileBody = ProfileBody(
    username: Field<string>, email: Field<string>, avatar: Field<string>, preferences: Field<PreferencesPatch>)

  /** The four assignments: username and email only when truthy (through
      their setters), avatar whenever the key is present (so `null` clears it),
      preferences shallow-merged when an object is sent. */
  function ApplyProfile(u: User, body: ProfileBody): (r: User)
    ensures r.username == (if TruthyStr(body.username) then NormalizeUsername(body.username.value) else u.username)
    ensures r.email == (if TruthyStr(body.email) then NormalizeEmail(body.email.value) else u.email)
    ensures r.avatar == match body.avatar { case Undefined => u.avatar case Null => None case Val(a) => Some(a) }
    ensures r.preferences == (if body.preferences.Val? then MergePreferences(u.preferences, body.preferences.value) else u.preferences)
    ensures r.(username := u.username, email := u.email, avatar := u.avatar, preferences := u.preferences) == u
  {
    var u1 := if TruthyStr(body.username) then u.(username := NormalizeUsername(body.username.value)) else u;
    var u2 := if TruthyStr(body.email) then u1.(email := NormalizeEmail(body.email.value)) else u1;
    var u3 := match body.avatar
      case Undefined => u2
      case Null => u2.(avatar := None)
      case Val(a) => u2.(avatar := Some(a));
    if body.preferences.Val? then u3.(preferences := MergePreferences(u.preferences, body.preferences.value)) else u3
  }

  /** The username check: a truthy username that differs, as sent, from the
      stored one is looked up (through the setter) and refused if found. */
  predicate UsernameRefused(users: seq<User>, u: User, body: ProfileBody) {
    TruthyStr(body.username) && body.username.value != u.username && FindByUsername(users, body.username.value).Some?
  }

  predicate EmailRefused(users: seq<User>, u: User, body: ProfileBody) {
    TruthyStr(body.email) && body.email.value != u.email && FindByEmail(users, body.email.value).Some?
  }

  /** The profile update both routers implement; they differ only in the text of the 500 reply. */
  function UpdateProfileWith(users: seq<User>, requester: UserId, body: ProfileBody, serverError: string): (r: AccountResult)
    ensures FindById(users, requester).None? ==> r == AccountResult(Fail(404, "User not found"), users)
    ensures r.response.Fail? ==> r.users == users
    ensures r.response.Ok? ==>
      && var i := FindById(users, requester);
        && i.Some?
        && !UsernameRefused(users, users[i.value], body) && !EmailRefused(users, users[i.value], body)
        && var s := Save(ApplyProfile(users[i.value], body));
          && s.Some?
          && r.users == users[i.value := s.value]
          && r.response == Ok(200, Session(Public(s.value), Some(s.value.stats), None))
  {
    match FindById(users, requester)
    case None => AccountResult(Fail(404, "User not found"), users)
    case Some(i) =>
      var u := users[i];
      if UsernameRefused(users, u, body) then AccountResult(Fail(400, "Username already taken"), users)
      else if EmailRefused(users, u, body) then AccountResult(Fail(400, "Email already registered"), users)
      else
        match Commit(users, Some(i), ApplyProfile(u, body))
        case None => AccountResult(Fail(500, serverError), users)
        case Some(s) => AccountResult(Ok(200, Session(Public(s), Some(s.stats), None)), users[i := s])
  }

  /** PUT /api/auth/profile. */
  function AuthUpdateProfile(users: seq<User>, requester: UserId, body: ProfileBody): (r: AccountResult)
    ensures r.response.IsFail(500) ==> r.response.error == "Server error while updating profile"
  {
    UpdateProfileWith(users, requester, body, "Server error while updating profile")
  }

  /** PUT /api/users/profile. */
  function UsersUpdateProfile(users: seq<User>, requester: UserId, body: ProfileBody): (r: AccountResult)
    ensures r.response.IsFail(500) ==> r.response.error == "Server error"
  {
    UpdateProfileWith(users, requester, body, "Server error")
  }

  /** The two profile routes agree on every outcome but the wording of a server error. */
  lemma ProfileRoutesAgree(users: seq<User>, requester: UserId, body: ProfileBody)
    ensures AuthUpdateProfile(users, requester, body).users == UsersUpdateProfile(users, requester, body).users
    ensures !AuthUpdateProfile(users, requester, body).response.IsFail(500) ==>
      AuthUpdateProfile(users, requester, body) == UsersUpdateProfile(users, requester, body)
  {
  }

  /** Asking for a username another user holds is refused with nothing saved. */
  lemma TakenUsernameRefused(users: seq<User>, requester: UserId, body: ProfileBody, j: nat)
    requires FindById(users, requester).Some? && TruthyStr(body.username)
    requires j < |users| && users[j].username == NormalizeUsername(body.username.value)
    requires body.username.value != users[FindById(users, requester).value].username
    ensures UsersUpdateProfile(users, requester, body) == AccountResult(Fail(400, "Username already taken"), users)
  {
    assert FindByUsername(users, body.username.value).Some?;
  }

  /** Asking for an email another user holds is refused with nothing saved,
      unless the username check has refused the request already. */
  lemma TakenEmailRefused(users: seq<User>, requester: UserId, body: ProfileBody, j: nat)
    requires FindById(users, requester).Some? && TruthyStr(body.email)
    requires j < |users| && users[j].email == NormalizeEmail(body.email.value)
    requires body.email.value != users[FindById(users, requester).value].email
    requires !UsernameRefused(users, users[FindById(users, requester).value], body)
    ensures UsersUpdateProfile(users, requester, body) == AccountResult(Fail(400, "Email already registered"), users)
  {
    assert FindByEmail(users, body.email.value).Some?;
  }

  /** On a well-formed collection the username and email checks leave the
      unique indexes nothing to catch: past the checks, a 500 means a
      validation error. */
  lemma UpdateProfileIndexNeverFires(users: seq<User>, requester: UserId, body: ProfileBody, serverError: string)
    requires WellFormed(users) && FindById(users, requester).Some?
    requires !UsernameRefused(users, users[FindById(users, requester).value], body)
    requires !EmailRefused(users, users[FindById(users, requester).value], body)
    ensures UpdateProfileWith(users, requester, body, serverError).response.Ok?
      <==> Save(ApplyProfile(users[FindById(users, requester).value], body)).Some?
  {
    var i := FindById(users, requester).value;
    var u := users[i];
    var d := ApplyProfile(u, body);
    if Save(d).Some? {
      var s := Save(d).value;
      forall j | 0 <= j < |users| && j != i
        ensures users[j].id != s.id && users[j].username != s.username && users[j].email != s.email
      {
        WellFormedLookupsUnique(users, i, j);
        if TruthyStr(body.username) && body.username.value == u.username {
          NormalizeUsernameSpec(u.username);
        }
        if TruthyStr(body.email) && body.email.value == u.email {
          NormalizeEmailSpec(u.email);
        }
      }
      assert IndexAllows(users, Some(i), s);
    }
  }

  /** A profile update keeps the collection well formed. */
  lemma UpdateProfileKeepsWellFormed(users: seq<User>, requester: UserId, body: ProfileBody, serverError: string)
    requires WellFormed(users)
    ensures WellFormed(UpdateProfileWith(users, requester, body, serverError).users)
  {
    var r := UpdateProfileWith(users, requester, body, serverError);
    if r.response.Ok? {
      var i := FindById(users, requester).value;
      var u := users[i];
      var d := ApplyProfile(u, body);
      if TruthyStr(body.username) {
        NormalizeUsernameSpec(body.username.value);
      }
      if TruthyStr(body.email) {
        NormalizeEmailSpec(body.email.value);
      }
      assert Normalized(d);
      CommitKeepsWellFormed(users, Some(i), d);
    }
  }

  /** The stored document after a successful update follows the field rules,
      and the reply carries it without its password. */
  lemma UpdateProfileFieldRules(users: seq<User>, requester: UserId, body: ProfileBody, serverError: string)
    requires UpdateProfileWith(users, requester, body, serverError).response.Ok?
    ensures var i := FindById(users, requester).value;
      var after := UpdateProfileWith(users, requester, body, serverError).users[i];
      && after.username == (if TruthyStr(body.username) then Trim(body.username.value) else users[i].username)
      && after.avatar == (if body.avatar.Undefined? then users[i].avatar else if body.avatar.Null? then None else Some(body.avatar.value))
      && after.password == users[i].password.(secret := after.password.secret)
      && after.stats == users[i].stats && after.id == users[i].id
      && DisplayName(after) == after.username
  {
  }

  // ---------------------------------------------------------------------------
  // A profile update that only re-sends the caller's own email

  /** The body of a profile update that only re-sends `email`. */
  function EmailOnly(email: string): ProfileBody {
    ProfileBody(Undefined, Val(email), Undefined, Undefined)
  }

  /** The written check refuses a body whose only change is an email that
      differs, as sent, from the caller's own but normalizes to it. */
  lemma OwnEmailRefused(users: seq<User>, requester: UserId, body: ProfileBody)
    requires FindById(users, requester).Some? && !TruthyStr(body.username) && TruthyStr(body.email)
    requires var u := users[FindById(users, requester).value];
      body.email.value != u.email && NormalizeEmail(body.email.value) == u.email
    ensures UsersUpdateProfile(users, requester, body).response == Fail(400, "Email already registered")
  {
    var i := FindById(users, requester).value;
    assert FindByEmail(users, body.email.value).Some?;
    assert EmailRefused(users, users[i], body);
  }

  /** A stored email that starts with a letter, re-sent with that letter
      capitalized (`bob@mail.io` as `Bob@mail.io`), differs as sent from the
      stored one; the lookup lower-cases it and finds the caller, so the
      request is refused although no other user holds that email. */
  lemma OwnEmailRefusedAsWritten(users: seq<User>, requester: UserId, i: nat, sent: string)
    requires FindById(users, requester) == Some(i)
    requires var e := users[i].email;
      Trimmed(e) && LowerCased(e) && Capitalized(sent, e) && 'a' <= e[0] <= 'z'
    ensures UsersUpdateProfile(users, requester, EmailOnly(sent)).response == Fail(400, "Email already registered")
  {
    CapitalizedNormalizes(sent, users[i].email);
    OwnEmailRefused(users, requester, EmailOnly(sent));
  }

  /** The capitalized email normalizes back to the stored one. */
  lemma CapitalizedNormalizes(sent: string, e: string)
    requires Capitalized(sent, e) && Trimmed(e) && LowerCased(e) && 'a' <= e[0] <= 'z'
    ensures sent != e && NormalizeEmail(sent) == e
  {
    CapitalizedLowers(sent, e);
    TrimmedIff(e);
  }

  /** The check as evidently intended: refuse only when a user other than
      the caller holds the normalized value. */
  predicate UsernameHeldByOther(users: seq<User>, i: nat, username: string) {
    exists j :: 0 <= j < |users| && j != i && users[j].username == username
  }

  predicate EmailHeldByOther(users: seq<User>, i: nat, email: string) {
    exists j :: 0 <= j < |users| && j != i && users[j].email == email
  }

  function UpdateProfileIntended(users: seq<User>, requester: UserId, body: ProfileBody, serverError: string): (r: AccountResult)
    ensures r.response.Fail? ==> r.users == users
    ensures r.response.Ok? ==>
      && var i := FindById(users, requester);
        && i.Some?
        && var s := Save(ApplyProfile(users[i.value], body));
          && s.Some?
          && r.users == users[i.value := s.value]
          && r.response == Ok(200, Session(Public(s.value), Some(s.value.stats), None))
  {
    match FindById(users, requester)
    case None => AccountResult(Fail(404, "User not found"), users)
    case Some(i) =>
      var u := users[i];
      if TruthyStr(body.username) && UsernameHeldByOther(users, i, NormalizeUsername(body.username.value)) then
        AccountResult(Fail(400, "Username already taken"), users)
      else if TruthyStr(body.email) && EmailHeldByOther(users, i, NormalizeEmail(body.email.value)) then
        AccountResult(Fail(400, "Email already registered"), users)
      else
        match Commit(users, Some(i), ApplyProfile(u, body))
        case None => AccountResult(Fail(500, serverError), users)
        case Some(s) => AccountResult(Ok(200, Session(Public(s), Some(s.stats), None)), users[i := s])
  }

  /** The intended update refuses an email exactly when another user holds
      it, and on a well-formed collection its only 500 is a validation error. */
  lemma UpdateProfileIntendedRefusesOnlyOthers(users: seq<User>, requester: UserId, body: ProfileBody, serverError: string)
    requires WellFormed(users) && FindById(users, requester).Some?
    requires !(TruthyStr(body.username) && UsernameHeldByOther(users, FindById(users, requester).value, NormalizeUsername(body.username.value)))
    ensures UpdateProfileIntended(users, requester, body, serverError).response == Fail(400, "Email already registered")
      <==> TruthyStr(body.email) && EmailHeldByOther(users, FindById(users, requester).value, NormalizeEmail(body.email.value))
    ensures !(TruthyStr(body.email) && EmailHeldByOther(users, FindById(users, requester).value, NormalizeEmail(body.email.value))) ==>
      (UpdateProfileIntended(users, requester, body, serverError).response.Ok? <==>
        Save(ApplyProfile(users[FindById(users, requester).value], body)).Some?)
  {
    var i := FindById(users, requester).value;
    var d := ApplyProfile(users[i], body);
    if Save(d).Some? && !(TruthyStr(body.email) && EmailHeldByOther(users, i, NormalizeEmail(body.email.value))) {
      var s := Save(d).value;
      forall j | 0 <= j < |users| && j != i
        ensures users[j].id != s.id && users[j].username != s.username && users[j].email != s.email
      {
        WellFormedLookupsUnique(users, i, j);
        if !TruthyStr(body.username) {
          assert s.username == users[i].username;
        } else {
          assert !(users[j].username == NormalizeUsername(body.username.value));
        }
        if !TruthyStr(body.email) {
          assert s.email == users[i].email;
        } else {
          assert !(users[j].email == NormalizeEmail(body.email.value));
        }
      }
      assert IndexAllows(users, Some(i), s);
    }
  }

  /** A body that only re-sends what the email setters turn into the stored
      email changes nothing. */
  lemma ResendingOwnEmailChangesNothing(u: User, body: ProfileBody)
    requires body.username.Undefined? && body.avatar.Undefined? && body.preferences.Undefined?
    requires TruthyStr(body.email) && NormalizeEmail(body.email.value) == u.email
    ensures ApplyProfile(u, body) == u
  {
  }

  /** The intended check accepts the request the written one refuses: a
      body that only re-sends the caller's own email, in whatever case and
      with whatever surrounding spaces, succeeds and leaves the collection as
      it was. */
  lemma OwnEmailAcceptedAsIntended(users: seq<User>, requester: UserId, i: nat, sent: string, serverError: string)
    requires WellFormed(users) && FindById(users, requester) == Some(i)
    requires sent != "" && NormalizeEmail(sent) == users[i].email
    ensures UpdateProfileIntended(users, requester, EmailOnly(sent), serverError)
      == AccountResult(Ok(200, Session(Public(users[i]), Some(users[i].stats), None)), users)
  {
    ResendingOwnEmailChangesNothing(users[i], EmailOnly(sent));
    IntendedAcceptsNoChange(users, requester, i, EmailOnly(sent), serverError);
  }

  /** An update that leaves the caller's document as it was, and names no
      username, is accepted by the intended check and changes nothing. */
  lemma IntendedAcceptsNoChange(users: seq<User>, requester: UserId, i: nat, body: ProfileBody, serverError: string)
    requires WellFormed(users) && FindById(users, requester) == Some(i)
    requires !TruthyStr(body.username) && ApplyProfile(users[i], body) == users[i]
    requires TruthyStr(body.email) ==> NormalizeEmail(body.email.value) == users[i].email
    ensures UpdateProfileIntended(users, requester, body, serverError)
      == AccountResult(Ok(200, Session(Public(users[i]), Some(users[i].stats), None)), users)
  {
    OwnEmailHeldByNoOther(users, i);
    RecommitUnchanged(users, i);
  }

  /** In a well-formed collection a stored document saves again, in its own
      place, as it is, and leaves the collection as it was. */
  lemma RecommitUnchanged(users: seq<User>, i: nat)
    requires WellFormed(users) && i < |users|
    ensures Commit(users, Some(i), users[i]) == Some(users[i])
    ensures users[i := users[i]] == users
  {
    assert Stored(users[i]);
    forall j | 0 <= j < |users| && Some(j) != Some(i)
      ensures users[j].id != users[i].id && users[j].username != users[i].username && users[j].email != users[i].email
    {
      assert Apart(users[j], users[i]);
    }
  }

  /** In a well-formed collection nobody else holds a user's email. */
  lemma OwnEmailHeldByNoOther(users: seq<User>, i: nat)
    requires WellFormed(users) && i < |users|
    ensures !EmailHeldByOther(users, i, users[i].email)
  {
    forall j | 0 <= j < |users| && j != i
      ensures users[j].email != users[i].email
    {
      WellFormedLookupsUnique(users, i, j);
    }
  }

  // ---------------------------------------------------------------------------
  // PUT /api/auth/password

  datatype PasswordBody = PasswordBody(currentPassword: Field<string>, newPassword: Field<string>)

  function ChangePassword(users: seq<User>, requester: UserId, body: PasswordBody): (r: AccountResult)
    ensures !(TruthyStr(body.currentPassword) && TruthyStr(body.newPassword)) ==>
      r == AccountResult(Fail(400, "Please provide current and new password"), users)
    ensures r.response.Fail? ==> r.users == users
    ensures r.response.Ok? ==>
      && var i := FindById(users, requester);
        && i.Some? && ComparePassword(users[i.value], body.currentPassword.value)
        && Length(body.newPassword.value) >= 6
        && r.users == users[i.value := users[i.value].(password := Hashed(body.newPassword.value))]
        && r.response == Ok(200, Notice("Password updated successfully"))
  {
    if !(TruthyStr(body.currentPassword) && TruthyStr(body.newPassword)) then
      AccountResult(Fail(400, "Please provide current and new password"), users)
    else
      match FindById(users, requester)
      case None => AccountResult(Fail(404, "User not found"), users)
      case Some(i) =>
        if !ComparePassword(users[i], body.currentPassword.value) then
          AccountResult(Fail(401, "Current password is incorrect"), users)
        else
          match Commit(users, Some(i), users[i].(password := Plain(body.newPassword.value)))
          case None => AccountResult(Fail(500, "Server error while changing password"), users)
          case Some(s) => AccountResult(Ok(200, Notice("Password updated successfully")), users[i := s])
  }

  /** After a password change the new password opens the account and the old
      one no longer does (when they differ); a wrong current password changes nothing. */
  lemma ChangePasswordThenCompare(users: seq<User>, requester: UserId, body: PasswordBody, other: string)
    requires ChangePassword(users, requester, body).response.Ok?
    ensures var i := FindById(users, requester).value;
      var after := ChangePassword(users, requester, body).users[i];
      ComparePassword(after, other) <==> other == body.newPassword.value
  {
  }

  lemma WrongCurrentPasswordRefused(users: seq<User>, requester: UserId, current: string, next: string)
    requires current != "" && next != ""
    requires FindById(users, requester).Some? && !ComparePassword(users[FindById(users, requester).value], current)
    ensures ChangePassword(users, requester, PasswordBody(Val(current), Val(next)))
      == AccountResult(Fail(401, "Current password is incorrect"), users)
  {
  }

  lemma ChangePasswordKeepsWellFormed(users: seq<User>, requester: UserId, body: PasswordBody)
    requires WellFormed(users)
    ensures WellFormed(ChangePassword(users, requester, body).users)
  {
    var r := ChangePassword(users, requester, body);
    if r.response.Ok? {
      var i := FindById(users, requester).value;
      CommitKeepsWellFormed(users, Some(i), users[i].(password := Plain(body.newPassword.value)));
    }
  }

  // ---------------------------------------------------------------------------
  // The remaining account routes

  /** GET /api/auth/me and GET /api/users/profile: the document without its
      password, or `null` when the id is no longer stored. */
  function GetProfile(users: seq<User>, requester: UserId): (r: Response<AccountReply>)
    ensures r.Ok? && r.status == 200 && r.body.Document?
    ensures r.body.profile.Some? <==> exists i :: 0 <= i < |users| && users[i].id == requester
    ensures r.body.profile.Some? ==> r.body.profile.value.id == requester
  {
    match FindById(users, requester)
    case None => Ok(200, Document(None))
    case Some(i) => Ok(200, Document(Some(ProfileOf(users[i]))))
  }

  /** GET /api/users/stats: reading `stats` of a missing document throws, which becomes a 500. */
  function GetStats(users: seq<User>, requester: UserId): (r: Response<AccountReply>)
    ensures r.Fail? <==> forall i :: 0 <= i < |users| ==> users[i].id != requester
    ensures r.Fail? ==> r == Fail(500, "Server error")
    ensures r.Ok? ==> exists i :: 0 <= i < |users| && users[i].id == requester && r.body == StatsOf(users[i].stats)
  {
    match FindById(users, requester)
    case None => Fail(500, "Server error")
    case Some(i) => Ok(200, StatsOf(users[i].stats))
  }

  /** POST /api/auth/logout: the authenticated document goes offline. */
  function Logout(users: seq<User>, requester: UserId, now: nat): (r: AccountResult)
    ensures r.response.Fail? ==> r.users == users
    ensures r.response.Ok? ==> r.response.body == Notice("Logged out successfully")
    ensures r.response.Ok? ==> var i := FindById(users, requester);
      && i.Some? && |r.users| == |users|
      && !r.users[i.value].isOnline && r.users[i.value].lastSeen == now
      && forall j :: 0 <= j < |users| && j != i.value ==> r.users[j] == users[j]
  {
    match FindById(users, requester)
    case None => AccountResult(Fail(500, "Server error during logout"), users)
    case Some(i) =>
      match Commit(users, Some(i), SetOffline(users[i], now))
      case None => AccountResult(Fail(500, "Server error during logout"), users)
      case Some(s) => AccountResult(Ok(200, Notice("Logged out successfully")), users[i := s])
  }

  /** On a well-formed collection a stored user can always log out, and is offline afterwards. */
  lemma LogoutSucceeds(users: seq<User>, requester: UserId, now: nat)
    requires WellFormed(users) && FindById(users, requester).Some?
    ensures Logout(users, requester, now).response.Ok?
    ensures !Logout(users, requester, now).users[FindById(users, requester).value].isOnline
    ensures WellFormed(Logout(users, requester, now).users)
  {
    var i := FindById(users, requester).value;
    PresenceKeepsValid(users[i], now);
    var d := SetOffline(users[i], now);
    assert Save(d) == Some(d);
    forall j | 0 <= j < |users| && j != i
      ensures users[j].id != d.id && users[j].username != d.username && users[j].email != d.email
    {
      WellFormedLookupsUnique(users, i, j);
    }
    assert IndexAllows(users, Some(i), d);
    CommitKeepsWellFormed(users, Some(i), d);
  }

  /** POST /api/auth/refresh: a new token for a stored user. */
  function Refresh(users: seq<User>, requester: UserId, sign: UserId -> string): (r: Response<AccountReply>)
    ensures r.Fail? <==> forall i :: 0 <= i < |users| ==> users[i].id != requester
    ensures r.Fail? ==> r == Fail(404, "User not found")
    ensures r.Ok? ==> r.body.Refreshed? && r.body.newToken == sign(requester) && r.body.account.id == requester
  {
    match FindById(users, requester)
    case None => Fail(404, "User not found")
    case Some(i) => Ok(200, Refreshed(sign(users[i].id), Public(users[i])))
  }

  /** GET /api/users/search: the guard on `q`. The search itself is a
      regular-expression query and is not modelled; the reply is the term used. */
  function SearchTerm(q: Option<string>): (r: Response<string>)
    ensures r.Fail? <==> !TruthyOpt(q) || Length(Trim(q.value)) < 2
    ensures r.Fail? ==> r == Fail(400, "Search query must be at least 2 characters")
    ensures r.Ok? ==> r.body == Trim(q.value) && Length(r.body) >= 2 && Trimmed(r.body)
  {
    if !TruthyOpt(q) || Length(Trim(q.value)) < 2 then Fail(400, "Search query must be at least 2 characters")
    else
      TrimmedIff(q.value);
      Ok(200, Trim(q.value))
  }
}
