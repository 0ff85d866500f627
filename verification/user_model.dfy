/** The User document: its fields and defaults, the `trim` and `lowercase`
    setters, the validators that run on save, the password pre-save hook and
    the instance methods.

    bcrypt is modelled as an ideal hash: a stored hash remembers the
    plaintext it was made from, and `comparePassword` succeeds exactly on that
    plaintext. The collection is a sequence in natural order, so `findOne`
    returns the first matching document. */
module UserModel {
  import opened Js
  import EmailPattern

  type UserId = string

  datatype Preferences = Preferences(theme: string, language: string, notifications: bool)

  /** The schema defaults of the `preferences` sub-object. */
  const DefaultPreferences := Preferences("auto", "en", true)

  /** The `enum` of `preferences.theme`. */
  const Themes: set<string> := {"light", "dark", "auto"}

  datatype Stats = Stats(totalMessages: nat, totalTokens: nat, lastActive: nat)

  /** The password path: a plaintext assigned since the last save (so that
      `isModified('password')` holds), or the bcrypt hash of a plaintext. */
  datatype Password = Plain(text: string) | Hashed(secret: string)

  datatype User = User(
    id: UserId,
    username: string,
    email: string,
    password: Password,
    avatar: Option<string>,
    isOnline: bool,
    lastSeen: nat,
    preferences: Preferences,
    stats: Stats)

  // ---------------------------------------------------------------------------
  // Setters

  /** The `trim` setter of `username`; it applies to assignments and to query values alike. */
  function NormalizeUsername(s: string): string {
    Trim(s)
  }

  /** The `lowercase` and `trim` setters of `email`. */
  function NormalizeEmail(s: string): string {
    Trim(Lower(s))
  }

  /** What the setters leave behind: no surrounding whitespace, and for the
      email no upper-case letter. */
  predicate Normalized(u: User) {
    Trimmed(u.username) && Trimmed(u.email) && LowerCased(u.email)
  }

  /** The username setter yields a trimmed string and leaves trimmed strings as they are. */
  lemma NormalizeUsernameSpec(s: string)
    ensures Trimmed(NormalizeUsername(s))
    ensures Trimmed(s) <==> NormalizeUsername(s) == s
  {
    TrimmedIff(s);
  }

  /** The email setters yield a trimmed lower-cased string and leave such strings as they are. */
  lemma NormalizeEmailSpec(s: string)
    ensures Trimmed(NormalizeEmail(s)) && LowerCased(NormalizeEmail(s))
    ensures Trimmed(s) && LowerCased(s) <==> NormalizeEmail(s) == s
  {
    var n := NormalizeEmail(s);
    assert Trimmed(n) && LowerCased(n) by {
      TrimmedIff(Lower(s));
      LowerCasedIff(s);
    }
    if Trimmed(s) && LowerCased(s) {
      assert Lower(s) == s by {
        LowerFixesLowerCased(s);
      }
      assert Trim(s) == s by {
        TrimmedIff(s);
      }
    }
  }

  /** Setting an already stored value again changes nothing. */
  lemma NormalizeIdempotent(s: string)
    ensures NormalizeUsername(NormalizeUsername(s)) == NormalizeUsername(s)
    ensures NormalizeEmail(NormalizeEmail(s)) == NormalizeEmail(s)
  {
    NormalizeUsernameSpec(s);
    NormalizeUsernameSpec(NormalizeUsername(s));
    NormalizeEmailSpec(s);
    NormalizeEmailSpec(NormalizeEmail(s));
  }

  // ---------------------------------------------------------------------------
  // Validation and save

  /** `required` and `minlength: 6` on the password. Mongoose validates before
      the user's pre-save hook, so the length applies to the plaintext; a hash
      that was not modified is always long enough. */
  predicate PasswordValid(p: Password) {
    match p
    case Plain(t) => Length(t) >= 6
    case Hashed(_) => true
  }

  /** Every validator of the schema: username required and 3 to 30 UTF-16 code units long,
      email required and matching the pattern, password valid, theme in the enum. */
  predicate Valid(u: User) {
    && 3 <= Length(u.username) <= 30
    && EmailPattern.Matches(u.email)
    && PasswordValid(u.password)
    && u.preferences.theme in Themes
  }

  /** `user.save()`: validation, then the pre-save hook, which hashes the
      password only when it was modified. `None` is a validation error. */
  function Save(u: User): (r: Option<User>)
    ensures r.Some? <==> Valid(u)
    ensures r.Some? ==> r.value.password.Hashed? && r.value.(password := u.password) == u
    ensures r.Some? && u.password.Hashed? ==> r.value == u
    ensures r.Some? && u.password.Plain? ==> r.value.password.secret == u.password.text
  {
    if !Valid(u) then None
    else
      match u.password
      case Hashed(_) => Some(u)
      case Plain(t) => Some(u.(password := Hashed(t)))
  }

  /** Saving a saved document again is a no-op: nothing is hashed twice. */
  lemma SaveIdempotent(u: User)
    requires Save(u).Some?
    ensures Save(Save(u).value) == Save(u)
  {
  }

  /** `comparePassword`: true exactly for the plaintext the stored hash was
      made from; a plaintext that was never saved is not a bcrypt hash. */
  function ComparePassword(u: User, candidate: string): bool {
    match u.password
    case Hashed(s) => candidate == s
    case Plain(_) => false
  }

  /** The document `User.create({ username, email, password })` builds before
      saving: setters applied, every other path at its default. */
  function NewUser(id: UserId, username: string, email: string, password: string, now: nat): User {
    User(id, NormalizeUsername(username), NormalizeEmail(email), Plain(password),
      None, false, now, DefaultPreferences, Stats(0, 0, now))
  }

  /** `User.create`: the new document, or `None` on a validation error. */
  function Create(id: UserId, username: string, email: string, password: string, now: nat): (r: Option<User>)
    ensures r.Some? <==>
      && 3 <= Length(Trim(username)) <= 30
      && EmailPattern.Matches(NormalizeEmail(email))
      && Length(password) >= 6
    ensures r.Some? ==>
      && r.value.id == id
      && r.value.username == Trim(username)
      && r.value.email == NormalizeEmail(email)
      && (forall c :: ComparePassword(r.value, c) <==> c == password)
      && r.value.avatar == None
      && !r.value.isOnline
      && r.value.preferences == Preferences("auto", "en", true)
      && r.value.stats == Stats(0, 0, now)
  {
    assert "auto" in Themes;
    Save(NewUser(id, username, email, password, now))
  }

  lemma NewUserNormalized(id: UserId, username: string, email: string, password: string, now: nat)
    ensures Normalized(NewUser(id, username, email, password, now))
  {
    NormalizeUsernameSpec(username);
    NormalizeEmailSpec(email);
  }

  /** A created user is stored with normalized username and email. */
  lemma CreatedUserNormalized(id: UserId, username: string, email: string, password: string, now: nat)
    requires Create(id, username, email, password, now).Some?
    ensures Normalized(Create(id, username, email, password, now).value)
  {
    NewUserNormalized(id, username, email, password, now);
  }

  // ---------------------------------------------------------------------------
  // Instance methods and virtuals

  /** `updateLastSeen`: online, seen now; nothing else changes. */
  function UpdateLastSeen(u: User, now: nat): (r: User)
    ensures r.isOnline && r.lastSeen == now
    ensures r.(isOnline := u.isOnline, lastSeen := u.lastSeen) == u
  {
    u.(lastSeen := now, isOnline := true)
  }

  /** `setOffline`: offline, seen now; nothing else changes. */
  function SetOffline(u: User, now: nat): (r: User)
    ensures !r.isOnline && r.lastSeen == now
    ensures r.(isOnline := u.isOnline, lastSeen := u.lastSeen) == u
  {
    u.(isOnline := false, lastSeen := now)
  }

  /** Going online and offline touches no validated path, so the save that
      follows either method succeeds whenever the document was valid. */
  lemma PresenceKeepsValid(u: User, now: nat)
    requires Valid(u)
    ensures Save(UpdateLastSeen(u, now)).Some? && Save(SetOffline(u, now)).Some?
    ensures Normalized(u) ==> Normalized(UpdateLastSeen(u, now)) && Normalized(SetOffline(u, now))
  {
  }

  /** Logging in and then out leaves the user offline and the rest of the document as it was. */
  lemma OnlineThenOffline(u: User, t1: nat, t2: nat)
    ensures SetOffline(UpdateLastSeen(u, t1), t2) == u.(isOnline := false, lastSeen := t2)
  {
  }

  /** The `displayName` virtual. */
  function DisplayName(u: User): string {
    u.username
  }

  // ---------------------------------------------------------------------------
  // Queries

  /** Index of the first document satisfying `p`: what `findOne` returns. */
  function FirstWhere(users: seq<User>, p: User -> bool): (r: Option<nat>)
    ensures r.None? <==> forall i :: 0 <= i < |users| ==> !p(users[i])
    ensures r.Some? ==> r.value < |users| && p(users[r.value])
    ensures r.Some? ==> forall i :: 0 <= i < r.value ==> !p(users[i])
    decreases |users|
  {
    if |users| == 0 then None
    else if p(users[0]) then Some(0)
    else
      match FirstWhere(users[1..], p)
      case None => None
      case Some(k) => Some(k + 1)
  }

  /** `findById`. */
  function FindById(users: seq<User>, id: UserId): (r: Option<nat>)
    ensures r.Some? ==> r.value < |users| && users[r.value].id == id
    ensures r.None? ==> forall i :: 0 <= i < |users| ==> users[i].id != id
  {
    FirstWhere(users, (u: User) => u.id == id)
  }

  /** `findOne({ username })`, the query value passing through the setter. */
  function FindByUsername(users: seq<User>, username: string): (r: Option<nat>)
    ensures r.Some? ==> r.value < |users| && users[r.value].username == NormalizeUsername(username)
    ensures r.None? ==> forall i :: 0 <= i < |users| ==> users[i].username != NormalizeUsername(username)
  {
    FirstWhere(users, (u: User) => u.username == NormalizeUsername(username))
  }

  /** `findOne({ email })`, the query value passing through the setters. */
  function FindByEmail(users: seq<User>, email: string): (r: Option<nat>)
    ensures r.Some? ==> r.value < |users| && users[r.value].email == NormalizeEmail(email)
    ensures r.None? ==> forall i :: 0 <= i < |users| ==> users[i].email != NormalizeEmail(email)
  {
    FirstWhere(users, (u: User) => u.email == NormalizeEmail(email))
  }

  // ---------------------------------------------------------------------------
  // The collection invariant

  /** Two documents the unique indexes let coexist. */
  predicate Apart(a: User, b: User) {
    a.id != b.id && a.username != b.username && a.email != b.email
  }

  /** A document as the collection holds it: valid, normalized, password hashed. */
  predicate Stored(u: User) {
    Valid(u) && Normalized(u) && u.password.Hashed?
  }

  /** What the unique indexes and the validators keep true of the collection:
      ids, usernames and emails are pairwise distinct and every document is stored. */
  ghost predicate WellFormed(users: seq<User>) {
    && (forall i :: 0 <= i < |users| ==> Stored(users[i]))
    && (forall i, j :: 0 <= i < |users| && 0 <= j < |users| && i != j ==> Apart(users[i], users[j]))
  }

  /** In a well-formed collection a username, an email or an id picks out at most one document. */
  lemma WellFormedLookupsUnique(users: seq<User>, i: nat, j: nat)
    requires WellFormed(users) && i < |users| && j < |users|
    ensures users[i].id == users[j].id ==> i == j
    ensures users[i].username == users[j].username ==> i == j
    ensures users[i].email == users[j].email ==> i == j
  {
    if i != j {
      assert Apart(users[i], users[j]);
    }
  }
}
