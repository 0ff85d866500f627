/** The authentication middleware: `protect`, `optionalAuth` and `authorize`.

    JWT verification is the opaque `verify` parameter, which yields the `id`
    claim of a valid token and `None` for an invalid or expired one. The
    `Authorization` header is the optional string `header`. */
module AuthMiddleware {
  import opened Js
  import opened Http
  import opened UserModel
  import Accounts

  /** What a middleware does with a request: hand it on with `req.user` set
      to a document id, or answer it. */
  datatype Outcome = Pass(user: UserId) | Deny(reply: Response<()>)

  datatype Guarded = Guarded(outcome: Outcome, users: seq<User>)

  const NoToken: Response<()> := Fail(401, "Not authorized, no token")
  const TokenFailed: Response<()> := Fail(401, "Not authorized, token failed")
  const UnknownUser: Response<()> := Fail(401, "User not found")

  /** The header is present, non-empty and starts with `Bearer`. */
  predicate Bearer(header: Option<string>) {
    TruthyOpt(header) && StartsWith(header.value, "Bearer")
  }

  /** `authorization.split(' ')[1]`: `None` when there is no second piece. */
  function TokenOf(h: string): (r: Option<string>)
    ensures r.Some? <==> ' ' in h
  {
    var pieces := SplitSpace(h);
    if |pieces| >= 2 then Some(pieces[1])
    else
      SplitSpaceSingle(h);
      None
  }

  /** Splitting yields a single piece exactly when there is no space. */
  lemma SplitSpaceSingle(h: string)
    ensures |SplitSpace(h)| == 1 <==> ' ' !in h
  {
    if ' ' in h {
      var i := FirstIndex(h, ' ');
      assert |SplitSpace(h)| == 1 + |SplitSpace(h[i + 1..])|;
    }
  }

  /** The header the client sends, `Bearer ` followed by a token without
      spaces, gives back exactly that token. */
  lemma TokenOfBearer(t: string)
    requires ' ' !in t
    ensures TokenOf("Bearer " + t) == Some(t)
    ensures Bearer(Some("Bearer " + t))
  {
    var h := "Bearer " + t;
    assert h[6] == ' ';
    assert ' ' !in h[..6];
    assert FirstIndex(h, ' ') == 6;
    assert h[..6] == "Bearer";
    assert h[7..] == t;
    assert SplitSpace(h) == ["Bearer", t];
    assert h[..|"Bearer"|] == "Bearer";
  }

  /** `protect`. Without a Bearer header `token` stays unset and the request
      is refused for want of a token. Otherwise every failure inside the `try`
      — a missing or empty second piece, which `jwt.verify` rejects, a token
      that does not verify, or a failing save in `updateLastSeen` — becomes
      `token failed`, except an id with no document, which is answered first. */
  function Protect(users: seq<User>, header: Option<string>, verify: string -> Option<UserId>, now: nat): (r: Guarded)
    ensures !Bearer(header) ==> r == Guarded(Deny(NoToken), users)
    ensures r.outcome.Deny? ==> r.users == users
    ensures r.outcome.Pass? ==>
      && Bearer(header)
      && var t := TokenOf(header.value);
        && t.Some? && t.value != "" && verify(t.value) == Some(r.outcome.user)
        && var i := FindById(users, r.outcome.user);
          && i.Some?
          && var s := Accounts.Commit(users, i, UpdateLastSeen(users[i.value], now));
            && s.Some? && r.users == users[i.value := s.value]
  {
    if !Bearer(header) then Guarded(Deny(NoToken), users)
    else
      match TokenOf(header.value)
      case None => Guarded(Deny(TokenFailed), users)
      case Some(t) =>
        if t == "" then Guarded(Deny(TokenFailed), users)
        else
          match verify(t)
          case None => Guarded(Deny(TokenFailed), users)
          case Some(id) =>
            match FindById(users, id)
            case None => Guarded(Deny(UnknownUser), users)
            case Some(i) =>
              match Accounts.Commit(users, Some(i), UpdateLastSeen(users[i], now))
              case None => Guarded(Deny(TokenFailed), users)
              case Some(s) => Guarded(Pass(s.id), users[i := s])
  }

  /** The four outcomes of `protect` on a well-formed collection, each with
      exactly the condition that produces it. */
  lemma ProtectOutcomes(users: seq<User>, header: Option<string>, verify: string -> Option<UserId>, now: nat)
    requires WellFormed(users)
    ensures var r := Protect(users, header, verify, now);
      var t := if Bearer(header) then TokenOf(header.value) else None;
      var id := if t.Some? && t.value != "" then verify(t.value) else None;
      && (r.outcome == Deny(NoToken) <==> !Bearer(header))
      && (r.outcome == Deny(TokenFailed) <==> Bearer(header) && id.None?)
      && (r.outcome == Deny(UnknownUser) <==> id.Some? && FindById(users, id.value).None?)
      && (r.outcome.Pass? <==> id.Some? && FindById(users, id.value).Some?)
      && (r.outcome.Pass? ==> r.outcome.user == id.value && users[FindById(users, id.value).value].id == id.value)
      && WellFormed(r.users)
  {
    var r := Protect(users, header, verify, now);
    if Bearer(header) {
      var t := TokenOf(header.value);
      if t.Some? && t.value != "" && verify(t.value).Some? {
        var id := verify(t.value).value;
        if FindById(users, id).Some? {
          var i := FindById(users, id).value;
          var d := UpdateLastSeen(users[i], now);
          PresenceKeepsValid(users[i], now);
          assert Save(d) == Some(d);
          forall j | 0 <= j < |users| && j != i
            ensures users[j].id != d.id && users[j].username != d.username && users[j].email != d.email
          {
            WellFormedLookupsUnique(users, i, j);
          }
          assert Accounts.IndexAllows(users, Some(i), d);
          Accounts.CommitKeepsWellFormed(users, Some(i), d);
        }
      }
    }
  }

  /** A request carrying the header the client builds from a token that
      verifies for a stored user is let through as that user. */
  lemma ProtectAcceptsIssuedToken(users: seq<User>, t: string, id: UserId, verify: string -> Option<UserId>, now: nat)
    requires WellFormed(users) && ' ' !in t && t != ""
    requires verify(t) == Some(id) && FindById(users, id).Some?
    ensures Protect(users, Some("Bearer " + t), verify, now).outcome == Pass(id)
    ensures Protect(users, Some("Bearer " + t), verify, now).users[FindById(users, id).value].isOnline
  {
    TokenOfBearer(t);
    ProtectOutcomes(users, Some("Bearer " + t), verify, now);
  }

  /** `optionalAuth`: the request always goes on. `req.user` is set when the
      token verifies and names a stored document; it stays set even when the
      following `updateLastSeen` fails, as the assignment came first. */
  function OptionalAuth(users: seq<User>, header: Option<string>, verify: string -> Option<UserId>, now: nat): (r: (Option<UserId>, seq<User>))
    ensures r.0.Some? ==> Bearer(header) && FindById(users, r.0.value).Some?
    ensures !Bearer(header) ==> r == (None, users)
  {
    if !Bearer(header) then (None, users)
    else
      match TokenOf(header.value)
      case None => (None, users)
      case Some(t) =>
        if t == "" then (None, users)
        else
          match verify(t)
          case None => (None, users)
          case Some(id) =>
            match FindById(users, id)
            case None => (None, users)
            case Some(i) =>
              match Accounts.Commit(users, Some(i), UpdateLastSeen(users[i], now))
              case None => (Some(id), users)
              case Some(s) => (Some(id), users[i := s])
  }

  /** Where `protect` lets a request through, `optionalAuth` identifies the same user. */
  lemma OptionalAuthAgreesWithProtect(users: seq<User>, header: Option<string>, verify: string -> Option<UserId>, now: nat)
    requires Protect(users, header, verify, now).outcome.Pass?
    ensures OptionalAuth(users, header, verify, now) ==
      (Some(Protect(users, header, verify, now).outcome.user), Protect(users, header, verify, now).users)
  {
  }

  datatype Verdict = Allow | Refuse(reply: Response<()>)

  /** `authorize(...roles)`: `user` is the authenticated document's `role`,
      if there is an authenticated document at all. */
  function Authorize(user: Option<Option<string>>, roles: seq<string>): (r: Verdict)
    ensures user.None? ==> r == Refuse(Fail(401, "Not authorized"))
    ensures user.Some? ==> (r.Allow? <==> user.value.Some? && user.value.value in roles)
    ensures user.Some? && r.Refuse? ==> r.reply == Fail(403, "Access denied")
  {
    match user
    case None => Refuse(Fail(401, "Not authorized"))
    case Some(role) =>
      if role.Some? && role.value in roles then Allow else Refuse(Fail(403, "Access denied"))
  }

  /** The User schema has no `role` path, so `req.user.role` is always
      undefined, which no list of role names includes: every authenticated
      request is refused by `authorize`, whatever roles it allows. */
  lemma AuthorizeRefusesEveryUser(roles: seq<string>)
    ensures Authorize(Some(None), roles) == Refuse(Fail(403, "Access denied"))
  {
  }
}
