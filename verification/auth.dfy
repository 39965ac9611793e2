/** The authentication middleware: bearer-token extraction, the lookup of
    the token's user, the lazy demotion of an expired TEMP_ADMIN, and the
    role gate placed in front of admin-only routes. Signature checking is
    the opaque function `verify`. */
module Auth {
  import opened Common
  import opened Text
  import opened Models

  const BearerPrefix := "Bearer "

  const Unauthorized := Error(401, "Unauthorized")

  /** The token carried by an Authorization header: the text after a leading
      "Bearer ". An absent header, another scheme or an empty token is 401. */
  function ExtractToken(header: Option<string>): (r: Result<string>)
    ensures r.Ok? <==> header.Some? && |header.value| > |BearerPrefix| && StartsWith(header.value, BearerPrefix)
    ensures r.Ok? ==> header.value == BearerPrefix + r.value && r.value != ""
    ensures r.Err? ==> r.error == Unauthorized
  {
    if header.Some? && StartsWith(header.value, BearerPrefix) then
      var token := header.value[|BearerPrefix|..];
      if token == "" then Err(Unauthorized) else Ok(token)
    else Err(Unauthorized)
  }

  /** A header built from a non-empty token gives that token back. */
  lemma ExtractTokenRoundTrip(token: string)
    requires token != ""
    ensures ExtractToken(Some(BearerPrefix + token)) == Ok(token)
  {
    var h := BearerPrefix + token;
    assert h[..|BearerPrefix|] == BearerPrefix;
    assert h[|BearerPrefix|..] == token;
  }

  /** A TEMP_ADMIN whose promotion has a date at or before `now`. */
  predicate Expired(u: User, now: nat) {
    u.role == TempAdmin && u.promotedUntil.Some? && u.promotedUntil.value <= now
  }

  /** The lazy demotion rule: an expired TEMP_ADMIN becomes a USER with no
      promotion date; every other user is left as it is. */
  function Demote(u: User, now: nat): (r: User)
    ensures !Expired(r, now)
    ensures Expired(u, now) ==> r.role == UserRole && r.promotedUntil == None
    ensures !Expired(u, now) ==> r == u
    ensures r.(role := u.role, promotedUntil := u.promotedUntil) == u
  {
    if Expired(u, now) then u.(role := UserRole, promotedUntil := None) else u
  }

  lemma DemoteIdempotent(u: User, now: nat)
    ensures Demote(Demote(u, now), now) == Demote(u, now)
  {
  }

  /** Demoting at an earlier time and again later is the same as demoting
      once, later: a promotion that has lapsed stays lapsed. */
  lemma DemoteLater(u: User, earlier: nat, later: nat)
    requires earlier <= later
    ensures Demote(Demote(u, earlier), later) == Demote(u, later)
  {
  }

  /** `AuthMiddleware`: extract the token, resolve it to a stored user, demote
      that user if its promotion has lapsed and persist the demotion. The
      result is the updated users collection and the user the handler sees. */
  function Authenticate(users: map<Id, User>, header: Option<string>, verify: string -> Option<Id>, now: nat)
    : (r: Result<(map<Id, User>, User)>)
    ensures r.Err? ==> r.error == Unauthorized
    ensures r.Ok? <==>
      && ExtractToken(header).Ok?
      && verify(ExtractToken(header).value).Some?
      && verify(ExtractToken(header).value).value in users
    ensures r.Ok? ==>
      var id := verify(ExtractToken(header).value).value;
      && r.value.1 == Demote(users[id], now)
      && r.value.0 == users[id := r.value.1]
    ensures r.Ok? ==> !Expired(r.value.1, now)
  {
    match ExtractToken(header)
    case Err(e) => Err(e)
    case Ok(token) =>
      match verify(token)
      case None => Err(Unauthorized)
      case Some(id) =>
        if id !in users then Err(Unauthorized)
        else
          var user := Demote(users[id], now);
          Ok((users[id := user], user))
  }

  /** `authorizeRoles(...allowed)`: 401 without a user, 403 when the user's
      role is not listed, pass otherwise. */
  function AuthorizeRoles(user: Option<User>, allowed: seq<Role>): (r: Outcome)
    ensures user.None? ==> r == Fail(Error(401, "Unauthorized - User info ledu "))
    ensures r.Pass? <==> user.Some? && user.value.role in allowed
    ensures user.Some? && r.Fail? ==> r.error == Error(403, "Forbidden - Permission ledu ra mawa")
  {
    if user.None? then Fail(Error(401, "Unauthorized - User info ledu "))
    else if user.value.role !in allowed then Fail(Error(403, "Forbidden - Permission ledu ra mawa"))
    else Pass
  }

  /** Allowing more roles never refuses a user that fewer roles admitted. */
  lemma AuthorizeRolesMonotone(user: Option<User>, allowed: seq<Role>, more: seq<Role>)
    requires forall x :: x in allowed ==> x in more
    ensures AuthorizeRoles(user, allowed).Pass? ==> AuthorizeRoles(user, more).Pass?
  {
  }

  /** The roles that may change a registration's status. */
  const StatusUpdaters := [TempAdmin, SuperAdmin]

  /** An authenticated USER is refused by the status-update gate, whatever
      its stored record said before demotion. */
  lemma PlainUserCannotUpdateStatus(users: map<Id, User>, header: Option<string>, verify: string -> Option<Id>, now: nat)
    requires Authenticate(users, header, verify, now).Ok?
    requires Authenticate(users, header, verify, now).value.1.role == UserRole
    ensures AuthorizeRoles(Some(Authenticate(users, header, verify, now).value.1), StatusUpdaters).Fail?
  {
  }

  /** A TEMP_ADMIN whose promotion has lapsed is demoted before any gate
      runs, so the status-update gate refuses them with 403. */
  lemma LapsedTempAdminCannotUpdateStatus(users: map<Id, User>, header: Option<string>,
                                          verify: string -> Option<Id>, now: nat)
    requires Authenticate(users, header, verify, now).Ok?
    requires Expired(users[verify(ExtractToken(header).value).value], now)
    ensures AuthorizeRoles(Some(Authenticate(users, header, verify, now).value.1), StatusUpdaters)
      == Fail(Error(403, "Forbidden - Permission ledu ra mawa"))
  {
  }
}
