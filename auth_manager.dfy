/** Authentication (managers/entities/auth/Auth.manager.js): first-superadmin
    setup, login, logout and short-token refresh, as early-return chains over
    the user store and the long-token manager. Password comparison (bcrypt)
    and short-token signing (JWT) are foreign calls and enter as the
    functions `passwordMatches` and `signShortToken`. */
module Auth {
  import opened Common
  import opened Store
  import opened Tokens

  /** The `login` payload. */
  datatype Session = Session(longToken: string, shortToken: string, user: PublicUser)

  function HasRole(role: Role): User -> bool {
    (u: User) => u.role == role
  }

  function HasEmail(email: string): User -> bool {
    (u: User) => u.email == email
  }

  /** `refreshShortToken`: the long token's verdict is passed on as it is;
      a token whose owner no longer exists gives `invalid_user`; otherwise
      a new short token for the owner, and nothing else. */
  function RefreshShortToken(users: map<Id, User>, tokens: map<string, LongToken>, longToken: string,
                             validation: Option<Errors>, now: int, signShortToken: Id -> string): (r: Reply<string>)
    ensures validation.Some? ==> r == ValidationError(validation.value)
    ensures validation.None? && ValidateLongToken(tokens, longToken, now).Error? ==>
      r == Error(ValidateLongToken(tokens, longToken, now).error, ValidateLongToken(tokens, longToken, now).code)
    ensures r.Ok? <==>
      validation.None? && longToken in tokens && tokens[longToken].status == Active &&
      now <= tokens[longToken].expiresAt && tokens[longToken].user in users
    ensures r.Ok? ==> r.value == signShortToken(tokens[longToken].user)
    ensures r == Error("invalid_user", None) <==>
      validation.None? && ValidateLongToken(tokens, longToken, now).Ok? && tokens[longToken].user !in users
  {
    if validation.Some? then ValidationError(validation.value)
    else
      var result := ValidateLongToken(tokens, longToken, now);
      if result.Error? then Error(result.error, result.code)
      else if result.value !in users then Error("invalid_user", None)
      else Ok(signShortToken(result.value))
  }

  /** Once a long token is revoked (by `logout`) it refreshes nothing, and
      the caller learns only `invalid_token`. */
  lemma RefreshAfterLogout(users: map<Id, User>, tokens: map<string, LongToken>, longToken: string,
                           now: int, signShortToken: Id -> string)
    ensures RefreshShortToken(users, RevokedStore(tokens, longToken), longToken, None, now, signShortToken)
      == Error("invalid_token", None)
  {
    RevokedTokenIsInvalid(tokens, longToken, now);
  }

  /** A long token issued by `login` at `now` refreshes until its expiry. */
  lemma RefreshAfterLogin(users: map<Id, User>, tokens: map<string, LongToken>, random: string, user: Id,
                          device: Option<string>, ip: Option<string>, now: int, expiresIn: string,
                          later: int, signShortToken: Id -> string)
    requires user in users
    requires now <= later <= ExpiresAt(now, expiresIn)
    ensures RefreshShortToken(users, tokens[random := LongToken(user, device, ip, Active, ExpiresAt(now, expiresIn))],
                              random, None, later, signShortToken) == Ok(signShortToken(user))
  {
  }

  class AuthManager {
    const db: Database
    const tokenManager: TokenManager

    constructor (db: Database, tokenManager: TokenManager)
      requires tokenManager.db == db
      ensures this.db == db && this.tokenManager == tokenManager
    {
      this.db := db;
      this.tokenManager := tokenManager;
    }

    /** `setupSuperadmin`: validation first, with no store access; refused
        with `{error: 'not_found', code: 404}` once any superadmin exists;
        otherwise a superadmin without a school is created and returned
        without its password. */
    method SetupSuperadmin(firstname: string, lastname: string, email: string, password: string,
                           validation: Option<Errors>) returns (r: Reply<PublicUser>)
      requires db.Valid()
      modifies db`users, db`nextId
      ensures db.Valid()
      ensures validation.Some? ==> r == ValidationError(validation.value) && db.users == old(db.users)
      ensures validation.None? && FindOne(old(db.users), HasRole(SuperAdmin), old(db.nextId)).Some? ==>
        r == Fail("not_found", 404) && db.users == old(db.users)
      ensures validation.None? && FindOne(old(db.users), HasRole(SuperAdmin), old(db.nextId)).None? ==>
        var id := old(db.nextId);
        var u := User(firstname, lastname, email, password, SuperAdmin, None);
        id !in old(db.users) && db.users == old(db.users)[id := u] && r == Ok(Sanitized(id, u))
    {
      if validation.Some? {
        return ValidationError(validation.value);
      }
      var existing := FindOne(db.users, HasRole(SuperAdmin), db.nextId);
      if existing.Some? {
        return Fail("not_found", 404);
      }
      var id := db.NewId();
      var u := User(firstname, lastname, email, password, SuperAdmin, None);
      db.users := db.users[id := u];
      return Ok(Sanitized(id, u));
    }

    /** `login`: an unknown email and a wrong password give the same
        `invalid_credentials`; a failed long-token creation is returned as it
        is and no short token is signed; otherwise both tokens and the user
        without its password. The user is the first one stored with the email. */
    method Login(email: string, password: string, device: Option<string>, ip: Option<string>,
                 validation: Option<Errors>, now: int, random: string,
                 passwordMatches: (string, string) -> bool, signShortToken: Id -> string)
      returns (r: Reply<Session>)
      requires db.Valid() && tokenManager.db == db
      modifies db`longTokens
      ensures validation.Some? ==> r == ValidationError(validation.value) && db.longTokens == old(db.longTokens)
      ensures validation.None? ==>
        var found := FindOne(db.users, HasEmail(email), db.nextId);
        if found.None? || !passwordMatches(password, db.users[found.value].password) then
          r == Error("invalid_credentials", None) && db.longTokens == old(db.longTokens)
        else if random in old(db.longTokens) then
          r == Error("duplicate_key", None) && db.longTokens == old(db.longTokens)
        else
          var id := found.value;
          r == Ok(Session(random, signShortToken(id), Sanitized(id, db.users[id]))) &&
          db.longTokens == old(db.longTokens)[random :=
            LongToken(id, device, ip, Active, ExpiresAt(now, tokenManager.longTokenExpiresIn))]
    {
      if validation.Some? {
        return ValidationError(validation.value);
      }
      var found := FindOne(db.users, HasEmail(email), db.nextId);
      if found.None? {
        return Error("invalid_credentials", None);
      }
      var id := found.value;
      var user := db.users[id];
      if !passwordMatches(password, user.password) {
        return Error("invalid_credentials", None);
      }
      var longTokenResult := tokenManager.CreateLongToken(id, device, ip, now, random);
      if longTokenResult.Error? {
        return Error(longTokenResult.error, longTokenResult.code);
      }
      var shortToken := signShortToken(id);
      return Ok(Session(longTokenResult.value, shortToken, Sanitized(id, user)));
    }

    /** `logout`: after validation, exactly the revocation's result. */
    method Logout(longToken: string, validation: Option<Errors>) returns (r: Reply<()>)
      requires tokenManager.db == db
      modifies db`longTokens
      ensures validation.Some? ==> r == ValidationError(validation.value) && db.longTokens == old(db.longTokens)
      ensures validation.None? ==>
        r == (if longToken in old(db.longTokens) then Ok(()) else Error("token_not_found", None)) &&
        db.longTokens == RevokedStore(old(db.longTokens), longToken)
    {
      if validation.Some? {
        return ValidationError(validation.value);
      }
      r := tokenManager.RevokeLongToken(longToken);
    }
  }
}
