/** The long-lived session token lifecycle
    (managers/entities/token/Token.manager.js): the duration parser, issuing
    a token with its expiry, idempotent revocation and the validation
    verdict. Signing short-lived JWTs is a foreign call and not part of it. */
module Tokens {
  import opened Common
  import opened Numerals
  import opened Store

  const MinuteMs: nat := 60000
  const HourMs: nat := 3600000
  const DayMs: nat := 86400000

  /** The fallback of the parser, and of the expiry setting when unset. */
  const DefaultDurationMs: nat := DayMs
  const DefaultLongTokenExpiresIn: string := "30d"

  predicate IsUnit(c: char) {
    c == 'm' || c == 'h' || c == 'd'
  }

  function UnitMs(c: char): (ms: nat)
    requires IsUnit(c)
  {
    match c
    case 'm' => MinuteMs
    case 'h' => HourMs
    case 'd' => DayMs
  }

  /** `/^(\d+)([mhd])$/`: one or more ASCII digits, then one unit letter. */
  predicate IsDuration(s: string) {
    |s| >= 2 && AllDigitsIn(s[..|s| - 1], 10) && IsUnit(s[|s| - 1])
  }

  /** `_parseDuration`: milliseconds for `<digits><unit>`, one day otherwise. */
  function ParseDuration(s: string): (ms: nat)
  {
    if IsDuration(s) then ValueIn(s[..|s| - 1], 10) * UnitMs(s[|s| - 1])
    else DefaultDurationMs
  }

  /** Every well-formed duration is read as its count times its unit. */
  lemma ParseDurationOfRendered(n: nat, unit: char)
    requires IsUnit(unit)
    ensures ParseDuration(ToDecimal(n) + [unit]) == n * UnitMs(unit)
  {
    var s := ToDecimal(n) + [unit];
    assert s[..|s| - 1] == ToDecimal(n);
    ValueOfToDecimal(n);
  }

  /** Anything else (no digits, another unit, a sign, trailing text, an
      empty string) falls back to one day. */
  lemma ParseDurationFallback(s: string)
    requires !IsDuration(s)
    ensures ParseDuration(s) == 86400000
  {
  }

  /** The parsed duration is zero only for an all-zero count. */
  lemma ParseDurationPositive(s: string)
    ensures ParseDuration(s) == 0 <==> IsDuration(s) && ValueIn(s[..|s| - 1], 10) == 0
  {
  }

  /** The default setting is thirty days. */
  lemma DefaultIsThirtyDays()
    ensures ParseDuration(DefaultLongTokenExpiresIn) == 30 * DayMs
  {
    var digits := DefaultLongTokenExpiresIn[..2];
    assert digits == "30" && digits[..1] == "3" && "3"[..0] == [];
    assert ValueIn("3", 10) == 3;
    assert ValueIn(digits, 10) == 30;
  }

  /** `config.dotEnv.LONG_TOKEN_EXPIRES_IN || '30d'`. */
  function LongTokenExpiresIn(env: Option<string>): (s: string)
    ensures env.Some? && env.value != "" ==> s == env.value
    ensures env.None? || env.value == "" ==> ParseDuration(s) == 30 * DayMs
  {
    DefaultIsThirtyDays();
    if env.Some? && env.value != "" then env.value else DefaultLongTokenExpiresIn
  }

  /** The expiry a token issued at `now` receives. */
  function ExpiresAt(now: int, expiresIn: string): (t: int)
    ensures t >= now
    ensures t > now <==> ParseDuration(expiresIn) > 0
  {
    now + ParseDuration(expiresIn)
  }

  /** `validateLongToken`: absent and non-active tokens are both
      `invalid_token`; status is checked before time; expiry is strict. */
  function ValidateLongToken(tokens: map<string, LongToken>, token: string, now: int): (r: Reply<Id>)
    ensures r.Ok? <==> token in tokens && tokens[token].status == Active && now <= tokens[token].expiresAt
    ensures r.Ok? ==> r.value == tokens[token].user
    ensures r.Error? ==> r.code == None && (r.error == "invalid_token" || r.error == "token_expired")
    ensures r == Error("token_expired", None) <==>
      token in tokens && tokens[token].status == Active && tokens[token].expiresAt < now
    ensures !r.ValidationError?
  {
    if token !in tokens then Error("invalid_token", None)
    else if tokens[token].status != Active then Error("invalid_token", None)
    else if tokens[token].expiresAt < now then Error("token_expired", None)
    else Ok(tokens[token].user)
  }

  /** An unknown token and a revoked one are indistinguishable. */
  lemma RevokedLooksUnknown(tokens: map<string, LongToken>, token: string, unknown: string, now: int)
    requires token in tokens && tokens[token].status == Revoked
    requires unknown !in tokens
    ensures ValidateLongToken(tokens, token, now) == ValidateLongToken(tokens, unknown, now)
  {
  }

  /** The store after `revokeLongToken(token)`: a present token becomes
      revoked, whatever its status was; nothing else changes. */
  function RevokedStore(tokens: map<string, LongToken>, token: string): (m: map<string, LongToken>)
  {
    if token in tokens && tokens[token].status != Revoked
    then tokens[token := tokens[token].(status := Revoked)]
    else tokens
  }

  /** No token is ever set back to active, and no other token changes. */
  lemma RevokeNeverActivates(tokens: map<string, LongToken>, token: string)
    ensures var m := RevokedStore(tokens, token);
      m.Keys == tokens.Keys &&
      (forall t :: t in m && t != token ==> m[t] == tokens[t]) &&
      (token in m ==> m[token] == tokens[token].(status := Revoked))
  {
  }

  /** Revoking twice is revoking once. */
  lemma RevokeIdempotent(tokens: map<string, LongToken>, token: string)
    ensures RevokedStore(RevokedStore(tokens, token), token) == RevokedStore(tokens, token)
  {
  }

  /** After a revocation the token never validates again. */
  lemma RevokedTokenIsInvalid(tokens: map<string, LongToken>, token: string, now: int)
    ensures ValidateLongToken(RevokedStore(tokens, token), token, now) == Error("invalid_token", None)
  {
  }

  /** The long-token side of the manager; its collection lives in `db`. */
  class TokenManager {
    const db: Database
    const longTokenExpiresIn: string

    constructor (db: Database, env: Option<string>)
      ensures this.db == db && longTokenExpiresIn == LongTokenExpiresIn(env)
    {
      this.db := db;
      this.longTokenExpiresIn := LongTokenExpiresIn(env);
    }

    /** `createLongToken`: stores an active token that expires
        `_parseDuration(longTokenExpiresIn)` ms after `now`. `random` is the
        32-byte hex string the save hook draws; a clash with a stored token
        is refused by the unique index and writes nothing. */
    method CreateLongToken(userId: Id, device: Option<string>, ip: Option<string>, now: int, random: string)
      returns (r: Reply<string>)
      modifies db`longTokens
      ensures random in old(db.longTokens) ==>
        r == Error("duplicate_key", None) && db.longTokens == old(db.longTokens)
      ensures random !in old(db.longTokens) ==>
        r == Ok(random) &&
        db.longTokens == old(db.longTokens)[random := LongToken(userId, device, ip, Active, ExpiresAt(now, longTokenExpiresIn))]
    {
      if random in db.longTokens {
        return Error("duplicate_key", None);
      }
      db.longTokens := db.longTokens[random := LongToken(userId, device, ip, Active, ExpiresAt(now, longTokenExpiresIn))];
      return Ok(random);
    }

    /** `revokeLongToken`: `token_not_found` with no write for an unknown
        token, success without a write for a revoked one, otherwise the
        status becomes revoked. */
    method RevokeLongToken(token: string) returns (r: Reply<()>)
      modifies db`longTokens
      ensures r == if token in old(db.longTokens) then Ok(()) else Error("token_not_found", None)
      ensures db.longTokens == RevokedStore(old(db.longTokens), token)
    {
      if token !in db.longTokens {
        return Error("token_not_found", None);
      }
      var doc := db.longTokens[token];
      if doc.status == Revoked {
        return Ok(());
      }
      db.longTokens := db.longTokens[token := doc.(status := Revoked)];
      return Ok(());
    }
  }

  /** A freshly issued token validates, for its owner, until its expiry
      and reports `token_expired` afterwards. */
  lemma IssuedTokenValidity(tokens: map<string, LongToken>, token: string, user: Id,
                            device: Option<string>, ip: Option<string>, now: int, expiresIn: string, later: int)
    ensures var m := tokens[token := LongToken(user, device, ip, Active, ExpiresAt(now, expiresIn))];
      ValidateLongToken(m, token, later) ==
        if later <= now + ParseDuration(expiresIn) then Ok(user) else Error("token_expired", None)
  {
  }
}
