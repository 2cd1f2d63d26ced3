/** The access-token middleware (mws/__token.mw.js): takes the token from an
    `Authorization: Bearer <token>` header, has it verified, and either hands
    the decoded claims on or answers 401. The verifier enters as the
    function `verify`. */
module BearerToken {
  import opened Common

  const Scheme: string := "Bearer "

  /** What a token verifier does: throws, or returns a value that is
      either falsy (`None`) or the decoded claims. */
  datatype Verification = Throws | Returns(decoded: Option<Claims>)

  /** How the middleware ends: `next(decoded)` or a dispatched error. */
  datatype Outcome = Next(claims: Claims) | Dispatch(code: nat, error: string)

  /** `auth && auth.startsWith('Bearer ') ? auth.slice(7) : null`. An
      absent or empty header is falsy and gives `null` (`None`). */
  function ExtractToken(auth: Option<string>): (t: Option<string>)
    ensures t.Some? <==> auth.Some? && |auth.value| >= |Scheme| && auth.value[..|Scheme|] == Scheme
    ensures t.Some? ==> auth.value == Scheme + t.value
  {
    if auth.Some? && |auth.value| >= |Scheme| && auth.value[..|Scheme|] == Scheme
    then
      var t := auth.value[|Scheme|..];
      assert auth.value == auth.value[..|Scheme|] + t;
      Some(t)
    else None
  }

  /** The middleware for one request: a missing or empty token (`!token`)
      is refused without calling `verify`; a throwing or falsy verification
      is refused too. */
  function Authenticate(auth: Option<string>, verify: string -> Verification): (o: Outcome)
    ensures o.Next? <==>
      ExtractToken(auth).Some? && ExtractToken(auth).value != [] &&
      verify(ExtractToken(auth).value).Returns? && verify(ExtractToken(auth).value).decoded.Some?
    ensures o.Next? ==> o.claims == verify(ExtractToken(auth).value).decoded.value
    ensures !o.Next? ==> o == Dispatch(401, "unauthorized")
  {
    var token := ExtractToken(auth);
    if token.None? || token.value == [] then Dispatch(401, "unauthorized")
    else
      var v := verify(token.value);
      if v.Throws? || v.decoded.None? then Dispatch(401, "unauthorized")
      else Next(v.decoded.value)
  }

  /** The verifier the middleware calls as written: `TokenManager` has no
      `verifyShortToken` method, so the call throws a `TypeError` for every
      token. */
  function MissingVerifier(t: string): (v: Verification)
    ensures v.Throws?
  {
    Throws
  }

  /** As written, every request is refused with 401, whatever its header. */
  lemma MissingVerifierRefusesAll(auth: Option<string>)
    ensures Authenticate(auth, MissingVerifier) == Dispatch(401, "unauthorized")
  {
  }

  /** The header `Bearer <t>` yields exactly `t`. */
  lemma ExtractRendered(t: string)
    ensures ExtractToken(Some(Scheme + t)) == Some(t)
  {
    var h := Scheme + t;
    assert h[..|Scheme|] == Scheme;
    assert h[|Scheme|..] == t;
  }

  /** A header of just `Bearer ` is refused, whatever `verify` would say. */
  lemma BareSchemeRefused(verify: string -> Verification)
    ensures Authenticate(Some(Scheme), verify) == Dispatch(401, "unauthorized")
  {
    assert Scheme[|Scheme|..] == [];
  }

  /** Another scheme, or a lower-case one, gives no token at all. */
  lemma OtherSchemeRefused(t: string, verify: string -> Verification)
    ensures Authenticate(Some("bearer " + t), verify) == Dispatch(401, "unauthorized")
    ensures Authenticate(Some("Basic " + t), verify) == Dispatch(401, "unauthorized")
  {
    assert ("bearer " + t)[0] != Scheme[0];
    assert ("Basic " + t)[1] != Scheme[1];
  }

  /** A verified token hands on exactly what verification decoded. */
  lemma VerifiedTokenPasses(t: string, claims: Claims, verify: string -> Verification)
    requires t != [] && verify(t) == Returns(Some(claims))
    ensures Authenticate(Some(Scheme + t), verify) == Next(claims)
  {
    ExtractRendered(t);
  }
}
