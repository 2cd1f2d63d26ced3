/** Shared vocabulary of the school-management API: optional values, the
    tagged replies every manager returns, the two roles and the claims of a
    decoded short-lived access token. */
module Common {

  /** Document identifiers (MongoDB ObjectIds). The store hands them out in
      increasing order, so comparing two ids compares their insertion order. */
  type Id = nat

  datatype Option<+T> = None | Some(value: T)

  /** `superadmin` and `schoolAdmin` (managers/_common/enums.js). */
  datatype Role = SuperAdmin | SchoolAdmin

  /** What the request validator reports; opaque to the core. */
  type Errors = seq<string>

  /** The payload a verified short-lived token decodes to. The token
      middleware hands it on unchanged, so role and school may be absent. */
  datatype Claims = Claims(userId: Id, role: Option<Role>, school: Option<Id>)

  /** The shapes a manager operation resolves to:
      a success payload, `{error, code}` (`code` absent in the token and
      auth managers), or `{errors, message: 'request_validation_error'}`. */
  datatype Reply<+T> =
    | Ok(value: T)
    | Error(error: string, code: Option<nat>)
    | ValidationError(errors: Errors)

  /** `{error, code}` with an HTTP status. */
  function Fail<T>(error: string, code: nat): (r: Reply<T>)
    ensures r.Error? && r.error == error && r.code == Some(code)
  {
    Error(error, Some(code))
  }

  /** True when the caller is a tenant-scoped school administrator:
      `__token.role === ROLES.SCHOOL_ADMIN`. */
  predicate IsSchoolAdmin(t: Claims) {
    t.role == Some(SchoolAdmin)
  }

  /** `__token.school?.toString() !== x?.toString()` for a required id `x`. */
  predicate OtherSchool(t: Claims, school: Id) {
    t.school != Some(school)
  }
}
