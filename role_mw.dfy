/** The role gate (mws/__role.mw.js): a function with a role list admits
    only callers whose token carries one of the listed roles. A missing
    token is reported before a wrong role. */
module RoleGate {
  import opened Common

  /** How the middleware ends: `next()` with no value, `next(role)`, or a
      dispatched error. */
  datatype Outcome = PassThrough | Admit(role: Role) | Dispatch(code: nat, error: string)

  /** `managers[moduleName]?.roles?.[fnName]`. Any array, the empty one
      included, is truthy, so a present list always gates. */
  function AllowedRoles(roles: map<string, map<string, seq<Role>>>, moduleName: string, fnName: string)
    : (r: Option<seq<Role>>)
    ensures r.Some? <==> moduleName in roles && fnName in roles[moduleName]
    ensures r.Some? ==> r.value == roles[moduleName][fnName]
  {
    if moduleName in roles && fnName in roles[moduleName]
    then Some(roles[moduleName][fnName]) else None
  }

  /** The middleware's decision over the roles configuration and
      `results.__token`. */
  function Gate(roles: map<string, map<string, seq<Role>>>, moduleName: string, fnName: string,
                token: Option<Claims>): (o: Outcome)
    ensures o == PassThrough <==> AllowedRoles(roles, moduleName, fnName).None?
    ensures AllowedRoles(roles, moduleName, fnName).Some? ==>
      var allowed := roles[moduleName][fnName];
      && (o == Dispatch(401, "unauthorized") <==> token.None?)
      && (o == Dispatch(403, "forbidden") <==>
            token.Some? && (token.value.role.None? || token.value.role.value !in allowed))
      && (o.Admit? <==> token.Some? && token.value.role.Some? && token.value.role.value in allowed)
    ensures o.Admit? ==> token.Some? && o.role == token.value.role.value
  {
    var allowed := AllowedRoles(roles, moduleName, fnName);
    if allowed.None? then PassThrough
    else if token.None? then Dispatch(401, "unauthorized")
    else if token.value.role.None? || token.value.role.value !in allowed.value then Dispatch(403, "forbidden")
    else Admit(token.value.role.value)
  }

  /** A missing token is never reported as a wrong role: whatever the role
      list, even an empty one, an anonymous call gets 401. */
  lemma UnauthorizedBeforeForbidden(roles: map<string, map<string, seq<Role>>>, moduleName: string, fnName: string)
    requires AllowedRoles(roles, moduleName, fnName).Some?
    ensures Gate(roles, moduleName, fnName, None) == Dispatch(401, "unauthorized")
  {
  }

  /** A token without a role is refused by every role list. */
  lemma RolelessTokenForbidden(roles: map<string, map<string, seq<Role>>>, moduleName: string, fnName: string,
                               claims: Claims)
    requires AllowedRoles(roles, moduleName, fnName).Some? && claims.role.None?
    ensures Gate(roles, moduleName, fnName, Some(claims)) == Dispatch(403, "forbidden")
  {
  }

  /** A token with a listed role is admitted with that role. */
  lemma ListedRoleAdmitted(roles: map<string, map<string, seq<Role>>>, moduleName: string, fnName: string,
                           claims: Claims, role: Role)
    requires AllowedRoles(roles, moduleName, fnName).Some? && claims.role == Some(role)
    requires role in roles[moduleName][fnName]
    ensures Gate(roles, moduleName, fnName, Some(claims)) == Admit(role)
  {
  }

  /** An empty role list admits nobody. */
  lemma EmptyListAdmitsNobody(roles: map<string, map<string, seq<Role>>>, moduleName: string, fnName: string,
                              token: Option<Claims>)
    requires AllowedRoles(roles, moduleName, fnName) == Some([])
    ensures !Gate(roles, moduleName, fnName, token).Admit?
  {
  }

  /** Widening a role list never turns an admitted caller away. */
  lemma WideningKeepsAdmitted(roles: map<string, map<string, seq<Role>>>, moduleName: string, fnName: string,
                              token: Option<Claims>, extra: seq<Role>)
    requires AllowedRoles(roles, moduleName, fnName).Some?
    requires Gate(roles, moduleName, fnName, token).Admit?
    ensures Gate(roles[moduleName := roles[moduleName][fnName := roles[moduleName][fnName] + extra]],
                 moduleName, fnName, token) == Gate(roles, moduleName, fnName, token)
  {
    var allowed := roles[moduleName][fnName];
    assert token.value.role.value in allowed + extra;
  }
}
