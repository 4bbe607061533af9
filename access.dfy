/** Who is calling and what they may do: the `auth_type` check on request
    bodies, API-key resolution, and the role/ownership tests the handlers
    apply before they mutate or reveal something. */
module Access {
  import opened Types

  /** The values `auth_type` may take, in the order the validator lists them. */
  const AuthTypes: seq<string> := ["none", "api_key", "oauth"]

  /** The value a registration body gets when it leaves `auth_type` out. */
  const DefaultAuthType: string := "none"

  /** The principal of a request that carries no API key. */
  const Anonymous: Principal := Principal("anonymous", "guest")

  /** The field validator on `auth_type`: accepted unchanged when it is one
      of the three allowed values, a validation error otherwise. */
  function ValidateAuthType(v: string): (r: Result<string>)
    ensures r.Success? <==> (v == "none" || v == "api_key" || v == "oauth")
    ensures r.Success? ==> r.value == v
    ensures r.Failure? ==> r.error == Invalid
  {
    if v in AuthTypes then Success(v) else Failure(Invalid)
  }

  /** The default `auth_type` passes the validator. */
  lemma DefaultAuthTypeValid()
    ensures ValidateAuthType(DefaultAuthType) == Success("none")
  {
  }

  /** Maps the optional `X-API-Key` header to a principal, given the key
      table the process was started with. */
  function ResolvePrincipal(keys: map<string, Principal>, apiKey: Option<string>): (r: Result<Principal>)
    ensures apiKey.None? ==> r == Success(Anonymous)
    ensures apiKey.Some? ==> (r.Success? <==> apiKey.value in keys)
    ensures apiKey.Some? && apiKey.value in keys ==> r == Success(keys[apiKey.value])
    ensures r.Failure? ==> r.error == Unauthorized
  {
    match apiKey
    case None => Success(Anonymous)
    case Some(k) => if k in keys then Success(keys[k]) else Failure(Unauthorized)
  }

  predicate IsAdmin(p: Principal) {
    p.role == AdminRole
  }

  /** Update is allowed to an admin or to the principal that registered the agent. */
  predicate MayUpdate(p: Principal, a: Agent) {
    IsAdmin(p) || a.createdBy == p.userId
  }

  /** An execution record is visible to an admin or to the principal that submitted it. */
  predicate MayView(p: Principal, e: Execution) {
    IsAdmin(p) || e.userId == p.userId
  }

  /** What each role may do: an admin passes every test; anyone else may
      update only agents they registered and view only records they
      submitted; and a caller without a key is never an admin. */
  lemma Permissions(p: Principal, a: Agent, e: Execution)
    ensures IsAdmin(p) ==> MayUpdate(p, a) && MayView(p, e)
    ensures !IsAdmin(p) ==> (MayUpdate(p, a) <==> a.createdBy == p.userId)
    ensures !IsAdmin(p) ==> (MayView(p, e) <==> e.userId == p.userId)
    ensures !IsAdmin(Anonymous)
  {
  }
}
