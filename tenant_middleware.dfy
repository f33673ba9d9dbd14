/** The per-request tenant resolution: for an authenticated caller with a
    non-empty "tenant" claim the scoped tenant cell takes the claim's value;
    otherwise the cell keeps whatever it held. Then the next handler runs. */
module TenantMiddleware {
  import opened Common

  datatype Claim = Claim(claimType: string, value: string)

  /** HttpContext.User: whether the identity is authenticated, and its
      claims in order. */
  datatype Principal = Principal(authenticated: bool, claims: seq<Claim>)

  const TenantClaimType: string := "tenant"

  /** Claim types compare without regard to case. */
  function IsOfType(claimType: string): Claim -> bool
  {
    (c: Claim) => Lower(c.claimType) == Lower(claimType)
  }

  /** ClaimsPrincipal.FindFirst: the value of the first claim of the given
      type, if there is one. */
  function FindFirst(claims: seq<Claim>, claimType: string): (r: Option<string>)
    ensures r.Some? ==> exists i :: 0 <= i < |claims| && IsOfType(claimType)(claims[i]) && claims[i].value == r.value
                                    && forall k :: 0 <= k < i ==> !IsOfType(claimType)(claims[k])
    ensures r.None? <==> forall k :: 0 <= k < |claims| ==> !IsOfType(claimType)(claims[k])
  {
    match FindIndex(claims, IsOfType(claimType))
    case None => None
    case Some(i) => Some(claims[i].value)
  }

  /** The tenant the cell holds after the middleware has looked at the
      caller. */
  function ResolveTenant(current: string, user: Principal): (r: string)
    ensures user.authenticated && FindFirst(user.claims, TenantClaimType).Some?
            && FindFirst(user.claims, TenantClaimType).value != ""
            ==> r == FindFirst(user.claims, TenantClaimType).value
    ensures !user.authenticated ==> r == current
    ensures FindFirst(user.claims, TenantClaimType).None? ==> r == current
    ensures FindFirst(user.claims, TenantClaimType) == Some("") ==> r == current
  {
    if user.authenticated then
      var claim := FindFirst(user.claims, TenantClaimType);
      if !IsNullOrEmpty(claim) then claim.value else current
    else current
  }

  /** Looking at the same caller again changes nothing more. */
  lemma ResolveTenantIdempotent(current: string, user: Principal)
    ensures ResolveTenant(ResolveTenant(current, user), user) == ResolveTenant(current, user)
  {
  }

  /** The scoped TenantService: one mutable cell per request. */
  class TenantService {
    var tenantId: string

    constructor (defaultTenant: string)
      ensures tenantId == defaultTenant
    {
      tenantId := defaultTenant;
    }
  }

  /** InvokeAsync: settle the cell, then call the next handler exactly once;
      what the handler sees is returned, one entry per call. */
  method InvokeAsync(tenantService: TenantService, user: Principal) returns (nextCalls: seq<string>)
    modifies tenantService
    ensures tenantService.tenantId == ResolveTenant(old(tenantService.tenantId), user)
    ensures nextCalls == [tenantService.tenantId]
  {
    if user.authenticated {
      var tenantClaim := FindFirst(user.claims, TenantClaimType);
      if !IsNullOrEmpty(tenantClaim) {
        tenantService.tenantId := tenantClaim.value;
      }
    }
    nextCalls := [tenantService.tenantId];
  }
}
