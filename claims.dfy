/** The parts of `System.Security.Claims` the agent's access decisions use: a claim is a
    type and a value, and a principal is the claims of its identities, in order. */
module Claims {
  import opened Text

  datatype Claim = Claim(claimType: string, value: string)

  /** `ClaimTypes.Role`. */
  const RoleClaimType := "http://schemas.microsoft.com/ws/2008/06/identity/claims/role"

  /** `ClaimsPrincipal.HasClaim(type, value)`: some claim has the type, compared without
      regard to letter case, and exactly the value. */
  predicate HasClaim(claims: seq<Claim>, claimType: string, value: string) {
    exists i :: 0 <= i < |claims| && EqualsIgnoreCase(claims[i].claimType, claimType) && claims[i].value == value
  }

  /** A principal holds a role when one of its claims is a role claim with that value. */
  lemma HasClaimOf(claims: seq<Claim>, c: Claim)
    requires c in claims
    ensures HasClaim(claims, c.claimType, c.value)
  {
    var i :| 0 <= i < |claims| && claims[i] == c;
    assert EqualsIgnoreCase(claims[i].claimType, c.claimType);
  }

  /** A principal none of whose claims carries the value does not hold it, whatever the type. */
  lemma LacksValue(claims: seq<Claim>, claimType: string, value: string)
    requires forall i :: 0 <= i < |claims| ==> claims[i].value != value
    ensures !HasClaim(claims, claimType, value)
  {
  }
}
