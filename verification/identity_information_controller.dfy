/**
 * The identity endpoints: all claims of the request's user ("identity/whoami") and
 * its role claims ("identity/whoami/roles"). Both answer 200 with a sequence of
 * DTOIdentityClaim values.
 */
module IdentityInformationController {
  import opened Wrappers
  import opened Model
  import opened Sequences

  /** `ClaimsIdentity.DefaultRoleClaimType`, the value of `ClaimTypes.Role`. */
  const DefaultRoleClaimType: string := "http://schemas.microsoft.com/ws/2008/06/identity/claims/role"

  /** The user's primary identity: a ClaimsIdentity with its role claim type, or another IIdentity. */
  datatype Identity = ClaimsIdentity(RoleClaimType: string) | OtherIdentity

  /** The request's ClaimsPrincipal: its identity (possibly null) and its claims, in enumeration order. */
  datatype Principal = Principal(Identity: Option<Identity>, Claims: seq<Claim>)

  /** The role claim type: the identity's own when it is a ClaimsIdentity, the default otherwise. */
  function RoleClaimType(user: Principal): (t: string)
    ensures user.Identity.Some? && user.Identity.value.ClaimsIdentity? ==> t == user.Identity.value.RoleClaimType
    ensures !(user.Identity.Some? && user.Identity.value.ClaimsIdentity?) ==> t == DefaultRoleClaimType
  {
    match user.Identity
    case Some(ClaimsIdentity(roleClaimType)) => roleClaimType
    case _ => DefaultRoleClaimType
  }

  /** Whether a claim (or DTO) type is the role type, by ordinal, case-sensitive comparison. */
  predicate IsRole(claimType: string, roleClaimType: string)
  {
    claimType == roleClaimType
  }

  /** GetAllClaims: one DTO per claim, in the same order, with the claim's type and value. */
  function GetAllClaims(user: Principal): (r: seq<DTOIdentityClaim>)
    ensures |r| == |user.Claims|
    ensures forall i :: 0 <= i < |r| ==> r[i].Type == user.Claims[i].Type && r[i].Value == user.Claims[i].Value
  {
    Select(user.Claims, FromClaim)
  }

  /** GetRoles: the DTOs of exactly the claims whose type is the role claim type. */
  function GetRoles(user: Principal): (r: seq<DTOIdentityClaim>)
    ensures |r| <= |user.Claims|
    ensures forall d :: d in r ==> d.Type == RoleClaimType(user)
    ensures forall c :: c in user.Claims && c.Type == RoleClaimType(user) ==> FromClaim(c) in r
  {
    var roleClaimName := RoleClaimType(user);
    var roles := Where(user.Claims, (c: Claim) => IsRole(c.Type, roleClaimName));
    var r := Select(roles, FromClaim);
    assert forall c :: c in user.Claims && c.Type == roleClaimName ==> c in roles;
    assert forall d :: d in r ==> exists i :: 0 <= i < |roles| && d == FromClaim(roles[i]);
    r
  }

  /** GetRoles is GetAllClaims filtered to the role claim type. */
  lemma GetRolesFiltersGetAllClaims(user: Principal)
    ensures GetRoles(user) == Where(GetAllClaims(user), (d: DTOIdentityClaim) => IsRole(d.Type, RoleClaimType(user)))
  {
    var t := RoleClaimType(user);
    SelectWhereCommute(user.Claims, (c: Claim) => IsRole(c.Type, t), FromClaim, (d: DTOIdentityClaim) => IsRole(d.Type, t));
  }

  /** The roles appear in GetAllClaims in the same relative order, so there are at most as many. */
  lemma GetRolesSubsequenceOfGetAllClaims(user: Principal)
    ensures IsSubsequence(GetRoles(user), GetAllClaims(user))
    ensures |GetRoles(user)| <= |GetAllClaims(user)|
  {
    GetRolesFiltersGetAllClaims(user);
    WhereIsSubsequence(GetAllClaims(user), (d: DTOIdentityClaim) => IsRole(d.Type, RoleClaimType(user)));
  }

  /** A DTO is in GetRoles exactly when it is in GetAllClaims and has the role type. */
  lemma GetRolesMembership(user: Principal, d: DTOIdentityClaim)
    ensures d in GetRoles(user) <==> d in GetAllClaims(user) && d.Type == RoleClaimType(user)
  {
  }

  /** Every role DTO occurs in GetRoles exactly as often as in GetAllClaims; all others not at all. */
  lemma GetRolesCounts(user: Principal, d: DTOIdentityClaim)
    ensures multiset(GetRoles(user))[d] == if d.Type == RoleClaimType(user) then multiset(GetAllClaims(user))[d] else 0
  {
    GetRolesFiltersGetAllClaims(user);
  }
}
