/**
 * The parts of the platform's claims model (System.Security.Claims) that the
 * converters read and build: claims, identities, principals, the constants
 * the converters rely on and the exceptions the constructors throw.
 */
module SecurityClaims {
  import opened Wrappers

  /** ClaimsIdentity.DefaultIssuer: the issuer of a claim built without one. */
  const DefaultIssuer: string := "LOCAL AUTHORITY"

  /** ClaimValueTypes.String: the value type of a claim built without one. */
  const StringValueType: ValueType := "http://www.w3.org/2001/XMLSchema#string"

  /** JwtClaimTypes.Name and JwtClaimTypes.Role. */
  const NameClaimType: string := "name"
  const RoleClaimType: string := "role"

  /**
   * A claim value type as a claim holds it: never empty, since the claim
   * constructor replaces a null or empty value type by the string value type.
   */
  type ValueType = s: string | s != "" witness "http://www.w3.org/2001/XMLSchema#string"

  /** The exceptions the modelled calls can throw. */
  datatype Exception =
    | ArgumentNull(paramName: string)
    | NullReference

  /**
   * A claim. Type and Value are never null once a claim exists (the
   * constructor rejects null), and ValueType is never null or empty (the
   * constructor replaces both); Issuer, OriginalIssuer and Properties are the
   * rest of what a claim carries.
   */
  datatype Claim = Claim(
    claimType: string,
    value: string,
    valueType: ValueType,
    issuer: string,
    originalIssuer: string,
    properties: map<string, string>)

  /** A claims identity; a null AuthenticationType is `None`. */
  datatype ClaimsIdentity = ClaimsIdentity(
    authenticationType: Option<string>,
    nameClaimType: string,
    roleClaimType: string,
    claims: seq<Claim>)

  /** A claims principal: its identities, in order. */
  datatype ClaimsPrincipal = ClaimsPrincipal(identities: seq<ClaimsIdentity>)

  /**
   * ClaimsPrincipal.Identity: the primary identity, which is the first one
   * (no identity here is a Windows identity); null when there is none.
   */
  function PrimaryIdentity(p: ClaimsPrincipal): Option<ClaimsIdentity> {
    if |p.identities| == 0 then None else Some(p.identities[0])
  }

  /**
   * ClaimsPrincipal.Claims: the claims of every identity, identity by
   * identity, each identity's claims in their own order. Every claim of
   * every identity is in the result and nothing else is.
   */
  function AllClaims(ids: seq<ClaimsIdentity>): (r: seq<Claim>)
    ensures forall k, j :: 0 <= k < |ids| && 0 <= j < |ids[k].claims| ==> ids[k].claims[j] in r
    ensures forall c :: c in r ==> exists k :: 0 <= k < |ids| && c in ids[k].claims
  {
    if ids == [] then [] else ids[0].claims + AllClaims(ids[1..])
  }

  /** Flattening the identities of `a + b` puts all claims of `a` before all claims of `b`. */
  lemma {:induction false} AllClaimsAppend(a: seq<ClaimsIdentity>, b: seq<ClaimsIdentity>)
    ensures AllClaims(a + b) == AllClaims(a) + AllClaims(b)
  {
    if a == [] {
      assert a + b == b;
    } else {
      assert (a + b)[1..] == a[1..] + b;
      AllClaimsAppend(a[1..], b);
    }
  }

  /** A principal with one identity has exactly that identity's claims, in order. */
  lemma AllClaimsSingle(id: ClaimsIdentity)
    ensures AllClaims([id]) == id.claims
  {
  }

  /** The number of claims of type `t` in `cs`. */
  function CountOfType(cs: seq<Claim>, t: string): nat {
    if cs == [] then 0 else (if cs[0].claimType == t then 1 else 0) + CountOfType(cs[1..], t)
  }
}
