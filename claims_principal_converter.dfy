/**
 * ClaimsPrincipalConverter: a principal is stored as a ClaimsPrincipalLite
 * record holding the primary identity's AuthenticationType and one ClaimLite
 * per claim of the principal; reading it back builds a principal with one
 * identity whose name and role claim types are "name" and "role". The JSON
 * text of the record is not modelled.
 */
module ClaimsPrincipalConverter {
  import opened Wrappers
  import opened SecurityClaims
  import opened ClaimConverter

  /** The stored form of a principal; the claims array may be null in what was read back. */
  datatype PrincipalLite = PrincipalLite(authenticationType: Option<string>, claims: Option<seq<ClaimLite>>)

  /** `claims.Select(x => new ClaimLite { ... }).ToArray()`: one record per claim, in order. */
  function EncodeClaims(cs: seq<Claim>): (r: seq<ClaimLite>)
    ensures |r| == |cs|
    ensures forall i :: 0 <= i < |cs| ==> r[i] == EncodeClaim(cs[i])
  {
    if cs == [] then [] else [EncodeClaim(cs[0])] + EncodeClaims(cs[1..])
  }

  /**
   * `lite.Claims.Select(x => new Claim(...))` as the identity constructor
   * enumerates it: the claims in order, or the exception of the first record
   * whose read throws.
   */
  function DecodeClaims(ls: seq<ClaimLite>): (r: Result<seq<Claim>, Exception>)
    ensures r.Success? <==> forall i :: 0 <= i < |ls| ==> DecodeClaim(ls[i]).Success?
    ensures r.Success? ==> |r.value| == |ls|
    ensures r.Success? ==> forall i :: 0 <= i < |ls| ==> DecodeClaim(ls[i]) == Success(r.value[i])
    ensures r.Failure? ==>
      exists i :: 0 <= i < |ls| && DecodeClaim(ls[i]) == Failure(r.error)
        && forall j :: 0 <= j < i ==> DecodeClaim(ls[j]).Success?
  {
    if ls == [] then Success([])
    else
      match DecodeClaim(ls[0])
      case Failure(e) => Failure(e)
      case Success(c) =>
        match DecodeClaims(ls[1..])
        case Failure(e) =>
          Failure(e)
        case Success(rest) => Success([c] + rest)
  }

  /**
   * ClaimsPrincipalConverter.Write. Reading `value.Identity.AuthenticationType`
   * throws when the principal has no identity; otherwise the record holds the
   * primary identity's AuthenticationType and exactly one record per claim of
   * the principal (all identities, in order), each holding that claim's triple.
   */
  function EncodePrincipal(p: ClaimsPrincipal): (r: Result<PrincipalLite, Exception>)
    ensures r.Failure? <==> |p.identities| == 0
    ensures r.Failure? ==> r.error == NullReference
    ensures r.Success? ==> r.value.authenticationType == p.identities[0].authenticationType
    ensures r.Success? ==> r.value.claims.Some? && |r.value.claims.value| == |AllClaims(p.identities)|
    ensures r.Success? ==> forall i :: 0 <= i < |AllClaims(p.identities)| ==>
      r.value.claims.value[i] == EncodeClaim(AllClaims(p.identities)[i])
  {
    match PrimaryIdentity(p)
    case None => Failure(NullReference)
    case Some(id) => Success(PrincipalLite(id.authenticationType, Some(EncodeClaims(AllClaims(p.identities)))))
  }

  /**
   * ClaimsPrincipalConverter.Read. A null claims array throws in `Select`; a
   * record whose read throws makes the whole read throw, with the exception
   * of the first such record. Otherwise the result
   * has exactly one identity, with the record's AuthenticationType, name claim
   * type "name", role claim type "role", and one claim per record, in order,
   * each the read of that record.
   */
  function DecodePrincipal(l: PrincipalLite): (r: Result<ClaimsPrincipal, Exception>)
    ensures l.claims.None? ==> r == Failure(ArgumentNull("source"))
    ensures l.claims.Some? && r.Failure? ==>
      exists i :: 0 <= i < |l.claims.value| && DecodeClaim(l.claims.value[i]) == Failure(r.error)
        && forall j :: 0 <= j < i ==> DecodeClaim(l.claims.value[j]).Success?
    ensures r.Success? <==> l.claims.Some? && forall i :: 0 <= i < |l.claims.value| ==> DecodeClaim(l.claims.value[i]).Success?
    ensures r.Success? ==> |r.value.identities| == 1
    ensures r.Success? ==> r.value.identities[0].authenticationType == l.authenticationType
    ensures r.Success? ==> r.value.identities[0].nameClaimType == NameClaimType
    ensures r.Success? ==> r.value.identities[0].roleClaimType == RoleClaimType
    ensures r.Success? ==> |r.value.identities[0].claims| == |l.claims.value|
    ensures r.Success? ==> forall i :: 0 <= i < |l.claims.value| ==>
      DecodeClaim(l.claims.value[i]) == Success(r.value.identities[0].claims[i])
  {
    match l.claims
    case None => Failure(ArgumentNull("source"))
    case Some(ls) =>
      match DecodeClaims(ls)
      case Failure(e) => Failure(e)
      case Success(cs) =>
        Success(ClaimsPrincipal([ClaimsIdentity(l.authenticationType, NameClaimType, RoleClaimType, cs)]))
  }

  /** The canonical form of every claim of `cs`, in order. */
  function CanonicalClaims(cs: seq<Claim>): seq<Claim> {
    seq(|cs|, i requires 0 <= i < |cs| => Canonical(cs[i]))
  }

  /** The principal a read of `p`'s stored form gives back: one identity, primary auth type, all claims canonical. */
  function Restored(p: ClaimsPrincipal): ClaimsPrincipal
    requires |p.identities| > 0
  {
    ClaimsPrincipal([ClaimsIdentity(p.identities[0].authenticationType, NameClaimType, RoleClaimType,
                                    CanonicalClaims(AllClaims(p.identities)))])
  }

  /** The number of records of claim type `t` in `ls`. */
  function CountLiteOfType(ls: seq<ClaimLite>, t: string): nat {
    if ls == [] then 0 else (if ls[0].claimType == Some(t) then 1 else 0) + CountLiteOfType(ls[1..], t)
  }

  /**
   * Principal round trip: writing a principal with at least one identity and
   * reading the record back succeeds, and gives one identity with the primary
   * identity's AuthenticationType, name and role claim types "name" and
   * "role", and the principal's claims, all identities flattened in order,
   * each reduced to its triple.
   */
  lemma PrincipalRoundTrip(p: ClaimsPrincipal)
    requires |p.identities| > 0
    ensures EncodePrincipal(p).Success?
    ensures DecodePrincipal(EncodePrincipal(p).value) == Success(Restored(p))
  {
    var cs := AllClaims(p.identities);
    var l := EncodePrincipal(p).value;
    forall i | 0 <= i < |l.claims.value|
      ensures DecodeClaim(l.claims.value[i]).Success?
    {
      ClaimRoundTrip(cs[i]);
    }
    var r := DecodePrincipal(l).value;
    assert r.identities[0].claims == CanonicalClaims(cs);
  }

  /**
   * Single-identity round trip: the read-back principal has the identity's
   * AuthenticationType and the same claims in the same order, each with
   * the same triple.
   */
  lemma SingleIdentityRoundTrip(id: ClaimsIdentity)
    ensures EncodePrincipal(ClaimsPrincipal([id])).Success?
    ensures DecodePrincipal(EncodePrincipal(ClaimsPrincipal([id])).value).Success?
    ensures var q := DecodePrincipal(EncodePrincipal(ClaimsPrincipal([id])).value).value;
      |q.identities| == 1
      && q.identities[0].authenticationType == id.authenticationType
      && |q.identities[0].claims| == |id.claims|
      && forall i :: 0 <= i < |id.claims| ==> SameTriple(q.identities[0].claims[i], id.claims[i])
  {
    AllClaimsSingle(id);
    PrincipalRoundTrip(ClaimsPrincipal([id]));
  }

  /** A principal with no claims and one identity comes back with no claims. */
  lemma EmptyClaimsRoundTrip(id: ClaimsIdentity)
    requires id.claims == []
    ensures DecodePrincipal(EncodePrincipal(ClaimsPrincipal([id])).value)
      == Success(ClaimsPrincipal([ClaimsIdentity(id.authenticationType, NameClaimType, RoleClaimType, [])]))
  {
    AllClaimsSingle(id);
    PrincipalRoundTrip(ClaimsPrincipal([id]));
  }

  /**
   * A principal survives writing and reading unchanged exactly when it has
   * one identity, that identity's name and role claim types are "name" and
   * "role", and each of its claims carries nothing beyond its triple.
   */
  lemma ExactRoundTrip(p: ClaimsPrincipal)
    requires |p.identities| > 0
    ensures DecodePrincipal(EncodePrincipal(p).value) == Success(p) <==>
      |p.identities| == 1
      && p.identities[0].nameClaimType == NameClaimType
      && p.identities[0].roleClaimType == RoleClaimType
      && forall i :: 0 <= i < |p.identities[0].claims| ==> IsCanonical(p.identities[0].claims[i])
  {
    PrincipalRoundTrip(p);
    if |p.identities| == 1 {
      var id := p.identities[0];
      AllClaimsSingle(id);
      assert p == ClaimsPrincipal([id]);
      if Restored(p) == p {
        forall i | 0 <= i < |id.claims| ensures IsCanonical(id.claims[i]) {
          assert id.claims[i] == CanonicalClaims(id.claims)[i];
        }
      }
      if (forall i :: 0 <= i < |id.claims| ==> IsCanonical(id.claims[i])) {
        assert CanonicalClaims(id.claims) == id.claims;
      }
    }
  }

  /**
   * Several identities are flattened: the read-back principal has a single
   * identity carrying the primary identity's AuthenticationType, and the
   * canonical form of every claim of every identity, the claims of an
   * earlier identity before those of a later one.
   */
  lemma MultipleIdentitiesFlattened(p: ClaimsPrincipal, k: nat)
    requires 0 < k < |p.identities|
    ensures DecodePrincipal(EncodePrincipal(p).value).Success?
    ensures var q := DecodePrincipal(EncodePrincipal(p).value).value;
      |q.identities| == 1
      && q.identities[0].authenticationType == p.identities[0].authenticationType
      && q.identities[0].claims
         == CanonicalClaims(AllClaims(p.identities[..k])) + CanonicalClaims(AllClaims(p.identities[k..]))
  {
    var a, b := p.identities[..k], p.identities[k..];
    PrincipalRoundTrip(p);
    assert p.identities == a + b;
    AllClaimsAppend(a, b);
    CanonicalClaimsAppend(AllClaims(a), AllClaims(b));
  }

  /** Reducing claims to their triples works claim by claim, so it commutes with concatenation. */
  lemma CanonicalClaimsAppend(a: seq<Claim>, b: seq<Claim>)
    ensures CanonicalClaims(a + b) == CanonicalClaims(a) + CanonicalClaims(b)
  {
  }

  /** Writing claims keeps, for each claim type, how many claims have it. */
  lemma {:induction false} EncodeClaimsCountOfType(cs: seq<Claim>, t: string)
    ensures CountLiteOfType(EncodeClaims(cs), t) == CountOfType(cs, t)
  {
    if cs != [] {
      EncodeClaimsCountOfType(cs[1..], t);
      assert EncodeClaims(cs)[1..] == EncodeClaims(cs[1..]);
    }
  }

  /** Reducing claims to their triples keeps, for each claim type, how many claims have it. */
  lemma {:induction false} CanonicalClaimsCountOfType(cs: seq<Claim>, t: string)
    ensures CountOfType(CanonicalClaims(cs), t) == CountOfType(cs, t)
  {
    if cs != [] {
      CanonicalClaimsCountOfType(cs[1..], t);
      assert CanonicalClaims(cs)[1..] == CanonicalClaims(cs[1..]);
    }
  }

  /**
   * Duplicate claim types stay separate entries: for every claim type, the
   * record holds as many entries of that type as the principal has claims of
   * it, and the read-back principal has that many claims of it again.
   */
  lemma DuplicateTypesKept(p: ClaimsPrincipal, t: string)
    requires |p.identities| > 0
    ensures EncodePrincipal(p).Success?
    ensures CountLiteOfType(EncodePrincipal(p).value.claims.value, t) == CountOfType(AllClaims(p.identities), t)
    ensures CountOfType(DecodePrincipal(EncodePrincipal(p).value).value.identities[0].claims, t)
      == CountOfType(AllClaims(p.identities), t)
  {
    EncodeClaimsCountOfType(AllClaims(p.identities), t);
    CanonicalClaimsCountOfType(AllClaims(p.identities), t);
    PrincipalRoundTrip(p);
  }

  /**
   * Record round trip: a record with a claims array whose entries have no
   * null field and a non-empty ValueType reads back and is written out again
   * unchanged; and a record that reads back and is written out again
   * unchanged had a claims array with only such entries.
   */
  lemma LitePrincipalRoundTrip(l: PrincipalLite)
    ensures l.claims.Some? && (forall i :: 0 <= i < |l.claims.value| ==> IsComplete(l.claims.value[i])) ==>
      DecodePrincipal(l).Success? && EncodePrincipal(DecodePrincipal(l).value) == Success(l)
    ensures DecodePrincipal(l).Success? && EncodePrincipal(DecodePrincipal(l).value) == Success(l) ==>
      l.claims.Some? && forall i :: 0 <= i < |l.claims.value| ==> IsComplete(l.claims.value[i])
  {
    if l.claims.Some? {
      var ls := l.claims.value;
      forall i | 0 <= i < |ls| {
        LiteRoundTrip(ls[i]);
      }
      if DecodePrincipal(l).Success? {
        var q := DecodePrincipal(l).value;
        AllClaimsSingle(q.identities[0]);
        var cs := q.identities[0].claims;
        assert AllClaims(q.identities) == cs;
        if forall i :: 0 <= i < |ls| ==> IsComplete(ls[i]) {
          assert EncodeClaims(cs) == ls;
        }
        if EncodePrincipal(q) == Success(l) {
          forall i | 0 <= i < |ls| ensures IsComplete(ls[i]) {
            assert EncodeClaims(cs)[i] == ls[i];
          }
        }
      }
    }
  }
}
