/**
 * ClaimConverter: a claim is stored as a ClaimLite record holding only its
 * Type, Value and ValueType, and is rebuilt from one with the three-argument
 * Claim constructor. The JSON text of the record is not modelled: the model
 * starts and ends at ClaimLite values.
 */
module ClaimConverter {
  import opened Wrappers
  import opened SecurityClaims

  /** The stored form of a claim; each field may be null in what was read back. */
  datatype ClaimLite = ClaimLite(claimType: Option<string>, value: Option<string>, valueType: Option<string>)

  /** A record with no null field and a non-empty ValueType, as every written record is. */
  predicate IsComplete(l: ClaimLite) {
    l.claimType.Some? && l.value.Some? && l.valueType.Some? && l.valueType.value != ""
  }

  /**
   * The ValueType the claim constructor keeps: the given one, or the string
   * value type when it is null or empty.
   */
  function ValueTypeOf(vt: Option<string>): (r: ValueType)
    ensures vt.Some? && vt.value != "" ==> r == vt.value
    ensures vt.None? || vt.value == "" ==> r == StringValueType
  {
    if vt.None? || vt.value == "" then StringValueType else vt.value
  }

  /**
   * The claim a read gives back for `c`'s stored form: `c`'s triple, the
   * default issuer as Issuer and OriginalIssuer, and no properties.
   */
  function Canonical(c: Claim): Claim {
    Claim(c.claimType, c.value, c.valueType, DefaultIssuer, DefaultIssuer, map[])
  }

  /** A claim that carries nothing beyond its triple. */
  predicate IsCanonical(c: Claim) {
    c == Canonical(c)
  }

  /** Two claims with the same Type, Value and ValueType. */
  predicate SameTriple(a: Claim, b: Claim) {
    a.claimType == b.claimType && a.value == b.value && a.valueType == b.valueType
  }

  /**
   * ClaimConverter.Read: `new Claim(lite.Type, lite.Value, lite.ValueType)`.
   * It throws for a null Type (checked first) or a null Value; a null or
   * empty ValueType becomes the string value type; everything else is
   * defaulted.
   */
  function DecodeClaim(l: ClaimLite): (r: Result<Claim, Exception>)
    ensures r.Success? <==> l.claimType.Some? && l.value.Some?
    ensures l.claimType.None? ==> r == Failure(ArgumentNull("type"))
    ensures l.claimType.Some? && l.value.None? ==> r == Failure(ArgumentNull("value"))
    ensures r.Success? ==> r.value.claimType == l.claimType.value && r.value.value == l.value.value
    ensures r.Success? && l.valueType.Some? && l.valueType.value != "" ==> r.value.valueType == l.valueType.value
    ensures r.Success? && (l.valueType.None? || l.valueType.value == "") ==> r.value.valueType == StringValueType
    ensures r.Success? ==> IsCanonical(r.value)
  {
    match (l.claimType, l.value)
    case (None, _) => Failure(ArgumentNull("type"))
    case (Some(_), None) => Failure(ArgumentNull("value"))
    case (Some(t), Some(v)) =>
      Success(Claim(t, v, ValueTypeOf(l.valueType), DefaultIssuer, DefaultIssuer, map[]))
  }

  /**
   * ClaimConverter.Write: the record holds the claim's Type, Value and
   * ValueType unchanged, no field of it is null, and reading it back gives
   * the claim's canonical form.
   */
  function EncodeClaim(c: Claim): (r: ClaimLite)
    ensures r.claimType == Some(c.claimType) && r.value == Some(c.value) && r.valueType == Some(c.valueType)
    ensures IsComplete(r)
    ensures DecodeClaim(r) == Success(Canonical(c))
  {
    ClaimLite(Some(c.claimType), Some(c.value), Some(c.valueType))
  }

  /**
   * Claim round trip: reading back a written claim always succeeds with the
   * same triple, and gives back the very claim exactly when it carried
   * nothing beyond its triple.
   */
  lemma ClaimRoundTrip(c: Claim)
    ensures DecodeClaim(EncodeClaim(c)).Success?
    ensures SameTriple(DecodeClaim(EncodeClaim(c)).value, c)
    ensures DecodeClaim(EncodeClaim(c)) == Success(c) <==> IsCanonical(c)
  {
  }

  /**
   * Record round trip: a record that reads back successfully is written out
   * again unchanged exactly when none of its fields was null and its
   * ValueType was not empty.
   */
  lemma LiteRoundTrip(l: ClaimLite)
    ensures IsComplete(l) ==> DecodeClaim(l).Success? && EncodeClaim(DecodeClaim(l).value) == l
    ensures DecodeClaim(l).Success? && EncodeClaim(DecodeClaim(l).value) == l ==> IsComplete(l)
  {
  }

  /**
   * Only the triple is stored: two claims have the same record exactly when
   * they agree on Type, Value and ValueType, whatever their issuers and
   * properties.
   */
  lemma OnlyTripleStored(a: Claim, b: Claim)
    ensures EncodeClaim(a) == EncodeClaim(b) <==> SameTriple(a, b)
    ensures SameTriple(a, b) ==> DecodeClaim(EncodeClaim(a)) == DecodeClaim(EncodeClaim(b))
  {
  }
}
