# Claims persistence codec of IdentityServer4, modelled in Dafny

IdentityServer4 persists security principals (for example the data behind a
refresh token) through two System.Text.Json converters in its storage layer:

- `ClaimConverter` writes a `Claim` as a `ClaimLite` record holding the
  claim's Type, Value and ValueType, and reads one back with the
  three-argument `Claim` constructor.
- `ClaimsPrincipalConverter` writes a `ClaimsPrincipal` as a
  `ClaimsPrincipalLite` record holding the primary identity's
  AuthenticationType and one `ClaimLite` per claim of the principal, and reads
  one back as a principal with a single identity whose name and role claim
  types are `name` and `role`.

The model is pure: datatypes for claims, identities and principals
(`SecurityClaims`), for the two record types (`ClaimConverter.ClaimLite`,
`ClaimsPrincipalConverter.PrincipalLite`), and the four mappings
`EncodeClaim`, `DecodeClaim`, `EncodePrincipal`, `DecodePrincipal`, with
lemmas for the round trips, what is lost, and the shape of a read-back
principal. The JSON text itself is an opaque step: the model starts and ends
at record values.

What the platform's claims types do when the converters call them is written
out, because it decides the edge cases:

- `new Claim(type, value, valueType)` throws `ArgumentNullException` for a null
  type (checked first) or a null value, replaces a null or empty value type by
  the string value type `http://www.w3.org/2001/XMLSchema#string`, and gives the
  claim the issuer and original issuer `LOCAL AUTHORITY` and no properties.
- `ClaimsPrincipal.Identity` is the first identity, null when there is none,
  so writing a principal without identities throws `NullReferenceException`.
- `ClaimsPrincipal.Claims` is the claims of all identities, identity by
  identity, in order.
- `Select` over a null claims array throws `ArgumentNullException`; a record
  whose read throws makes the whole read throw, and the first such record in
  order decides the exception.

Nullable strings and arrays are `Option` values; thrown exceptions are
`Result.Failure` values.

A claim's Type, Value and ValueType survive writing and reading back, but
nothing else it carries does: its Issuer and OriginalIssuer come back as
`LOCAL AUTHORITY` and its Properties come back empty. `ClaimRoundTrip` proves
that a claim comes back unchanged exactly when it already had those defaults,
and `ExactRoundTrip` proves the matching statement for principals. A
principal holds a sequence of identities, and several identities are
flattened into one on the way back (`MultipleIdentitiesFlattened`).

A claim's ValueType is never null or empty, because the constructor replaces
both; the model's `SecurityClaims.ValueType` type says so. A record whose
ValueType is empty therefore reads back with the string value type and is not
written out unchanged, which the record round-trip lemmas take into account.

## Model

| member | source | states |
|---|---|---|
| `ClaimConverter.DecodeClaim` | src/Storage/src/Stores/Serialization/ClaimConverter.cs:16-21 | Read succeeds exactly when the record's Type and Value are non-null. A null Type throws for `type` and a null Value for `value`. The claim's Type and Value are the record's, and its ValueType is the record's or the string value type when that is null or empty. It carries nothing beyond that triple. |
| `ClaimConverter.EncodeClaim` | src/Storage/src/Stores/Serialization/ClaimConverter.cs:23-30 | Write copies Type, Value and ValueType into the record unchanged, leaves no field null, and reading the record back gives the claim's canonical form. |
| `ClaimConverter.ClaimRoundTrip` | src/Storage/src/Stores/Serialization/ClaimConverter.cs:16-33 | Reading back a written claim always succeeds with the same Type, Value and ValueType. It gives back the very claim if and only if the claim had the default issuers and no properties. |
| `ClaimConverter.LiteRoundTrip` | src/Storage/src/Stores/Serialization/ClaimConverter.cs:18-30 | A record with no null field and a non-empty ValueType reads back and is written out again unchanged. Conversely, a record that reads back and is written out unchanged had no null field and a non-empty ValueType. |
| `ClaimConverter.OnlyTripleStored` | src/Storage/src/Stores/Serialization/ClaimConverter.cs:20-30 | Two claims get the same record if and only if they agree on Type, Value and ValueType. Claims that differ only in issuer or properties read back identically. |
| `SecurityClaims.AllClaims` | src/Storage/src/Stores/Serialization/ClaimsPrincipalConverter.cs:32 | The principal's claims include every claim of every identity and nothing that is not a claim of some identity. |
| `SecurityClaims.AllClaimsAppend` | src/Storage/src/Stores/Serialization/ClaimsPrincipalConverter.cs:32 | The claims of earlier identities come before those of later ones, in each identity's own order. |
| `SecurityClaims.AllClaimsSingle` | src/Storage/src/Stores/Serialization/ClaimsPrincipalConverter.cs:32 | A one-identity principal's claims are exactly that identity's claims, in order. |
| `ClaimsPrincipalConverter.EncodeClaims` | src/Storage/src/Stores/Serialization/ClaimsPrincipalConverter.cs:32 | The claims are mapped to exactly one record each, with the same count and order, and the i-th record is the write of the i-th claim. |
| `ClaimsPrincipalConverter.DecodeClaims` | src/Storage/src/Stores/Serialization/ClaimsPrincipalConverter.cs:22-23 | Reading the records succeeds exactly when every record reads. On success the i-th claim is the read of the i-th record, with the same count. On failure the error is that of the first record whose read throws. |
| `ClaimsPrincipalConverter.EncodePrincipal` | src/Storage/src/Stores/Serialization/ClaimsPrincipalConverter.cs:27-33 | Write throws a null reference exactly when the principal has no identity. Otherwise the record has the primary identity's AuthenticationType, a non-null claims array, and one record per claim of the principal, in order. |
| `ClaimsPrincipalConverter.DecodePrincipal` | src/Storage/src/Stores/Serialization/ClaimsPrincipalConverter.cs:18-24 | A null claims array throws for `source`. Read succeeds exactly when the array is non-null and every record reads. Otherwise it throws the exception of the first record whose read throws. The result has exactly one identity, with the record's AuthenticationType and name and role claim types `name` and `role`, and one claim per record, in order, each read from that record. |
| `ClaimsPrincipalConverter.PrincipalRoundTrip` | src/Storage/src/Stores/Serialization/ClaimsPrincipalConverter.cs:18-36 | Writing a principal with an identity and reading it back succeeds. The result is one identity with the primary AuthenticationType, types `name` and `role`, and all claims of all identities, in order, each reduced to its triple. |
| `ClaimsPrincipalConverter.SingleIdentityRoundTrip` | src/Storage/src/Stores/Serialization/ClaimsPrincipalConverter.cs:18-36 | A one-identity principal comes back with the same AuthenticationType and the same number of claims. The claims keep their order, and each has the same Type, Value and ValueType. |
| `ClaimsPrincipalConverter.EmptyClaimsRoundTrip` | src/Storage/src/Stores/Serialization/ClaimsPrincipalConverter.cs:18-36 | A one-identity principal without claims comes back as one identity without claims, with the same AuthenticationType. |
| `ClaimsPrincipalConverter.ExactRoundTrip` | src/Storage/src/Stores/Serialization/ClaimsPrincipalConverter.cs:18-36 | A principal comes back unchanged if and only if three things hold. It has one identity. That identity's name and role claim types are `name` and `role`. Each of its claims carries nothing beyond its triple. |
| `ClaimsPrincipalConverter.MultipleIdentitiesFlattened` | src/Storage/src/Stores/Serialization/ClaimsPrincipalConverter.cs:23-32 | A principal with several identities comes back as one identity with only the primary identity's AuthenticationType. Its claims are those of the earlier identities followed by those of the later ones, each reduced to its triple. |
| `ClaimsPrincipalConverter.EncodeClaimsCountOfType` | src/Storage/src/Stores/Serialization/ClaimsPrincipalConverter.cs:32 | For every claim type, writing keeps how many entries have that type. |
| `ClaimsPrincipalConverter.CanonicalClaimsCountOfType` | src/Storage/src/Stores/Serialization/ClaimsPrincipalConverter.cs:22 | For every claim type, reducing claims to their triples on read keeps how many claims have that type. |
| `ClaimsPrincipalConverter.DuplicateTypesKept` | src/Storage/src/Stores/Serialization/ClaimsPrincipalConverter.cs:22-32 | Claims that share a type stay separate entries. The record and the read-back principal have as many claims of each type as the original principal. |
| `ClaimsPrincipalConverter.LitePrincipalRoundTrip` | src/Storage/src/Stores/Serialization/ClaimsPrincipalConverter.cs:18-33 | A record with a claims array whose entries have no null field and a non-empty ValueType reads back and is written out again unchanged. Conversely, a record that reads back and is written out unchanged had such a claims array. |

## Left out

- JSON text: `JsonSerializer.Serialize`/`Deserialize` with `Utf8JsonReader` and `Utf8JsonWriter` (ClaimConverter.cs:18, :32; ClaimsPrincipalConverter.cs:20, :35) is library I/O. The model starts and ends at the record values. The `ClaimLite` and `ClaimsPrincipalLite` classes are not part of this model; their fields are taken from how the converters use them.
- A JSON `null` inside the claims array, which makes the read throw a null reference exception, is not modelled: the claims array is a sequence of records.
- A custom `ClaimsPrincipal.PrimaryIdentitySelector` and Windows identities (which the default selector prefers) are not modelled: the primary identity is the first identity.
- `Claim.Subject` (the back reference a claim gets when added to an identity) and the identity's Actor, Label and BootstrapContext are not modelled. The converters neither write nor restore them.
- `CustomJwtPayload` only passes its arguments to the library `JwtPayload` and serializes through `JsonSerializer`. The claim merging and overwriting its comments describe happen in that library, which is not part of this model.
- The integration tests (`CustomTokenResponseClients`, `CustomTokenRequestValidatorClient`) and the test clock `StubClock` drive HTTP and time through libraries and hold no codec logic.
- Token request validation, grant validators, token issuance and the persisted grant store are not part of this model; their source is not part of it either.
