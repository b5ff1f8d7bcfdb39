/**
 The session token on the server: an Ed25519 JSON Web Token of exactly 600 seconds, bound to a key thumbprint.
 Instants are nanoseconds since 1970 on an unbounded axis.
 */
module SessionToken {
  import opened Prelude
  import opened Base64Url
  import opened CompactToken
  import opened JsonText
  import opened JsonScanner
  import Crypto

  const SECOND := 1_000_000_000
  const LIFETIME := 600 * SECOND
  /** The instant of Go's zero `time.Time`, the start of year 1. */
  const ZERO_TIME := -62_135_596_800 * SECOND

  datatype Policy = Policy(keyId: string, applicationId: string, productId: string,
                           issuer: string, audience: string, product: string)

  datatype Proof = Proof(sessionId: string, tokenId: string, thumbprint: string, notBefore: int)

  /** `features` is absent for a nil slice. */
  datatype Claims = Claims(
    applicationId: string, productId: string, proof: Option<Proof>, subject: string, licenseId: string,
    deviceId: string, product: string, features: Option<seq<string>>, issuer: string, audience: string,
    issuedAt: int, expiresAt: int)

  datatype Libraries = Libraries(json: JsonLibrary, crypto: Crypto.Library)

  ghost predicate LawfulLibraries(libs: Libraries) {
    JsonText.Lawful(libs.json) && Crypto.Lawful(libs.crypto)
  }

  // ---- Claim checks ----

  /** `validCanonicalRandom`. */
  predicate CanonicalRandom(value: string, size: nat) {
    GoSegment(value).Some? && |GoSegment(value).value| == size
  }

  predicate ValidClaims(claims: Claims, policy: Policy, now: int) {
    && claims.proof.Some?
    && var proof := claims.proof.value;
    && claims.applicationId == policy.applicationId
    && claims.productId == policy.productId
    && proof.sessionId != ""
    && CanonicalRandom(proof.tokenId, 16)
    && CanonicalRandom(proof.thumbprint, 32)
    && proof.notBefore == claims.issuedAt
    && claims.issuedAt % SECOND == 0
    && claims.expiresAt % SECOND == 0
    && claims.subject != "" && claims.licenseId != "" && claims.deviceId != ""
    && claims.issuer == policy.issuer && claims.audience == policy.audience && claims.product == policy.product
    && claims.issuedAt != ZERO_TIME && claims.expiresAt != ZERO_TIME
    && !(claims.issuedAt > now)
    && claims.expiresAt > now
    && claims.expiresAt > claims.issuedAt
    && claims.expiresAt - claims.issuedAt == LIFETIME
  }

  // ---- The wire form ----

  /** `time.Time.Unix`: whole seconds, rounded down. */
  function Unix(instant: int): int {
    instant / SECOND
  }

  function HeaderJson(keyId: string): Json {
    Object(map["kid" := Text(keyId), "alg" := Text("EdDSA"), "typ" := Text("JWT")])
  }

  function Texts(values: seq<string>): seq<Json> {
    seq(|values|, i requires 0 <= i < |values| => Text(values[i]))
  }

  function FeaturesJson(features: Option<seq<string>>): Json {
    match features case None => Null case Some(values) => Array(Texts(values))
  }

  /** `claimsToWire` and its marshalling. */
  function ClaimsJson(claims: Claims): Json
    requires claims.proof.Some?
  {
    var proof := claims.proof.value;
    Object(map[
      "app" := Text(claims.applicationId),
      "product_id" := Text(claims.productId),
      "sid" := Text(proof.sessionId),
      "jti" := Text(proof.tokenId),
      "nbf" := Integer(Unix(proof.notBefore)),
      "cnf" := Object(map["jkt" := Text(proof.thumbprint)]),
      "sub" := Text(claims.subject),
      "license_id" := Text(claims.licenseId),
      "device_id" := Text(claims.deviceId),
      "product" := Text(claims.product),
      "features" := FeaturesJson(claims.features),
      "iss" := Text(claims.issuer),
      "aud" := Text(claims.audience),
      "iat" := Integer(Unix(claims.issuedAt)),
      "exp" := Integer(Unix(claims.expiresAt))])
  }

  // Reading a JSON value into a Go struct: a missing or null member leaves the field at its zero value, an
  // unknown member or one of another kind is an error.

  type Members = map<string, Json>

  function MembersOf(j: Json, known: set<string>): Option<Members> {
    match j
    case Null => Some(map[])
    case Object(members) => if members.Keys <= known then Some(members) else None
    case _ => None
  }

  function TextField(members: Members, name: string): Option<string> {
    if name !in members then Some("") else
    match members[name]
    case Null => Some("")
    case Text(text) => Some(text)
    case _ => None
  }

  function IntField(members: Members, name: string): Option<int> {
    if name !in members then Some(0) else
    match members[name]
    case Null => Some(0)
    case Integer(n) => if -INT64_LIMIT <= n < INT64_LIMIT then Some(n) else None
    case _ => None
  }

  function TextOrNull(j: Json): Option<string> {
    match j case Null => Some("") case Text(text) => Some(text) case _ => None
  }

  function ListField(members: Members, name: string): Option<Option<seq<string>>> {
    if name !in members then Some(None) else
    match members[name]
    case Null => Some(None)
    case Array(items) =>
      if exists i :: 0 <= i < |items| && TextOrNull(items[i]).None? then None
      else Some(Some(seq(|items|, i requires 0 <= i < |items|
          && TextOrNull(items[i]).Some? => TextOrNull(items[i]).value)))
    case _ => None
  }

  datatype Header = Header(keyId: string, algorithm: string, kind: string)

  function ReadHeader(j: Json): Option<Header> {
    var members :- MembersOf(j, {"kid", "alg", "typ"});
    var keyId :- TextField(members, "kid");
    var algorithm :- TextField(members, "alg");
    var kind :- TextField(members, "typ");
    Some(Header(keyId, algorithm, kind))
  }

  const CLAIM_NAMES := {"app", "product_id", "sid", "jti", "nbf", "cnf", "sub", "license_id", "device_id",
                        "product", "features", "iss", "aud", "iat", "exp"}

  /** Unmarshalling and `wireToClaims`. */
  function ReadClaims(j: Json): Option<Claims> {
    var members :- MembersOf(j, CLAIM_NAMES);
    var applicationId :- TextField(members, "app");
    var productId :- TextField(members, "product_id");
    var sessionId :- TextField(members, "sid");
    var tokenId :- TextField(members, "jti");
    var notBefore :- IntField(members, "nbf");
    var confirmation :- MembersOf(if "cnf" in members then members["cnf"] else Null, {"jkt"});
    var thumbprint :- TextField(confirmation, "jkt");
    var subject :- TextField(members, "sub");
    var licenseId :- TextField(members, "license_id");
    var deviceId :- TextField(members, "device_id");
    var product :- TextField(members, "product");
    var features :- ListField(members, "features");
    var issuer :- TextField(members, "iss");
    var audience :- TextField(members, "aud");
    var issuedAt :- IntField(members, "iat");
    var expiresAt :- IntField(members, "exp");
    Some(Claims(applicationId, productId, Some(Proof(sessionId, tokenId, thumbprint, notBefore * SECOND)),
                subject, licenseId, deviceId, product, features, issuer, audience,
                issuedAt * SECOND, expiresAt * SECOND))
  }

  // ---- Issuing and verifying ----

  function Issue(libs: Libraries, privateKey: seq<Byte>, policy: Policy, claims: Claims, now: int): Option<string> {
    if !ValidClaims(claims, policy, now) then None
    else
      var header := libs.json.goPrint(HeaderJson(policy.keyId));
      var payload := libs.json.goPrint(ClaimsJson(claims));
      var signingInput := Encode(header) + "." + Encode(payload);
      Some(signingInput + "." + Encode(libs.crypto.edSign(privateKey, signingInput)))
  }

  /** The header segment names the algorithm, the type and the policy's key. */
  predicate HeaderAccepted(libs: Libraries, policy: Policy, segment: string) {
    var header := (
      var bytes :- GoSegment(segment);
      var json :- libs.json.goParse(bytes);
      ReadHeader(json));
    header == Some(Header(policy.keyId, "EdDSA", "JWT"))
  }

  predicate SignatureAccepted(libs: Libraries, publicKey: seq<Byte>, signingInput: string, segment: string) {
    match GoSegment(segment)
    case None => false
    case Some(signature) => |signature| == 64 && libs.crypto.edVerify(publicKey, signingInput, signature)
  }

  function ReadPayload(libs: Libraries, segment: string): Option<Claims> {
    var bytes :- GoSegment(segment);
    var json :- libs.json.goParse(bytes);
    ReadClaims(json)
  }

  function Verify(libs: Libraries, publicKey: seq<Byte>, policy: Policy, token: string, now: int): Option<Claims> {
    var parts := Split(token);
    if |token| == 0 || |token| > MAX_TOKEN_BYTES || |parts| != 3 then None
    else if !HeaderAccepted(libs, policy, parts[0]) then None
    else if !SignatureAccepted(libs, publicKey, parts[0] + "." + parts[1], parts[2]) then None
    else
      var claims :- ReadPayload(libs, parts[1]);
      if ValidClaims(claims, policy, now) then Some(claims) else None
  }

  // ---- What the window is ----

  /** Everything `ValidClaims` asks apart from the clock. */
  predicate Acceptable(claims: Claims, policy: Policy) {
    ValidClaims(claims, policy, claims.issuedAt)
  }

  /** The clock enters only through the half-open window from issue to expiry. */
  lemma WindowIsHalfOpen(claims: Claims, policy: Policy, now: int)
    ensures ValidClaims(claims, policy, now)
       <==> Acceptable(claims, policy) && claims.issuedAt <= now < claims.expiresAt
  {
    hide CanonicalRandom;
  }

  /** Instants as a Go `time.Time` holds them: whole seconds within 64 bits. */
  predicate Representable(claims: Claims) {
    -INT64_LIMIT <= Unix(claims.issuedAt) < INT64_LIMIT && -INT64_LIMIT <= Unix(claims.expiresAt) < INT64_LIMIT
  }

  lemma TextsReadBack(values: seq<string>, members: Members)
    requires "features" in members && members["features"] == FeaturesJson(Some(values))
    ensures ListField(members, "features") == Some(Some(values))
  {
    var items := Texts(values);
    assert forall i :: 0 <= i < |items| ==> TextOrNull(items[i]) == Some(values[i]);
    assert seq(|items|, i requires 0 <= i < |items| && TextOrNull(items[i]).Some? => TextOrNull(items[i]).value)
        == values;
  }

  predicate Has(members: Members, name: string, value: Json) {
    name in members && members[name] == value
  }

  /** Every claim stands under its name. */
  ghost predicate Carries(members: Members, claims: Claims)
    requires claims.proof.Some?
  {
    CarriesProof(members, claims) && CarriesNames(members, claims)
  }

  ghost predicate CarriesProof(members: Members, claims: Claims)
    requires claims.proof.Some?
  {
    var proof := claims.proof.value;
    && Has(members, "sid", Text(proof.sessionId))
    && Has(members, "jti", Text(proof.tokenId))
    && Has(members, "nbf", Integer(Unix(proof.notBefore)))
    && Has(members, "cnf", Object(map["jkt" := Text(proof.thumbprint)]))
    && Has(members, "iat", Integer(Unix(claims.issuedAt)))
    && Has(members, "exp", Integer(Unix(claims.expiresAt)))
    && Has(members, "features", FeaturesJson(claims.features))
  }

  ghost predicate CarriesNames(members: Members, claims: Claims) {
    && Has(members, "app", Text(claims.applicationId))
    && Has(members, "product_id", Text(claims.productId))
    && Has(members, "sub", Text(claims.subject))
    && Has(members, "license_id", Text(claims.licenseId))
    && Has(members, "device_id", Text(claims.deviceId))
    && Has(members, "product", Text(claims.product))
    && Has(members, "iss", Text(claims.issuer))
    && Has(members, "aud", Text(claims.audience))
  }

  lemma ClaimsJsonCarriesProof(claims: Claims)
    requires claims.proof.Some?
    ensures CarriesProof(ClaimsJson(claims).members, claims)
  {
    hide FeaturesJson, Unix;
  }

  lemma ClaimsJsonCarriesNames(claims: Claims)
    requires claims.proof.Some?
    ensures CarriesNames(ClaimsJson(claims).members, claims)
  {
    hide FeaturesJson, Unix;
  }

  lemma ClaimsJsonCarries(claims: Claims)
    requires claims.proof.Some?
    ensures Carries(ClaimsJson(claims).members, claims)
  {
    hide ClaimsJson, CarriesProof, CarriesNames;
    ClaimsJsonCarriesProof(claims);
    ClaimsJsonCarriesNames(claims);
  }

  lemma ClaimNames(claims: Claims)
    requires claims.proof.Some?
    ensures MembersOf(ClaimsJson(claims), CLAIM_NAMES) == Some(ClaimsJson(claims).members)
  {
  }

  lemma HasText(members: Members, name: string, text: string)
    requires Has(members, name, Text(text))
    ensures TextField(members, name) == Some(text)
  {
  }

  lemma HasInteger(members: Members, name: string, n: int)
    requires Has(members, name, Integer(n)) && -INT64_LIMIT <= n < INT64_LIMIT
    ensures IntField(members, name) == Some(n)
  {
  }

  lemma HasFeatures(members: Members, features: Option<seq<string>>)
    requires Has(members, "features", FeaturesJson(features))
    ensures ListField(members, "features") == Some(features)
  {
    if features.Some? {
      TextsReadBack(features.value, members);
    }
  }

  lemma HasThumbprint(members: Members, thumbprint: string)
    requires Has(members, "cnf", Object(map["jkt" := Text(thumbprint)]))
    ensures var confirmation := MembersOf(if "cnf" in members then members["cnf"] else Null, {"jkt"});
            confirmation.Some? && TextField(confirmation.value, "jkt") == Some(thumbprint)
  {
  }

  lemma WholeSeconds(instant: int)
    requires instant % SECOND == 0
    ensures Unix(instant) * SECOND == instant
  {
  }

  lemma ClaimsReadBack(claims: Claims, policy: Policy)
    requires Acceptable(claims, policy) && Representable(claims)
    ensures ReadClaims(ClaimsJson(claims)) == Some(claims)
  {
    var members := ClaimsJson(claims).members;
    var proof := claims.proof.value;
    ClaimsJsonCarries(claims);
    ClaimNames(claims);
    hide ClaimsJson, CanonicalRandom, MembersOf, TextField, IntField, ListField, FeaturesJson, Has;
    HasText(members, "app", claims.applicationId);
    HasText(members, "product_id", claims.productId);
    HasText(members, "sid", proof.sessionId);
    HasText(members, "jti", proof.tokenId);
    HasInteger(members, "nbf", Unix(proof.notBefore));
    HasThumbprint(members, proof.thumbprint);
    HasText(members, "sub", claims.subject);
    HasText(members, "license_id", claims.licenseId);
    HasText(members, "device_id", claims.deviceId);
    HasText(members, "product", claims.product);
    HasFeatures(members, claims.features);
    HasText(members, "iss", claims.issuer);
    HasText(members, "aud", claims.audience);
    HasInteger(members, "iat", Unix(claims.issuedAt));
    HasInteger(members, "exp", Unix(claims.expiresAt));
    WholeSeconds(claims.issuedAt);
    WholeSeconds(claims.expiresAt);
  }

  // ---- Issue, then verify ----

  lemma ClaimsArePlain(claims: Claims)
    requires claims.proof.Some? && claims.proof.value.notBefore == claims.issuedAt && Representable(claims)
    ensures Plain(ClaimsJson(claims), MAX_DEPTH)
  {
    var members := ClaimsJson(claims).members;
    forall name | name in members
      ensures Plain(members[name], MAX_DEPTH - 1)
    {
      FeaturesArePlain(claims.features);
    }
  }

  lemma FeaturesArePlain(features: Option<seq<string>>)
    ensures Plain(FeaturesJson(features), MAX_DEPTH - 1)
  {
  }

  lemma HeaderReadBack(keyId: string)
    ensures Plain(HeaderJson(keyId), MAX_DEPTH)
    ensures ReadHeader(HeaderJson(keyId)) == Some(Header(keyId, "EdDSA", "JWT"))
  {
  }

  function TokenHeader(libs: Libraries, keyId: string): seq<Byte> {
    libs.json.goPrint(HeaderJson(keyId))
  }

  function TokenPayload(libs: Libraries, claims: Claims): seq<Byte>
    requires claims.proof.Some?
  {
    libs.json.goPrint(ClaimsJson(claims))
  }

  /** An issued token is the compact form of its header, its claims and a signature of 64 bytes over both. */
  lemma IssuedParts(libs: Libraries, privateKey: seq<Byte>, policy: Policy, claims: Claims, issuedAt: int)
    requires LawfulLibraries(libs) && Issue(libs, privateKey, policy, claims, issuedAt).Some? && Representable(claims)
    ensures var token := Issue(libs, privateKey, policy, claims, issuedAt).value;
            var h, p := TokenHeader(libs, policy.keyId), TokenPayload(libs, claims);
            var input := Encode(h) + "." + Encode(p);
            var signature := libs.crypto.edSign(privateKey, input);
            && token == Compact(Parts(h, p, signature))
            && Split(token) == [Encode(h), Encode(p), Encode(signature)]
            && h != [] && p != [] && |signature| == 64
            && libs.crypto.edVerify(libs.crypto.edPublic(privateKey), input, signature)
  {
    hide CanonicalRandom, ClaimsJson, Encode, Plain, UniqueMembers;
    var h, p := TokenHeader(libs, policy.keyId), TokenPayload(libs, claims);
    var signature := libs.crypto.edSign(privateKey, Encode(h) + "." + Encode(p));
    HeaderReadBack(policy.keyId);
    ClaimsArePlain(claims);
    hide HeaderJson, ValidClaims, Representable;
    PrintedPassesScan(libs.json, h, HeaderJson(policy.keyId));
    PrintedPassesScan(libs.json, p, ClaimsJson(claims));
    SplitEncoded(h, p, signature);
  }

  lemma SplitEncoded(h: seq<Byte>, p: seq<Byte>, g: seq<Byte>)
    ensures Split(Encode(h) + "." + Encode(p) + "." + Encode(g)) == [Encode(h), Encode(p), Encode(g)]
  {
    DigitsAreOrdinary(Encode(h));
    DigitsAreOrdinary(Encode(p));
    DigitsAreOrdinary(Encode(g));
    SplitThree(Encode(h) + "." + Encode(p) + "." + Encode(g), Encode(h), Encode(p), Encode(g));
  }

  /** The verifier on a token whose parts decode and whose signature holds: only the claims are left to judge. */
  lemma VerifyOfParts(libs: Libraries, publicKey: seq<Byte>, policy: Policy, token: string, now: int,
                      parts: Parts, headerJson: Json, claimsJson: Json, claims: Claims)
    requires Split(token) == [Encode(parts.header), Encode(parts.payload), Encode(parts.signature)] && token != ""
    requires libs.json.goParse(parts.header) == Some(headerJson)
    requires ReadHeader(headerJson) == Some(Header(policy.keyId, "EdDSA", "JWT"))
    requires libs.json.goParse(parts.payload) == Some(claimsJson) && ReadClaims(claimsJson) == Some(claims)
    requires |parts.signature| == 64 && libs.crypto.edVerify(publicKey, SigningInput(parts), parts.signature)
    ensures Verify(libs, publicKey, policy, token, now)
         == if |token| <= MAX_TOKEN_BYTES && ValidClaims(claims, policy, now) then Some(claims) else None
  {
    hide ReadClaims, ReadHeader, ValidClaims, Encode, Split, GoSegment;
    GoSegmentExact(Encode(parts.header), parts.header);
    GoSegmentExact(Encode(parts.payload), parts.payload);
    GoSegmentExact(Encode(parts.signature), parts.signature);
    assert HeaderAccepted(libs, policy, Encode(parts.header));
    assert SignatureAccepted(libs, publicKey, SigningInput(parts), Encode(parts.signature));
    assert ReadPayload(libs, Encode(parts.payload)) == Some(claims);
    hide HeaderAccepted, SignatureAccepted, ReadPayload;
  }

  /**
   The round trip. The verifier accepts an issued token, and returns the very claims it was issued for, exactly
   when the token fits the size cap and the clock stands in the half-open window from issue to expiry.
   */
  lemma VerifyIssued(libs: Libraries, privateKey: seq<Byte>, policy: Policy, claims: Claims, issuedAt: int, now: int)
    requires LawfulLibraries(libs) && Issue(libs, privateKey, policy, claims, issuedAt).Some? && Representable(claims)
    ensures var token := Issue(libs, privateKey, policy, claims, issuedAt).value;
            Verify(libs, libs.crypto.edPublic(privateKey), policy, token, now)
            == if |token| <= MAX_TOKEN_BYTES && claims.issuedAt <= now < claims.expiresAt then Some(claims) else None
  {
    var token := Issue(libs, privateKey, policy, claims, issuedAt).value;
    var h, p := TokenHeader(libs, policy.keyId), TokenPayload(libs, claims);
    var parts := Parts(h, p, libs.crypto.edSign(privateKey, Encode(h) + "." + Encode(p)));
    IssuedParts(libs, privateKey, policy, claims, issuedAt);
    WindowIsHalfOpen(claims, policy, issuedAt);
    WindowIsHalfOpen(claims, policy, now);
    HeaderReadBack(policy.keyId);
    ClaimsArePlain(claims);
    ClaimsReadBack(claims, policy);
    hide ClaimsJson, ReadClaims, HeaderJson, ReadHeader, ValidClaims, Encode, Plain, Split, Issue, PrintsDocument,
         Verify;
    VerifyOfParts(libs, libs.crypto.edPublic(privateKey), policy, token, now, parts,
                  HeaderJson(policy.keyId), ClaimsJson(claims), claims);
  }
}
