/** The client's check of a session token, and its agreement with the server that issued it. */
module SessionTokenClient {
  import opened Prelude
  import opened Base64Url
  import opened CompactToken
  import opened JsonText
  import opened JsonScanner
  import opened SessionToken
  import Crypto

  const MAX_CLOCK_SKEW_SECONDS := 60
  const REQUIRED_LIFETIME_SECONDS := 600

  datatype Config = Config(keys: map<string, seq<Byte>>, issuer: string, audience: string,
                           applicationId: string, productId: string, product: string)

  /** `expiresAt` in seconds since 1970. */
  datatype VerifiedSession = VerifiedSession(expiresAt: int, sessionId: string, tokenId: string, thumbprint: string)

  datatype Expected = Expected(device: string, license: string)

  predicate ValidKeyId(keyId: string) {
    && keyId != ""
    && forall c :: c in keyId ==>
         'A' <= c <= 'Z' || 'a' <= c <= 'z' || '0' <= c <= '9' || c == '.' || c == '_' || c == '-'
  }

  predicate Configured(crypto: Crypto.Library, config: Config) {
    && config.keys != map[]
    && !crypto.blank(config.issuer) && !crypto.blank(config.audience) && !crypto.blank(config.applicationId)
    && !crypto.blank(config.productId) && !crypto.blank(config.product)
    && forall keyId :: keyId in config.keys ==> ValidKeyId(keyId) && |config.keys[keyId]| == 32
  }

  function StringClaim(members: Members, name: string): Option<string> {
    if name !in members then None else
    match members[name]
    case Text(text) => if text == "" then None else Some(text)
    case _ => None
  }

  /** A non-negative integral double below 2^63; the cast of 2^63 itself is not defined and is refused here. */
  function IntegerClaim(lib: JsonLibrary, members: Members, name: string): Option<int> {
    if name !in members then None else
    match members[name]
    case Integer(n) => Integral(lib.nearest(n))
    case Decimal(r) => Integral(r)
    case _ => None
  }

  function Integral(number: real): Option<int> {
    if number < 0.0 || number >= INT64_LIMIT as real || number.Floor as real != number then None
    else Some(number.Floor)
  }

  /** The key identifier of a header of exactly the three expected members. */
  function HeaderKey(header: Members): Option<string> {
    if |header| != 3 || "alg" !in header || "typ" !in header || "kid" !in header then None
    else if header["alg"] != Text("EdDSA") || header["typ"] != Text("JWT") then None
    else match header["kid"] case Text(keyId) => Some(keyId) case _ => None
  }

  datatype Read = Read(issuer: string, audience: string, subject: string, applicationId: string, productId: string,
                       product: string, license: string, device: string, sessionId: string, tokenId: string,
                       issuedAt: int, notBefore: int, expiresAt: int, thumbprint: string)

  function Thumbprint(members: Members): Option<string> {
    if "cnf" !in members || !members["cnf"].Object? then None
    else
      var thumbprint :- StringClaim(members["cnf"].members, "jkt");
      var bytes :- QtSegment(thumbprint);
      if |bytes| == 32 then Some(thumbprint) else None
  }

  predicate TextList(members: Members, name: string) {
    && name in members && members[name].Array?
    && forall i :: 0 <= i < |members[name].items| ==> members[name].items[i].Text?
  }

  function ReadSession(lib: JsonLibrary, members: Members): Option<Read> {
    var issuer :- StringClaim(members, "iss");
    var audience :- StringClaim(members, "aud");
    var subject :- StringClaim(members, "sub");
    var applicationId :- StringClaim(members, "app");
    var productId :- StringClaim(members, "product_id");
    var product :- StringClaim(members, "product");
    var license :- StringClaim(members, "license_id");
    var device :- StringClaim(members, "device_id");
    var sessionId :- StringClaim(members, "sid");
    var tokenId :- StringClaim(members, "jti");
    var issuedAt :- IntegerClaim(lib, members, "iat");
    var notBefore :- IntegerClaim(lib, members, "nbf");
    var expiresAt :- IntegerClaim(lib, members, "exp");
    if !TextList(members, "features") then None
    else
      var thumbprint :- Thumbprint(members);
      Some(Read(issuer, audience, subject, applicationId, productId, product, license, device, sessionId, tokenId,
                issuedAt, notBefore, expiresAt, thumbprint))
  }

  predicate PolicyAccepts(config: Config, read: Read, expected: Expected, now: int) {
    && read.issuer == config.issuer && read.audience == config.audience
    && read.applicationId == config.applicationId && read.productId == config.productId
    && read.product == config.product && read.license == expected.license && read.device == expected.device
    && read.issuedAt <= now + MAX_CLOCK_SKEW_SECONDS
    && read.notBefore <= now + MAX_CLOCK_SKEW_SECONDS && read.expiresAt > now
    && read.expiresAt > read.issuedAt && read.expiresAt - read.issuedAt == REQUIRED_LIFETIME_SECONDS
    && read.notBefore <= read.expiresAt
  }

  /** A segment that decodes to an object without repeated members. */
  function ObjectSegment(lib: JsonLibrary, segment: string): Option<Members> {
    var bytes :- QtSegment(segment);
    if !UniqueMembers(lib.unquote, Chars(bytes)) then None
    else
      var json :- lib.qtParse(bytes);
      if json.Object? then Some(json.members) else None
  }

  predicate KeyVerifies(libs: Libraries, config: Config, keyId: string, signingInput: string, segment: string) {
    && QtSegment(segment).Some? && |QtSegment(segment).value| == 64
    && keyId in config.keys
    && libs.crypto.edVerify(config.keys[keyId], signingInput, QtSegment(segment).value)
  }

  /** `SessionTokenVerifier::verify`; `now` in seconds since 1970. */
  function VerifyOnClient(libs: Libraries, config: Config, token: string, expected: Expected, now: int)
    : Option<VerifiedSession>
  {
    var parts := Split(token);
    if !Configured(libs.crypto, config) || |token| > MAX_TOKEN_BYTES || |parts| != 3
       || expected.device == "" || expected.license == "" then None
    else
      var header :- ObjectSegment(libs.json, parts[0]);
      var payload :- ObjectSegment(libs.json, parts[1]);
      var keyId :- HeaderKey(header);
      if !KeyVerifies(libs, config, keyId, parts[0] + "." + parts[1], parts[2]) then None
      else
        var read :- ReadSession(libs.json, payload);
        if PolicyAccepts(config, read, expected, now)
        then Some(VerifiedSession(read.expiresAt, read.sessionId, read.tokenId, read.thumbprint))
        else None
  }

  // ---- What the client reads of an issued token ----

  lemma HeaderNamesKey(keyId: string)
    ensures HeaderKey(HeaderJson(keyId).members) == Some(keyId)
  {
    assert HeaderJson(keyId).members.Keys == {"kid", "alg", "typ"};
  }

  lemma PrintedSegment(lib: JsonLibrary, j: Json)
    requires JsonText.Lawful(lib) && Plain(j, MAX_DEPTH) && j.Object?
    ensures ObjectSegment(lib, Encode(lib.goPrint(j))) == Some(j.members)
  {
    var bytes := lib.goPrint(j);
    hide Plain, UniqueMembers, QtSegment, Encode, PrintsDocument;
    PrintedPassesScan(lib, bytes, j);
    QtSegmentExact(Encode(bytes), bytes);
  }

  lemma ReadsText(members: Members, name: string, text: string)
    requires Has(members, name, Text(text)) && text != ""
    ensures StringClaim(members, name) == Some(text)
  {
  }

  lemma ReadsInteger(lib: JsonLibrary, members: Members, name: string, n: int)
    requires JsonText.Lawful(lib) && Has(members, name, Integer(n)) && -EXACT <= n <= EXACT
    ensures IntegerClaim(lib, members, name) == if n >= 0 then Some(n) else None
  {
  }

  lemma ReadsThumbprint(members: Members, thumbprint: string)
    requires Has(members, "cnf", Object(map["jkt" := Text(thumbprint)])) && CanonicalRandom(thumbprint, 32)
    ensures Thumbprint(members) == Some(thumbprint)
  {
    hide GoSegment, QtSegment;
    var bytes := GoSegment(thumbprint).value;
    GoSegmentExact(thumbprint, bytes);
    QtSegmentExact(thumbprint, bytes);
    assert thumbprint != "";
  }

  lemma ReadsFeatures(members: Members, features: Option<seq<string>>)
    requires Has(members, "features", FeaturesJson(features))
    ensures TextList(members, "features") <==> features.Some?
  {
  }

  function AsRead(claims: Claims): Read
    requires claims.proof.Some?
  {
    var proof := claims.proof.value;
    Read(claims.issuer, claims.audience, claims.subject, claims.applicationId, claims.productId, claims.product,
         claims.licenseId, claims.deviceId, proof.sessionId, proof.tokenId,
         Unix(claims.issuedAt), Unix(proof.notBefore), Unix(claims.expiresAt), proof.thumbprint)
  }

  predicate NoEmptyNames(policy: Policy) {
    policy.issuer != "" && policy.audience != "" && policy.applicationId != "" && policy.productId != ""
    && policy.product != ""
  }

  lemma TokenIdNotEmpty(value: string)
    requires CanonicalRandom(value, 16)
    ensures |value| == 22
  {
    GoSegmentExact(value, GoSegment(value).value);
  }

  /** Instants whose seconds are doubles, as the client reads them. */
  predicate ExactTimes(claims: Claims) {
    -EXACT <= Unix(claims.issuedAt) <= EXACT && -EXACT <= Unix(claims.expiresAt) <= EXACT
  }

  lemma ReadsClaims(lib: JsonLibrary, claims: Claims, policy: Policy)
    requires JsonText.Lawful(lib) && Acceptable(claims, policy) && ExactTimes(claims) && NoEmptyNames(policy)
    ensures ReadSession(lib, ClaimsJson(claims).members)
         == if Unix(claims.issuedAt) >= 0 && claims.features.Some? then Some(AsRead(claims)) else None
  {
    var members := ClaimsJson(claims).members;
    var proof := claims.proof.value;
    ClaimsJsonCarries(claims);
    hide ClaimsJson, CanonicalRandom, StringClaim, IntegerClaim, TextList, Thumbprint, FeaturesJson, Has,
         JsonText.Lawful;
    TokenIdNotEmpty(proof.tokenId);
    ReadsText(members, "iss", claims.issuer);
    ReadsText(members, "aud", claims.audience);
    ReadsText(members, "sub", claims.subject);
    ReadsText(members, "app", claims.applicationId);
    ReadsText(members, "product_id", claims.productId);
    ReadsText(members, "product", claims.product);
    ReadsText(members, "license_id", claims.licenseId);
    ReadsText(members, "device_id", claims.deviceId);
    ReadsText(members, "sid", proof.sessionId);
    ReadsText(members, "jti", proof.tokenId);
    ReadsInteger(lib, members, "iat", Unix(claims.issuedAt));
    ReadsInteger(lib, members, "nbf", Unix(proof.notBefore));
    ReadsInteger(lib, members, "exp", Unix(claims.expiresAt));
    ReadsFeatures(members, claims.features);
    ReadsThumbprint(members, proof.thumbprint);
  }

  /** The client shares the server's names and knows its public key under the server's key identifier. */
  predicate Matches(libs: Libraries, config: Config, policy: Policy, privateKey: seq<Byte>) {
    && Configured(libs.crypto, config)
    && config.issuer == policy.issuer && config.audience == policy.audience
    && config.applicationId == policy.applicationId && config.productId == policy.productId
    && config.product == policy.product
    && policy.keyId in config.keys && config.keys[policy.keyId] == libs.crypto.edPublic(privateKey)
  }

  /** The window of the client: sixty seconds of skew before the issue, none after the expiry. */
  predicate ClientWindow(claims: Claims, now: int) {
    && 0 <= Unix(claims.issuedAt)
    && Unix(claims.issuedAt) - MAX_CLOCK_SKEW_SECONDS <= now < Unix(claims.expiresAt)
  }

  lemma PolicyWindow(config: Config, policy: Policy, claims: Claims, expected: Expected, now: int)
    requires Acceptable(claims, policy)
    requires config.issuer == policy.issuer && config.audience == policy.audience
    requires config.applicationId == policy.applicationId && config.productId == policy.productId
    requires config.product == policy.product
    ensures PolicyAccepts(config, AsRead(claims), expected, now)
       <==> expected == Expected(claims.deviceId, claims.licenseId)
            && Unix(claims.issuedAt) - MAX_CLOCK_SKEW_SECONDS <= now < Unix(claims.expiresAt)
  {
    hide CanonicalRandom;
    WholeSeconds(claims.issuedAt);
    WholeSeconds(claims.expiresAt);
  }

  /** The client on a token whose parts are the printed header and claims, signed by a key it knows. */
  lemma ClientOfParts(libs: Libraries, config: Config, token: string, expected: Expected, now: int,
                      keyId: string, payload: Json, h: seq<Byte>, p: seq<Byte>, signature: seq<Byte>)
    requires LawfulLibraries(libs) && Configured(libs.crypto, config)
    requires Split(token) == [Encode(h), Encode(p), Encode(signature)]
    requires payload.Object? && Plain(payload, MAX_DEPTH)
    requires h == libs.json.goPrint(HeaderJson(keyId)) && p == libs.json.goPrint(payload)
    requires |signature| == 64 && keyId in config.keys
    requires libs.crypto.edVerify(config.keys[keyId], Encode(h) + "." + Encode(p), signature)
    ensures VerifyOnClient(libs, config, token, expected, now)
         == if |token| > MAX_TOKEN_BYTES || expected.device == "" || expected.license == "" then None
            else match ReadSession(libs.json, payload.members)
                 case None => None
                 case Some(read) =>
                   if PolicyAccepts(config, read, expected, now)
                   then Some(VerifiedSession(read.expiresAt, read.sessionId, read.tokenId, read.thumbprint)) else None
  {
    HeaderReadBack(keyId);
    HeaderNamesKey(keyId);
    PrintedSegment(libs.json, HeaderJson(keyId));
    PrintedSegment(libs.json, payload);
    QtSegmentExact(Encode(signature), signature);
    hide *;
    KeyOfParts(libs, config, keyId, Encode(h) + "." + Encode(p), signature);
    Staged(libs, config, token, expected, now, HeaderJson(keyId).members, payload.members, keyId);
  }

  lemma KeyOfParts(libs: Libraries, config: Config, keyId: string, signingInput: string, signature: seq<Byte>)
    requires QtSegment(Encode(signature)) == Some(signature) && |signature| == 64 && keyId in config.keys
    requires libs.crypto.edVerify(config.keys[keyId], signingInput, signature)
    ensures KeyVerifies(libs, config, keyId, signingInput, Encode(signature))
  {
    hide QtSegment, Encode;
  }

  lemma Staged(libs: Libraries, config: Config, token: string, expected: Expected, now: int,
               header: Members, payload: Members, keyId: string)
    requires Configured(libs.crypto, config) && |Split(token)| == 3
    requires var parts := Split(token);
             && ObjectSegment(libs.json, parts[0]) == Some(header)
             && ObjectSegment(libs.json, parts[1]) == Some(payload)
             && HeaderKey(header) == Some(keyId)
             && KeyVerifies(libs, config, keyId, parts[0] + "." + parts[1], parts[2])
    ensures VerifyOnClient(libs, config, token, expected, now)
         == if |token| > MAX_TOKEN_BYTES || expected.device == "" || expected.license == "" then None
            else match ReadSession(libs.json, payload)
                 case None => None
                 case Some(read) =>
                   if PolicyAccepts(config, read, expected, now)
                   then Some(VerifiedSession(read.expiresAt, read.sessionId, read.tokenId, read.thumbprint)) else None
  {
    hide Split, Configured, ObjectSegment, HeaderKey, KeyVerifies, ReadSession, PolicyAccepts;
  }

  /**
   The other half of the round trip. The client accepts an issued token, for the device and license it was issued
   for and no others, exactly while its clock stands between sixty seconds before the issue and the expiry.
   */
  lemma ClientAcceptsIssued(libs: Libraries, privateKey: seq<Byte>, policy: Policy, claims: Claims, issuedAt: int,
                            config: Config, expected: Expected, now: int)
    requires LawfulLibraries(libs) && Issue(libs, privateKey, policy, claims, issuedAt).Some? && ExactTimes(claims)
    requires Matches(libs, config, policy, privateKey)
    ensures var token := Issue(libs, privateKey, policy, claims, issuedAt).value;
            VerifyOnClient(libs, config, token, expected, now)
            == if |token| <= MAX_TOKEN_BYTES && expected == Expected(claims.deviceId, claims.licenseId)
                  && claims.features.Some? && ClientWindow(claims, now)
               then Some(VerifiedSession(Unix(claims.expiresAt), claims.proof.value.sessionId,
                                         claims.proof.value.tokenId, claims.proof.value.thumbprint))
               else None
  {
    var token := Issue(libs, privateKey, policy, claims, issuedAt).value;
    var h, p := TokenHeader(libs, policy.keyId), TokenPayload(libs, claims);
    var signature := libs.crypto.edSign(privateKey, Encode(h) + "." + Encode(p));
    IssuedParts(libs, privateKey, policy, claims, issuedAt);
    WindowIsHalfOpen(claims, policy, issuedAt);
    ClaimsArePlain(claims);
    NamesGiven(libs, config, policy, privateKey);
    ReadsClaims(libs.json, claims, policy);
    PolicyWindow(config, policy, claims, expected, now);
    hide ClaimsJson, HeaderJson, ValidClaims, Encode, Plain, Split, Issue, VerifyOnClient, PolicyAccepts, ReadSession,
         Configured, NoEmptyNames, ExactTimes;
    ClientOfParts(libs, config, token, expected, now, policy.keyId, ClaimsJson(claims), h, p, signature);
    IdsGiven(claims, policy);
  }

  lemma NamesGiven(libs: Libraries, config: Config, policy: Policy, privateKey: seq<Byte>)
    requires LawfulLibraries(libs) && Matches(libs, config, policy, privateKey)
    ensures NoEmptyNames(policy)
  {
  }

  lemma IdsGiven(claims: Claims, policy: Policy)
    requires Acceptable(claims, policy)
    ensures claims.proof.Some? && claims.deviceId != "" && claims.licenseId != ""
  {
    hide CanonicalRandom;
  }
}
