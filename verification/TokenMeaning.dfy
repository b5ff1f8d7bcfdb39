/**
 What an accepted session token is. The conditions read bytes, JSON members and instants only; the verifiers of
 both sides are proved to accept exactly the tokens that meet theirs, whoever made the token.
 */
module TokenMeaning {
  import opened Prelude
  import opened Base64Url
  import opened CompactToken
  import opened JsonText
  import opened JsonScanner
  import opened SessionToken
  import opened SessionTokenClient
  import Crypto

  // ---- What Go reads of a JSON object ----

  /** An absent member and null stand for the empty text. */
  ghost predicate TextIs(members: Members, name: string, value: string) {
    if name in members && members[name] != Null then members[name] == Text(value) else value == ""
  }

  ghost predicate NumberIs(members: Members, name: string, n: int) {
    if name in members && members[name] != Null
    then members[name] == Integer(n) && -0x8000_0000_0000_0000 <= n < 0x8000_0000_0000_0000
    else n == 0
  }

  /** Whole seconds under this name, as an instant in nanoseconds. */
  ghost predicate InstantIs(members: Members, name: string, instant: int) {
    instant % 1_000_000_000 == 0 && NumberIs(members, name, instant / 1_000_000_000)
  }

  ghost predicate ListIs(members: Members, name: string, values: Option<seq<string>>) {
    if name in members && members[name] != Null
    then
      && members[name].Array? && values.Some? && |members[name].items| == |values.value|
      && forall i :: 0 <= i < |values.value| ==>
           members[name].items[i] == Text(values.value[i]) || (members[name].items[i] == Null && values.value[i] == "")
    else values == None
  }

  /** An object with these members, all of them known, or null. */
  ghost predicate MembersAre(j: Json, known: set<string>, members: Members) {
    if j == Null then members == map[] else j == Object(members) && members.Keys <= known
  }

  ghost predicate HeaderSays(j: Json, keyId: string) {
    exists members ::
      && MembersAre(j, {"kid", "alg", "typ"}, members)
      && TextIs(members, "kid", keyId) && TextIs(members, "alg", "EdDSA") && TextIs(members, "typ", "JWT")
  }

  ghost predicate PayloadSays(j: Json, claims: Claims) {
    exists members, confirmation :: PayloadMembers(j, claims, members, confirmation)
  }

  ghost predicate PayloadMembers(j: Json, claims: Claims, members: Members, confirmation: Members) {
    && MembersAre(j, {"app", "product_id", "sid", "jti", "nbf", "cnf", "sub", "license_id", "device_id",
                      "product", "features", "iss", "aud", "iat", "exp"}, members)
    && MembersAre(if "cnf" in members then members["cnf"] else Null, {"jkt"}, confirmation)
    && claims.proof.Some?
    && TextIs(members, "app", claims.applicationId) && TextIs(members, "product_id", claims.productId)
    && TextIs(members, "sid", claims.proof.value.sessionId) && TextIs(members, "jti", claims.proof.value.tokenId)
    && TextIs(confirmation, "jkt", claims.proof.value.thumbprint)
    && TextIs(members, "sub", claims.subject)
    && TextIs(members, "license_id", claims.licenseId) && TextIs(members, "device_id", claims.deviceId)
    && TextIs(members, "product", claims.product) && ListIs(members, "features", claims.features)
    && TextIs(members, "iss", claims.issuer) && TextIs(members, "aud", claims.audience)
    && InstantIs(members, "nbf", claims.proof.value.notBefore)
    && InstantIs(members, "iat", claims.issuedAt) && InstantIs(members, "exp", claims.expiresAt)
  }

  // ---- The server ----

  /** Three canonical segments: a header for the policy's key, a payload of these claims, a signature over both. */
  ghost predicate SignedClaims(libs: Libraries, publicKey: seq<Byte>, keyId: string, token: string, claims: Claims,
                               h: seq<Byte>, p: seq<Byte>, g: seq<Byte>)
  {
    && token == Encode(h) + "." + Encode(p) + "." + Encode(g)
    && |g| == 64 && libs.crypto.edVerify(publicKey, Encode(h) + "." + Encode(p), g)
    && libs.json.goParse(h).Some? && HeaderSays(libs.json.goParse(h).value, keyId)
    && libs.json.goParse(p).Some? && PayloadSays(libs.json.goParse(p).value, claims)
  }

  /** A non-empty text is the encoding of `size` bytes. */
  ghost predicate RandomOf(text: string, size: nat) {
    exists b: seq<Byte> :: |b| == size && text == Encode(b)
  }

  /** The names are the policy's, nothing that identifies is missing, and the 600 seconds contain `now`. */
  ghost predicate Permitted(policy: Policy, claims: Claims, now: int) {
    && claims.applicationId == policy.applicationId && claims.productId == policy.productId
    && claims.issuer == policy.issuer && claims.audience == policy.audience && claims.product == policy.product
    && claims.subject != "" && claims.licenseId != "" && claims.deviceId != ""
    && claims.proof.Some? && claims.proof.value.sessionId != ""
    && RandomOf(claims.proof.value.tokenId, 16) && RandomOf(claims.proof.value.thumbprint, 32)
    && claims.proof.value.notBefore == claims.issuedAt
    && claims.issuedAt % 1_000_000_000 == 0 && claims.expiresAt == claims.issuedAt + 600 * 1_000_000_000
    && claims.issuedAt <= now < claims.expiresAt
    && claims.issuedAt != ZERO_TIME && claims.expiresAt != ZERO_TIME
  }

  lemma TextFieldMeaning(members: Members, name: string, value: string)
    ensures TextField(members, name) == Some(value) <==> TextIs(members, name, value)
  {
  }

  lemma InstantMeaning(members: Members, name: string, instant: int)
    ensures InstantIs(members, name, instant)
       <==> IntField(members, name).Some? && IntField(members, name).value * SECOND == instant
  {
  }

  lemma ListFieldMeaning(members: Members, name: string, values: Option<seq<string>>)
    ensures ListField(members, name) == Some(values) <==> ListIs(members, name, values)
  {
    if name in members && members[name].Array? {
      var items := members[name].items;
      if values.Some? && |items| == |values.value|
         && (forall i :: 0 <= i < |items| ==> TextOrNull(items[i]) == Some(values.value[i])) {
        assert seq(|items|, i requires 0 <= i < |items| && TextOrNull(items[i]).Some? => TextOrNull(items[i]).value)
            == values.value;
      }
    }
  }

  lemma MembersMeaning(j: Json, known: set<string>, members: Members)
    ensures MembersOf(j, known) == Some(members) <==> MembersAre(j, known, members)
  {
  }

  /** Every field reader at once. */
  lemma FieldsMeaning(members: Members)
    ensures forall name, value :: TextField(members, name) == Some(value) <==> TextIs(members, name, value)
    ensures forall name, instant ::
              InstantIs(members, name, instant)
              <==> IntField(members, name).Some? && IntField(members, name).value * SECOND == instant
    ensures forall name, values :: ListField(members, name) == Some(values) <==> ListIs(members, name, values)
  {
    forall name, value ensures TextField(members, name) == Some(value) <==> TextIs(members, name, value) {
      TextFieldMeaning(members, name, value);
    }
    forall name, instant
      ensures InstantIs(members, name, instant)
         <==> IntField(members, name).Some? && IntField(members, name).value * SECOND == instant
    {
      InstantMeaning(members, name, instant);
    }
    forall name, values ensures ListField(members, name) == Some(values) <==> ListIs(members, name, values) {
      ListFieldMeaning(members, name, values);
    }
  }

  lemma HeaderMeaning(j: Json, keyId: string)
    ensures ReadHeader(j) == Some(Header(keyId, "EdDSA", "JWT")) <==> HeaderSays(j, keyId)
  {
    hide TextField, MembersOf, TextIs, MembersAre;
    var known := {"kid", "alg", "typ"};
    if ReadHeader(j) == Some(Header(keyId, "EdDSA", "JWT")) {
      var members := MembersOf(j, known).value;
      MembersMeaning(j, known, members);
      FieldsMeaning(members);
    }
    if HeaderSays(j, keyId) {
      var members :| MembersAre(j, known, members) && TextIs(members, "kid", keyId)
                     && TextIs(members, "alg", "EdDSA") && TextIs(members, "typ", "JWT");
      MembersMeaning(j, known, members);
      FieldsMeaning(members);
    }
  }

  lemma ReadPayloadSays(j: Json, claims: Claims)
    requires ReadClaims(j) == Some(claims)
    ensures PayloadSays(j, claims)
  {
    hide TextField, IntField, ListField, MembersOf, TextIs, InstantIs, ListIs, MembersAre;
    var members := MembersOf(j, CLAIM_NAMES).value;
    var cnf := if "cnf" in members then members["cnf"] else Null;
    var confirmation := MembersOf(cnf, {"jkt"}).value;
    MembersMeaning(j, CLAIM_NAMES, members);
    MembersMeaning(cnf, {"jkt"}, confirmation);
    FieldsMeaning(members);
    FieldsMeaning(confirmation);
    assert PayloadMembers(j, claims, members, confirmation);
  }

  lemma SaidPayloadRead(j: Json, claims: Claims)
    requires PayloadSays(j, claims)
    ensures ReadClaims(j) == Some(claims)
  {
    hide TextField, IntField, ListField, MembersOf, TextIs, InstantIs, ListIs, MembersAre;
    var members, confirmation :| PayloadMembers(j, claims, members, confirmation);
    MembersMeaning(j, CLAIM_NAMES, members);
    MembersMeaning(if "cnf" in members then members["cnf"] else Null, {"jkt"}, confirmation);
    FieldsMeaning(members);
    FieldsMeaning(confirmation);
  }

  lemma RandomMeaning(text: string, size: nat)
    ensures CanonicalRandom(text, size) <==> RandomOf(text, size)
  {
    hide GoSegment, Encode;
    if CanonicalRandom(text, size) {
      GoSegmentExact(text, GoSegment(text).value);
    }
    if RandomOf(text, size) {
      var b: seq<Byte> :| |b| == size && text == Encode(b);
      GoSegmentExact(text, b);
    }
  }

  lemma PermittedMeaning(claims: Claims, policy: Policy, now: int)
    ensures ValidClaims(claims, policy, now) <==> Permitted(policy, claims, now)
  {
    hide CanonicalRandom, RandomOf;
    if claims.proof.Some? {
      RandomMeaning(claims.proof.value.tokenId, 16);
      RandomMeaning(claims.proof.value.thumbprint, 32);
    }
  }

  lemma VerifiedIsSigned(libs: Libraries, publicKey: seq<Byte>, policy: Policy, token: string, now: int, claims: Claims)
    returns (h: seq<Byte>, p: seq<Byte>, g: seq<Byte>)
    requires Verify(libs, publicKey, policy, token, now) == Some(claims)
    ensures |token| <= 16 * 1024 && Permitted(policy, claims, now)
    ensures SignedClaims(libs, publicKey, policy.keyId, token, claims, h, p, g)
  {
    hide Split, GoSegment, ReadHeader, ReadClaims, ValidClaims, Permitted, HeaderSays, PayloadSays, Encode;
    var parts := Split(token);
    h, p, g := GoSegment(parts[0]).value, GoSegment(parts[1]).value, GoSegment(parts[2]).value;
    GoSegmentExact(parts[0], h);
    GoSegmentExact(parts[1], p);
    GoSegmentExact(parts[2], g);
    assert parts == [parts[0], parts[1], parts[2]];
    SplitThree(token, parts[0], parts[1], parts[2]);
    HeaderMeaning(libs.json.goParse(h).value, policy.keyId);
    ReadPayloadSays(libs.json.goParse(p).value, claims);
    PermittedMeaning(claims, policy, now);
  }

  lemma SignedIsVerified(libs: Libraries, publicKey: seq<Byte>, policy: Policy, token: string, now: int, claims: Claims,
                         h: seq<Byte>, p: seq<Byte>, g: seq<Byte>)
    requires |token| <= 16 * 1024 && Permitted(policy, claims, now)
    requires SignedClaims(libs, publicKey, policy.keyId, token, claims, h, p, g)
    ensures Verify(libs, publicKey, policy, token, now) == Some(claims)
  {
    hide Split, ReadHeader, ReadClaims, ValidClaims, Permitted, HeaderSays, PayloadSays, Encode, Verify;
    SplitEncoded(h, p, g);
    HeaderMeaning(libs.json.goParse(h).value, policy.keyId);
    SaidPayloadRead(libs.json.goParse(p).value, claims);
    PermittedMeaning(claims, policy, now);
    VerifyOfParts(libs, publicKey, policy, token, now, Parts(h, p, g), libs.json.goParse(h).value,
                  libs.json.goParse(p).value, claims);
  }

  /**
   The server accepts a token, whoever made it, exactly when it is signed with the server's key over a header for
   that key and a payload of the claims it returns, and the policy and the clock permit them.
   */
  lemma VerifyExactly(libs: Libraries, publicKey: seq<Byte>, policy: Policy, token: string, now: int, claims: Claims)
    ensures Verify(libs, publicKey, policy, token, now) == Some(claims) <==>
            && |token| <= 16 * 1024
            && (exists h, p, g :: SignedClaims(libs, publicKey, policy.keyId, token, claims, h, p, g))
            && Permitted(policy, claims, now)
  {
    hide Verify, SignedClaims, Permitted;
    if Verify(libs, publicKey, policy, token, now) == Some(claims) {
      var h, p, g := VerifiedIsSigned(libs, publicKey, policy, token, now, claims);
    }
    if |token| <= 16 * 1024 && Permitted(policy, claims, now) {
      if h, p, g :| SignedClaims(libs, publicKey, policy.keyId, token, claims, h, p, g) {
        SignedIsVerified(libs, publicKey, policy, token, now, claims, h, p, g);
      }
    }
  }

  /** A token is issued exactly for permitted claims, and is then signed for them with the issuer's key. */
  lemma IssueExactly(libs: Libraries, privateKey: seq<Byte>, policy: Policy, claims: Claims, now: int)
    ensures Issue(libs, privateKey, policy, claims, now).Some? <==> Permitted(policy, claims, now)
    ensures LawfulLibraries(libs) && Permitted(policy, claims, now) && Representable(claims) ==>
              exists h, p, g ::
                SignedClaims(libs, libs.crypto.edPublic(privateKey), policy.keyId,
                             Issue(libs, privateKey, policy, claims, now).value, claims, h, p, g)
  {
    hide ValidClaims, Permitted, SignedClaims, LawfulLibraries, Representable;
    PermittedMeaning(claims, policy, now);
    if LawfulLibraries(libs) && Permitted(policy, claims, now) && Representable(claims) {
      IssuedIsSigned(libs, privateKey, policy, claims, now);
    }
  }

  lemma IssuedIsSigned(libs: Libraries, privateKey: seq<Byte>, policy: Policy, claims: Claims, now: int)
    requires LawfulLibraries(libs) && Issue(libs, privateKey, policy, claims, now).Some? && Representable(claims)
    ensures exists h, p, g ::
              SignedClaims(libs, libs.crypto.edPublic(privateKey), policy.keyId,
                           Issue(libs, privateKey, policy, claims, now).value, claims, h, p, g)
  {
    IssuedParts(libs, privateKey, policy, claims, now);
    WindowIsHalfOpen(claims, policy, now);
    HeaderReadBack(policy.keyId);
    ClaimsArePlain(claims);
    ClaimsReadBack(claims, policy);
    hide ClaimsJson, ReadClaims, HeaderJson, ReadHeader, Encode, Plain, Split, Issue, PrintsDocument, ValidClaims,
         HeaderSays, PayloadSays;
    var h, p := TokenHeader(libs, policy.keyId), TokenPayload(libs, claims);
    var g := libs.crypto.edSign(privateKey, Encode(h) + "." + Encode(p));
    HeaderMeaning(HeaderJson(policy.keyId), policy.keyId);
    ReadPayloadSays(ClaimsJson(claims), claims);
    assert SignedClaims(libs, libs.crypto.edPublic(privateKey), policy.keyId,
                        Issue(libs, privateKey, policy, claims, now).value, claims, h, p, g);
  }

  // ---- The client ----

  ghost predicate KeyIdChar(c: char) {
    'A' <= c <= 'Z' || 'a' <= c <= 'z' || '0' <= c <= '9' || c == '.' || c == '_' || c == '-'
  }

  /** The client is set up: at least one key, every key of 32 bytes under a plain name, and no blank policy text. */
  ghost predicate SetUp(crypto: Crypto.Library, config: Config) {
    && config.keys.Keys != {}
    && (forall keyId :: keyId in config.keys ==>
          |config.keys[keyId]| == 32 && keyId != "" && forall i :: 0 <= i < |keyId| ==> KeyIdChar(keyId[i]))
    && !crypto.blank(config.issuer) && !crypto.blank(config.audience) && !crypto.blank(config.applicationId)
    && !crypto.blank(config.productId) && !crypto.blank(config.product)
  }

  /** The bytes are a document that passes the scan for repeated members and that Qt reads as this object. */
  ghost predicate DocumentOf(lib: JsonLibrary, bytes: seq<Byte>, members: Members) {
    && bytes != [] && UniqueMembers(lib.unquote, Chars(bytes))
    && lib.qtParse(bytes) == Some(Object(members))
  }

  ghost predicate Named(members: Members, name: string, value: string) {
    value != "" && name in members && members[name] == Text(value)
  }

  /** A number that is, as a double, the non-negative integer `n` below 2^63. */
  ghost predicate Counted(lib: JsonLibrary, members: Members, name: string, n: int) {
    && 0 <= n < 0x8000_0000_0000_0000 && name in members
    && (|| members[name] == Decimal(n as real)
        || (members[name].Integer? && lib.nearest(members[name].n) == n as real))
  }

  /** The payload names the session it reports, for this device and license, within the client's window. */
  ghost predicate ReportsSession(lib: JsonLibrary, config: Config, members: Members, expected: Expected, now: int,
                                 session: VerifiedSession, issuedAt: int, notBefore: int)
  {
    && Named(members, "iss", config.issuer) && Named(members, "aud", config.audience)
    && Named(members, "app", config.applicationId) && Named(members, "product_id", config.productId)
    && Named(members, "product", config.product)
    && Named(members, "license_id", expected.license) && Named(members, "device_id", expected.device)
    && (exists subject :: Named(members, "sub", subject))
    && Named(members, "sid", session.sessionId) && Named(members, "jti", session.tokenId)
    && Counted(lib, members, "iat", issuedAt) && Counted(lib, members, "nbf", notBefore)
    && Counted(lib, members, "exp", session.expiresAt)
    && "features" in members && members["features"].Array?
    && (forall i :: 0 <= i < |members["features"].items| ==> members["features"].items[i].Text?)
    && "cnf" in members && members["cnf"].Object? && Named(members["cnf"].members, "jkt", session.thumbprint)
    && RandomOf(session.thumbprint, 32)
    && session.expiresAt == issuedAt + 600 && issuedAt - 60 <= now < session.expiresAt
    && notBefore <= now + 60 && notBefore <= session.expiresAt
  }

  /** The header has exactly these three members. */
  ghost predicate HeaderFor(members: Members, keyId: string) {
    members == map["alg" := Text("EdDSA"), "typ" := Text("JWT"), "kid" := Text(keyId)]
  }

  ghost predicate SignedSession(libs: Libraries, config: Config, token: string, expected: Expected, now: int,
                                session: VerifiedSession, parts: Parts, header: Members, payload: Members,
                                keyId: string)
  {
    && token == Encode(parts.header) + "." + Encode(parts.payload) + "." + Encode(parts.signature)
    && DocumentOf(libs.json, parts.header, header) && DocumentOf(libs.json, parts.payload, payload)
    && HeaderFor(header, keyId) && keyId in config.keys
    && |parts.signature| == 64
    && libs.crypto.edVerify(config.keys[keyId], Encode(parts.header) + "." + Encode(parts.payload), parts.signature)
    && exists issuedAt, notBefore ::
         ReportsSession(libs.json, config, payload, expected, now, session, issuedAt, notBefore)
  }

  lemma KeyIdMeaning(keyId: string)
    ensures ValidKeyId(keyId) <==> keyId != "" && forall i :: 0 <= i < |keyId| ==> KeyIdChar(keyId[i])
  {
    if keyId != "" && forall i :: 0 <= i < |keyId| ==> KeyIdChar(keyId[i]) {
      forall c | c in keyId ensures KeyIdChar(c) {
        var i :| 0 <= i < |keyId| && keyId[i] == c;
      }
    }
    if ValidKeyId(keyId) {
      forall i | 0 <= i < |keyId| ensures KeyIdChar(keyId[i]) {
        assert keyId[i] in keyId;
      }
    }
  }

  lemma SetUpMeaning(crypto: Crypto.Library, config: Config)
    ensures Configured(crypto, config) <==> SetUp(crypto, config)
  {
    hide ValidKeyId;
    forall keyId | keyId in config.keys {
      KeyIdMeaning(keyId);
    }
  }

  lemma StringClaimMeaning(members: Members, name: string, value: string)
    ensures StringClaim(members, name) == Some(value) <==> Named(members, name, value)
  {
  }

  lemma IntegerClaimMeaning(lib: JsonLibrary, members: Members, name: string, n: int)
    ensures IntegerClaim(lib, members, name) == Some(n) <==> Counted(lib, members, name, n)
  {
  }

  lemma ClaimsMeaning(lib: JsonLibrary, members: Members)
    ensures forall name, value :: StringClaim(members, name) == Some(value) <==> Named(members, name, value)
    ensures forall name, n :: IntegerClaim(lib, members, name) == Some(n) <==> Counted(lib, members, name, n)
  {
    forall name, value ensures StringClaim(members, name) == Some(value) <==> Named(members, name, value) {
      StringClaimMeaning(members, name, value);
    }
    forall name, n ensures IntegerClaim(lib, members, name) == Some(n) <==> Counted(lib, members, name, n) {
      IntegerClaimMeaning(lib, members, name, n);
    }
  }

  lemma ThumbprintMeaning(members: Members, thumbprint: string)
    ensures Thumbprint(members) == Some(thumbprint) <==>
            && "cnf" in members && members["cnf"].Object? && Named(members["cnf"].members, "jkt", thumbprint)
            && RandomOf(thumbprint, 32)
  {
    hide QtSegment, Encode, StringClaim, Named;
    if "cnf" in members && members["cnf"].Object? {
      StringClaimMeaning(members["cnf"].members, "jkt", thumbprint);
      if QtSegment(thumbprint).Some? {
        QtSegmentExact(thumbprint, QtSegment(thumbprint).value);
      }
      if RandomOf(thumbprint, 32) {
        var b: seq<Byte> :| |b| == 32 && thumbprint == Encode(b);
        QtSegmentExact(thumbprint, b);
      }
    }
  }

  lemma HeaderKeyMeaning(members: Members, keyId: string)
    ensures HeaderKey(members) == Some(keyId) <==> HeaderFor(members, keyId)
  {
    if HeaderKey(members) == Some(keyId) {
      ThreeKeys(members.Keys, "alg", "typ", "kid");
      assert members == map["alg" := Text("EdDSA"), "typ" := Text("JWT"), "kid" := Text(keyId)];
    }
    if HeaderFor(members, keyId) {
      assert members.Keys == {"alg", "typ", "kid"};
    }
  }

  lemma ThreeKeys(keys: set<string>, a: string, b: string, c: string)
    requires a in keys && b in keys && c in keys && a != b && a != c && b != c && |keys| == 3
    ensures keys == {a, b, c}
  {
    assert |keys - {a, b, c}| == |keys| - |{a, b, c}|;
  }

  lemma DocumentMeaning(lib: JsonLibrary, segment: string, members: Members)
    ensures ObjectSegment(lib, segment) == Some(members) <==>
            exists bytes: seq<Byte> :: DocumentOf(lib, bytes, members) && segment == Encode(bytes)
  {
    hide QtSegment, Encode, UniqueMembers;
    if QtSegment(segment).Some? {
      QtSegmentExact(segment, QtSegment(segment).value);
    }
    if bytes: seq<Byte> :| DocumentOf(lib, bytes, members) && segment == Encode(bytes) {
      QtSegmentExact(segment, bytes);
    }
  }

  lemma ReadIsReport(lib: JsonLibrary, config: Config, members: Members, expected: Expected, now: int, read: Read)
    requires ReadSession(lib, members) == Some(read) && PolicyAccepts(config, read, expected, now)
    ensures ReportsSession(lib, config, members, expected, now,
                           VerifiedSession(read.expiresAt, read.sessionId, read.tokenId, read.thumbprint),
                           read.issuedAt, read.notBefore)
  {
    hide StringClaim, IntegerClaim, Thumbprint, Named, Counted, RandomOf;
    ClaimsMeaning(lib, members);
    ThumbprintMeaning(members, read.thumbprint);
    assert Named(members, "sub", read.subject);
  }

  lemma ReportIsRead(lib: JsonLibrary, config: Config, members: Members, expected: Expected, now: int,
                     session: VerifiedSession, issuedAt: int, notBefore: int) returns (read: Read)
    requires ReportsSession(lib, config, members, expected, now, session, issuedAt, notBefore)
    ensures ReadSession(lib, members) == Some(read) && PolicyAccepts(config, read, expected, now)
    ensures session == VerifiedSession(read.expiresAt, read.sessionId, read.tokenId, read.thumbprint)
  {
    hide StringClaim, IntegerClaim, Thumbprint, Named, Counted, RandomOf;
    var subject :| Named(members, "sub", subject);
    ClaimsMeaning(lib, members);
    ThumbprintMeaning(members, session.thumbprint);
    read := Read(config.issuer, config.audience, subject, config.applicationId, config.productId, config.product,
                 expected.license, expected.device, session.sessionId, session.tokenId,
                 issuedAt, notBefore, session.expiresAt, session.thumbprint);
  }

  lemma AcceptedIsSigned(libs: Libraries, config: Config, token: string, expected: Expected, now: int,
                         session: VerifiedSession)
    returns (parts: Parts, header: Members, payload: Members, keyId: string)
    requires VerifyOnClient(libs, config, token, expected, now) == Some(session)
    ensures SetUp(libs.crypto, config) && |token| <= 16 * 1024
    ensures SignedSession(libs, config, token, expected, now, session, parts, header, payload, keyId)
  {
    hide Split, QtSegment, ObjectSegment, HeaderKey, ReadSession, PolicyAccepts, Configured, SetUp, Encode,
         DocumentOf, ReportsSession;
    var segments := Split(token);
    header := ObjectSegment(libs.json, segments[0]).value;
    payload := ObjectSegment(libs.json, segments[1]).value;
    keyId := HeaderKey(header).value;
    var read := ReadSession(libs.json, payload).value;
    SetUpMeaning(libs.crypto, config);
    HeaderKeyMeaning(header, keyId);
    DocumentMeaning(libs.json, segments[0], header);
    DocumentMeaning(libs.json, segments[1], payload);
    var h: seq<Byte> :| DocumentOf(libs.json, h, header) && segments[0] == Encode(h);
    var p: seq<Byte> :| DocumentOf(libs.json, p, payload) && segments[1] == Encode(p);
    parts := Parts(h, p, QtSegment(segments[2]).value);
    QtSegmentExact(segments[2], parts.signature);
    assert segments == [segments[0], segments[1], segments[2]];
    SplitThree(token, segments[0], segments[1], segments[2]);
    ReadIsReport(libs.json, config, payload, expected, now, read);
  }

  lemma SignedIsAccepted(libs: Libraries, config: Config, token: string, expected: Expected, now: int,
                         session: VerifiedSession, parts: Parts, header: Members, payload: Members, keyId: string)
    requires SetUp(libs.crypto, config) && |token| <= 16 * 1024
    requires SignedSession(libs, config, token, expected, now, session, parts, header, payload, keyId)
    ensures VerifyOnClient(libs, config, token, expected, now) == Some(session)
  {
    hide Split, QtSegment, ObjectSegment, HeaderKey, HeaderFor, KeyVerifies, ReadSession, PolicyAccepts, Configured,
         SetUp, Encode, DocumentOf, ReportsSession, VerifyOnClient;
    SetUpMeaning(libs.crypto, config);
    SplitEncoded(parts.header, parts.payload, parts.signature);
    DocumentMeaning(libs.json, Encode(parts.header), header);
    DocumentMeaning(libs.json, Encode(parts.payload), payload);
    HeaderKeyMeaning(header, keyId);
    assert parts.signature != [];
    QtSegmentExact(Encode(parts.signature), parts.signature);
    KeyOfParts(libs, config, keyId, Encode(parts.header) + "." + Encode(parts.payload), parts.signature);
    Staged(libs, config, token, expected, now, header, payload, keyId);
    var issuedAt, notBefore :|
      ReportsSession(libs.json, config, payload, expected, now, session, issuedAt, notBefore);
    var read := ReportIsRead(libs.json, config, payload, expected, now, session, issuedAt, notBefore);
    ExpectedGiven(libs.json, config, payload, expected, now, session, issuedAt, notBefore);
  }

  lemma ExpectedGiven(lib: JsonLibrary, config: Config, members: Members, expected: Expected, now: int,
                      session: VerifiedSession, issuedAt: int, notBefore: int)
    requires ReportsSession(lib, config, members, expected, now, session, issuedAt, notBefore)
    ensures expected.device != "" && expected.license != ""
  {
    hide Counted, RandomOf;
  }

  /**
   The client accepts a token, whoever made it, and reports a session exactly when the token is signed with one of
   the client's keys, named by its header, over a payload that names that session for the expected device and license.
   */
  lemma ClientVerifiesExactly(libs: Libraries, config: Config, token: string, expected: Expected, now: int,
                              session: VerifiedSession)
    ensures VerifyOnClient(libs, config, token, expected, now) == Some(session) <==>
            && SetUp(libs.crypto, config) && |token| <= 16 * 1024
            && exists parts, header, payload, keyId ::
                 SignedSession(libs, config, token, expected, now, session, parts, header, payload, keyId)
  {
    hide VerifyOnClient, SignedSession, SetUp;
    if VerifyOnClient(libs, config, token, expected, now) == Some(session) {
      var parts, header, payload, keyId := AcceptedIsSigned(libs, config, token, expected, now, session);
    }
    if SetUp(libs.crypto, config) && |token| <= 16 * 1024 {
      if parts, header, payload, keyId :|
        SignedSession(libs, config, token, expected, now, session, parts, header, payload, keyId)
      {
        SignedIsAccepted(libs, config, token, expected, now, session, parts, header, payload, keyId);
      }
    }
  }
}
