/**
 What an accepted proof and an admitted request are. The conditions read bytes, JSON members, numbers and instants
 only; the checks of the server are proved to pass exactly the proofs and requests that meet them.
 */
module DpopMeaning {
  import opened Prelude
  import opened Base64Url
  import opened CompactToken
  import opened JsonText
  import opened SessionToken
  import opened TokenMeaning
  import opened Dpop
  import opened DpopReplay
  import Crypto

  // ---- Numbers and letters ----

  function Power256(n: nat): nat {
    if n == 0 then 1 else 256 * Power256(n - 1)
  }

  lemma BigEndianLast(bytes: seq<Byte>)
    requires bytes != []
    ensures var n := |bytes| - 1;
            Crypto.BigEndian(bytes) == 256 * Crypto.BigEndian(bytes[..n]) + bytes[n]
  {
  }

  lemma Regroup(v: nat, p: nat, w: nat)
    ensures 256 * (v * p + w) == v * (256 * p) + 256 * w
  {
    assert 256 * (v * p) == v * (256 * p);
  }

  /** Bytes in front weigh 256 to the number of bytes behind them. */
  lemma {:induction false} BigEndianWeights(a: seq<Byte>, b: seq<Byte>)
    ensures Crypto.BigEndian(a + b) == Crypto.BigEndian(a) * Power256(|b|) + Crypto.BigEndian(b)
  {
    if b == [] {
      assert a + b == a;
    } else {
      hide Crypto.BigEndian;
      var n := |b| - 1;
      BigEndianWeights(a, b[..n]);
      BigEndianLast(b);
      BigEndianLast(a + b);
      assert (a + b)[..|a + b| - 1] == a + b[..n];
      Regroup(Crypto.BigEndian(a), Power256(n), Crypto.BigEndian(b[..n]));
      assert Power256(|b|) == 256 * Power256(n);
    }
  }

  /** A byte is its own value. */
  lemma BigEndianByte(d: Byte)
    ensures Crypto.BigEndian([d]) == d
  {
    assert [d][..0] == [];
  }

  /** `upper` is `text` with each small ASCII letter replaced by its capital, 32 code points before it. */
  ghost predicate UpperOf(text: string, upper: string) {
    && |upper| == |text|
    && forall i :: 0 <= i < |text| ==>
         if 'a' <= text[i] <= 'z' then upper[i] as int == text[i] as int - 32 else upper[i] == text[i]
  }

  lemma UpperMeaning(text: string, upper: string)
    ensures Upper(text) == upper <==> UpperOf(text, upper)
  {
    assert UpperOf(text, Upper(text));
    if UpperOf(text, upper) {
      forall i | 0 <= i < |text| ensures Upper(text)[i] == upper[i] {
        assert Upper(text)[i] as int == upper[i] as int;
      }
    }
  }

  // ---- The key of a proof ----

  /** The client takes exactly the blobs that start "ECS1" with a length of 32, and the two coordinates behind that. */
  lemma BlobMeaning(blob: seq<Byte>, x: seq<Byte>, y: seq<Byte>)
    ensures ParsePublicBlob(blob) == Some((x, y)) <==>
            |x| == 32 && |y| == 32 && blob == [0x45, 0x43, 0x53, 0x31, 32, 0, 0, 0] + x + y
  {
    if ParsePublicBlob(blob) == Some((x, y)) {
      assert blob[..8] == [0x45, 0x43, 0x53, 0x31, 32, 0, 0, 0];
      assert blob == blob[..8] + blob[8..40] + blob[40..72];
    }
    if |x| == 32 && |y| == 32 && blob == [0x45, 0x43, 0x53, 0x31, 32, 0, 0, 0] + x + y {
      assert blob[8..40] == x && blob[40..72] == y;
    }
  }

  /** A JSON Web Key of the point (x, y) of the P-256 curve, in 32-byte coordinates. */
  ghost predicate KeySays(crypto: Crypto.Library, j: Json, x: seq<Byte>, y: seq<Byte>) {
    && |x| == 32 && |y| == 32
    && Crypto.BigEndian(x) != 0 && Crypto.BigEndian(y) != 0
    && crypto.onCurve(Crypto.BigEndian(x), Crypto.BigEndian(y))
    && exists members ::
         && MembersAre(j, {"kty", "crv", "x", "y"}, members)
         && TextIs(members, "kty", "EC") && TextIs(members, "crv", "P-256")
         && TextIs(members, "x", Encode(x)) && TextIs(members, "y", Encode(y))
  }

  /** The SHA-256 of the key's required members in lexicographic order, without white space (RFC 7638 section 3). */
  ghost predicate ThumbprintOf(crypto: Crypto.Library, x: seq<Byte>, y: seq<Byte>, thumbprint: string) {
    var digest := crypto.sha256(
      "{\"crv\":\"P-256\",\"kty\":\"EC\",\"x\":\"" + Encode(x) + "\",\"y\":\"" + Encode(y) + "\"}");
    |digest| == 32 && thumbprint == Encode(digest)
  }

  lemma CoordinateMeaning(text: string, bytes: seq<Byte>)
    requires |bytes| == 32
    ensures text == Encode(bytes) ==>
              Coordinate(text) == if Crypto.BigEndian(bytes) == 0 then None else Some(Crypto.BigEndian(bytes))
    ensures text == Encode(bytes) ==> text != ""
  {
    hide GoSegment, Encode, Crypto.BigEndian;
    GoSegmentExact(text, bytes);
  }

  lemma CoordinateBytes(text: string) returns (bytes: seq<Byte>)
    requires Coordinate(text).Some?
    ensures |bytes| == 32 && text == Encode(bytes) && Crypto.BigEndian(bytes) != 0
    ensures Coordinate(text) == Some(Crypto.BigEndian(bytes))
  {
    hide GoSegment, Encode, Crypto.BigEndian;
    bytes := GoSegment(text).value;
    GoSegmentExact(text, bytes);
  }

  lemma ThumbprintMeaning(crypto: Crypto.Library, x: seq<Byte>, y: seq<Byte>, thumbprint: string)
    ensures ThumbprintOf(crypto, x, y, thumbprint)
       <==> thumbprint == Dpop.Thumbprint(crypto, Encode(x), Encode(y)) && CanonicalRandom(thumbprint, 32)
  {
    hide GoSegment, Encode;
    var digest := crypto.sha256(CanonicalJwk(Encode(x), Encode(y)));
    GoSegmentExact(Encode(digest), digest);
  }

  lemma ParsedKeySays(crypto: Crypto.Library, j: Json) returns (x: seq<Byte>, y: seq<Byte>)
    requires ParseJwk(crypto, j).Some?
    ensures KeySays(crypto, j, x, y) && ThumbprintOf(crypto, x, y, ParseJwk(crypto, j).value.thumbprint)
    ensures ParseJwk(crypto, j).value.x == Crypto.BigEndian(x) && ParseJwk(crypto, j).value.y == Crypto.BigEndian(y)
  {
    hide Coordinate, MembersOf, TextField, MembersAre, TextIs, CanonicalRandom, Encode, Crypto.BigEndian,
         ThumbprintOf, Dpop.Thumbprint;
    var members := MembersOf(j, {"kty", "crv", "x", "y"}).value;
    MembersMeaning(j, {"kty", "crv", "x", "y"}, members);
    FieldsMeaning(members);
    x := CoordinateBytes(TextField(members, "x").value);
    y := CoordinateBytes(TextField(members, "y").value);
    ThumbprintMeaning(crypto, x, y, ParseJwk(crypto, j).value.thumbprint);
  }

  lemma SaidKeyParses(crypto: Crypto.Library, j: Json, x: seq<Byte>, y: seq<Byte>, thumbprint: string)
    requires KeySays(crypto, j, x, y) && ThumbprintOf(crypto, x, y, thumbprint)
    ensures ParseJwk(crypto, j) == Some(Key(Crypto.BigEndian(x), Crypto.BigEndian(y), thumbprint))
  {
    hide Coordinate, MembersOf, TextField, MembersAre, TextIs, CanonicalRandom, Encode, Crypto.BigEndian,
         ThumbprintOf, Dpop.Thumbprint;
    var known := {"kty", "crv", "x", "y"};
    var members :| && MembersAre(j, known, members)
                   && TextIs(members, "kty", "EC") && TextIs(members, "crv", "P-256")
                   && TextIs(members, "x", Encode(x)) && TextIs(members, "y", Encode(y));
    MembersMeaning(j, known, members);
    FieldsMeaning(members);
    CoordinateMeaning(Encode(x), x);
    CoordinateMeaning(Encode(y), y);
    ThumbprintMeaning(crypto, x, y, thumbprint);
  }

  /** The method: letters, digits and the fifteen marks of an HTTP token, and perhaps one line feed behind them. */
  ghost predicate MethodText(method_: string) {
    exists body :: body != "" && (method_ == body || method_ == body + "\n")
                   && forall i :: 0 <= i < |body| ==> MethodChar(body[i])
  }

  ghost predicate MethodChar(c: char) {
    || 'A' <= c <= 'Z' || 'a' <= c <= 'z' || '0' <= c <= '9'
    || c == '!' || c == '#' || c == '$' || c == '%' || c == '&' || c == '\'' || c == '*' || c == '+' || c == '.'
    || c == '^' || c == '_' || c == '`' || c == '|' || c == '~' || c == '-'
  }

  lemma CharMeaning(c: char)
    ensures TokenChar(c) <==> MethodChar(c)
  {
    var marks := "!#$%&'*+.^_`|~-";
    assert |marks| == 15;
    assert c in marks <==> exists i :: 0 <= i < 15 && marks[i] == c;
  }

  lemma MethodMeaning(method_: string)
    ensures ValidMethod(method_) <==> MethodText(method_)
  {
    hide TokenChar, MethodChar, ValidMethod, MethodText;
    forall c {
      CharMeaning(c);
    }
    LineFeedIsNoMark();
    if ValidMethod(method_) {
      ValidIsText(method_);
    }
    if MethodText(method_) {
      TextIsValid(method_);
    }
  }

  /** The method without a line feed at its end. */
  ghost function MethodBody(method_: string): string {
    if method_ != "" && method_[|method_| - 1] == '\n' then method_[..|method_| - 1] else method_
  }

  lemma ValidIsText(method_: string)
    requires ValidMethod(method_) && forall c :: TokenChar(c) <==> MethodChar(c)
    ensures MethodText(method_)
  {
    hide TokenChar, MethodChar;
    var body := MethodBody(method_);
    assert body != "" && forall c :: c in body ==> TokenChar(c);
    assert forall i :: 0 <= i < |body| ==> body[i] in body;
    assert method_ == body || method_ == body + "\n";
  }

  lemma TextIsValid(method_: string)
    requires MethodText(method_) && !MethodChar('\n') && forall c :: TokenChar(c) <==> MethodChar(c)
    ensures ValidMethod(method_)
  {
    hide TokenChar, MethodChar;
    var text :| && text != "" && (method_ == text || method_ == text + "\n")
                && forall i :: 0 <= i < |text| ==> MethodChar(text[i]);
    assert MethodChar(text[|text| - 1]);
    assert MethodBody(method_) == text;
    assert forall c :: c in text ==> TokenChar(c);
  }

  lemma LineFeedIsNoMark()
    ensures !MethodChar('\n')
  {
  }

  /** With a working TPM the client builds a proof exactly for a sound token, method, URL and key expectation. */
  lemma BuildExactly(libs: Libraries, signer: Signer, input: BuildInput, x: seq<Byte>, y: seq<Byte>)
    requires |x| == 32 && |y| == 32 && Answers(signer, [0x45, 0x43, 0x53, 0x31, 32, 0, 0, 0] + x + y)
    ensures Build(libs, signer, input).Some? <==>
            && (exists parts :: CompactOf(input.accessToken, parts) && |parts.signature| == 64)
            && MethodText(input.method_) && input.uri.Some? && |input.random| == 16
            && input.expectedThumbprint == Encode(libs.crypto.sha256(
              "{\"crv\":\"P-256\",\"kty\":\"EC\",\"x\":\"" + Encode(x) + "\",\"y\":\"" + Encode(y) + "\"}"))
  {
    hide Encode, Answers, MethodText, ValidMethod, DecodeCompact, CompactOf, Build, ParsePublicBlob;
    var blob: seq<Byte> := [0x45, 0x43, 0x53, 0x31, 32, 0, 0, 0] + x + y;
    BlobMeaning(blob, x, y);
    assert blob[8..40] == x && blob[40..72] == y;
    BuildSucceeds(libs, signer, input, blob);
    MethodMeaning(input.method_);
    if DecodeCompact(input.accessToken).Some? {
      DecodeCompactExact(input.accessToken, DecodeCompact(input.accessToken).value);
    }
    forall parts: Parts | CompactOf(input.accessToken, parts)
      ensures DecodeCompact(input.accessToken) == Some(parts)
    {
      DecodeCompactExact(input.accessToken, parts);
    }
  }

  // ---- The proof ----

  ghost predicate HeaderHasKey(libs: Libraries, h: seq<Byte>, x: seq<Byte>, y: seq<Byte>) {
    libs.json.goParse(h).Some? && HeaderMembers(libs.crypto, libs.json.goParse(h).value, x, y)
  }

  /** Exactly the type of a proof, its algorithm, and a key. */
  ghost predicate HeaderMembers(crypto: Crypto.Library, j: Json, x: seq<Byte>, y: seq<Byte>) {
    exists members ::
      && MembersAre(j, {"alg", "typ", "jwk"}, members)
      && TextIs(members, "alg", "ES256") && TextIs(members, "typ", "dpop+jwt")
      && KeySays(crypto, if "jwk" in members then members["jwk"] else Null, x, y)
  }

  ghost predicate PayloadHas(libs: Libraries, p: seq<Byte>, method_: string, uri: string, accessHash: string,
                             issuedAt: int, tokenId: string)
  {
    && libs.json.goParse(p).Some?
    && exists members ::
         && MembersAre(libs.json.goParse(p).value, {"htm", "htu", "ath", "iat", "jti"}, members)
         && TextIs(members, "htm", method_) && TextIs(members, "htu", uri) && TextIs(members, "ath", accessHash)
         && NumberIs(members, "iat", issuedAt) && TextIs(members, "jti", tokenId)
  }

  /** 64 bytes, r and s, each between 0 and the order of the group, that sign both segments for the point (x, y). */
  ghost predicate Signs(crypto: Crypto.Library, x: seq<Byte>, y: seq<Byte>, h: seq<Byte>, p: seq<Byte>, g: seq<Byte>) {
    && |g| == 64
    && 0 < Crypto.BigEndian(g[..32]) < 0xffffffff00000000ffffffffffffffffbce6faada7179e84f3b9cac2fc632551
    && 0 < Crypto.BigEndian(g[32..]) < 0xffffffff00000000ffffffffffffffffbce6faada7179e84f3b9cac2fc632551
    && crypto.ecVerify(Crypto.BigEndian(x), Crypto.BigEndian(y), crypto.sha256(Encode(h) + "." + Encode(p)),
                       Crypto.BigEndian(g[..32]), Crypto.BigEndian(g[32..]))
  }

  /** Sent within sixty seconds of the server's clock, after 1970 and before the token's expiry. */
  ghost predicate Fresh(issuedAt: int, now: int, expiresAt: int) {
    && issuedAt > 0
    && now - 60 * 1_000_000_000 <= issuedAt * 1_000_000_000 <= now + 60 * 1_000_000_000
    && issuedAt * 1_000_000_000 < expiresAt
  }

  ghost predicate AnUri(absolute: string -> bool, uri: string) {
    uri != "" && |uri| <= 8 * 1024 && absolute(uri)
  }

  /**
   The proof is a compact form whose header embeds the key the token is bound to, signed by that key, for this
   method, URI and token, fresh, with an identifier of sixteen bytes.
   */
  ghost predicate ProofHolds(libs: Libraries, absolute: string -> bool, proof: string, request: Request, parts: Parts,
                             x: seq<Byte>, y: seq<Byte>, issuedAt: int, id: seq<Byte>)
  {
    && proof == Encode(parts.header) + "." + Encode(parts.payload) + "." + Encode(parts.signature)
    && parts.header != [] && parts.payload != [] && |proof| <= 16 * 1024
    && request.accessToken != "" && |request.accessToken| <= 16 * 1024
    && !libs.crypto.blank(request.method_)
    && HeaderHasKey(libs, parts.header, x, y)
    && request.claims.proof.Some? && ThumbprintOf(libs.crypto, x, y, request.claims.proof.value.thumbprint)
    && Signs(libs.crypto, x, y, parts.header, parts.payload, parts.signature)
    && (exists upper ::
          && UpperOf(request.method_, upper) && upper != ""
          && PayloadHas(libs, parts.payload, upper, request.uri, Encode(libs.crypto.sha256(request.accessToken)),
                        issuedAt, Encode(id)))
    && AnUri(absolute, request.uri)
    && |libs.crypto.sha256(request.accessToken)| == 32 && |id| == 16
    && Fresh(issuedAt, request.now, request.claims.expiresAt)
  }

  lemma HeaderProofMeaning(libs: Libraries, h: seq<Byte>) returns (x: seq<Byte>, y: seq<Byte>)
    requires HeaderProofKey(libs, h).Some?
    ensures HeaderHasKey(libs, h, x, y)
    ensures ThumbprintOf(libs.crypto, x, y, HeaderProofKey(libs, h).value.thumbprint)
    ensures HeaderProofKey(libs, h).value.x == Crypto.BigEndian(x)
    ensures HeaderProofKey(libs, h).value.y == Crypto.BigEndian(y)
  {
    hide ParseJwk, MembersOf, TextField, MembersAre, TextIs, Crypto.BigEndian, ThumbprintOf, KeySays;
    var j := libs.json.goParse(h).value;
    var members := MembersOf(j, {"alg", "typ", "jwk"}).value;
    MembersMeaning(j, {"alg", "typ", "jwk"}, members);
    FieldsMeaning(members);
    x, y := ParsedKeySays(libs.crypto, ReadProofHeader(j).value.jwk);
  }

  lemma HeaderKeyProved(libs: Libraries, h: seq<Byte>, x: seq<Byte>, y: seq<Byte>, thumbprint: string)
    requires HeaderHasKey(libs, h, x, y) && ThumbprintOf(libs.crypto, x, y, thumbprint)
    ensures HeaderProofKey(libs, h) == Some(Key(Crypto.BigEndian(x), Crypto.BigEndian(y), thumbprint))
  {
    hide ParseJwk, MembersOf, TextField, MembersAre, TextIs, Crypto.BigEndian, ThumbprintOf, KeySays;
    var j := libs.json.goParse(h).value;
    var members :| && MembersAre(j, {"alg", "typ", "jwk"}, members)
                   && TextIs(members, "alg", "ES256") && TextIs(members, "typ", "dpop+jwt")
                   && KeySays(libs.crypto, if "jwk" in members then members["jwk"] else Null, x, y);
    MembersMeaning(j, {"alg", "typ", "jwk"}, members);
    FieldsMeaning(members);
    SaidKeyParses(libs.crypto, if "jwk" in members then members["jwk"] else Null, x, y, thumbprint);
  }

  lemma IntFieldMeaning(members: Members, name: string, n: int)
    ensures IntField(members, name) == Some(n) <==> NumberIs(members, name, n)
  {
  }

  lemma PayloadMeaning(libs: Libraries, p: seq<Byte>, payload: ProofPayload)
    ensures PayloadOf(libs, p) == Some(payload)
       <==> PayloadHas(libs, p, payload.method_, payload.uri, payload.accessHash, payload.issuedAt, payload.tokenId)
  {
    hide MembersOf, TextField, IntField, MembersAre, TextIs, NumberIs;
    var known := {"htm", "htu", "ath", "iat", "jti"};
    if PayloadOf(libs, p) == Some(payload) {
      var members := MembersOf(libs.json.goParse(p).value, known).value;
      MembersMeaning(libs.json.goParse(p).value, known, members);
      FieldsMeaning(members);
      IntFieldMeaning(members, "iat", payload.issuedAt);
    }
    if PayloadHas(libs, p, payload.method_, payload.uri, payload.accessHash, payload.issuedAt, payload.tokenId) {
      var members :|
        && MembersAre(libs.json.goParse(p).value, known, members)
        && TextIs(members, "htm", payload.method_) && TextIs(members, "htu", payload.uri)
        && TextIs(members, "ath", payload.accessHash)
        && NumberIs(members, "iat", payload.issuedAt) && TextIs(members, "jti", payload.tokenId);
      MembersMeaning(libs.json.goParse(p).value, known, members);
      FieldsMeaning(members);
      IntFieldMeaning(members, "iat", payload.issuedAt);
    }
  }

  lemma SignsMeaning(crypto: Crypto.Library, key: Key, x: seq<Byte>, y: seq<Byte>, parts: Parts)
    requires key.x == Crypto.BigEndian(x) && key.y == Crypto.BigEndian(y)
    ensures SignatureHolds(crypto, key, SigningInput(parts), parts.signature)
       <==> Signs(crypto, x, y, parts.header, parts.payload, parts.signature)
  {
    hide Crypto.BigEndian, Encode;
  }

  /** The payload test in the words of the request. */
  lemma AcceptedPayload(crypto: Crypto.Library, absolute: string -> bool, payload: ProofPayload, request: Request)
    ensures PayloadAccepted(crypto, absolute, payload, request) <==>
            && UpperOf(request.method_, payload.method_) && payload.method_ != ""
            && payload.uri == request.uri && AnUri(absolute, request.uri)
            && payload.accessHash == Encode(crypto.sha256(request.accessToken))
            && |crypto.sha256(request.accessToken)| == 32
            && Fresh(payload.issuedAt, request.now, request.claims.expiresAt)
            && RandomOf(payload.tokenId, 16)
  {
    hide CanonicalRandom, Encode, Upper, UpperOf, RandomOf;
    UpperMeaning(request.method_, payload.method_);
    RandomMeaning(payload.tokenId, 16);
    RandomMeaning(payload.accessHash, 32);
    DigestIsRandom(crypto.sha256(request.accessToken));
  }

  lemma DigestIsRandom(digest: seq<Byte>)
    ensures RandomOf(Encode(digest), 32) <==> |digest| == 32
  {
    hide Encode;
    if RandomOf(Encode(digest), 32) {
      var b: seq<Byte> :| |b| == 32 && Encode(digest) == Encode(b);
      EncodeInjective(digest, b);
    }
  }

  lemma VerifiedProofHolds(libs: Libraries, absolute: string -> bool, proof: string, request: Request)
    returns (parts: Parts, x: seq<Byte>, y: seq<Byte>, issuedAt: int, id: seq<Byte>)
    requires VerifyDpop(libs, absolute, proof, request).Some?
    ensures ProofHolds(libs, absolute, proof, request, parts, x, y, issuedAt, id)
    ensures VerifyDpop(libs, absolute, proof, request).value
         == ProofClaims(libs.crypto.sha256(Encode(id)), issuedAt * 1_000_000_000, request.claims.proof.value.thumbprint)
  {
    hide HeaderProofKey, PayloadOf, SignatureHolds, PayloadAccepted, DecodeCompact, Encode, HeaderHasKey, ThumbprintOf,
         Signs, PayloadHas, AnUri, Fresh, UpperOf;
    parts := DecodeCompact(proof).value;
    DecodeCompactExact(proof, parts);
    var key := HeaderProofKey(libs, parts.header).value;
    x, y := HeaderProofMeaning(libs, parts.header);
    SignsMeaning(libs.crypto, key, x, y, parts);
    var payload := PayloadOf(libs, parts.payload).value;
    PayloadMeaning(libs, parts.payload, payload);
    AcceptedPayload(libs.crypto, absolute, payload, request);
    issuedAt := payload.issuedAt;
    id :| |id| == 16 && payload.tokenId == Encode(id);
  }

  lemma HoldingProofVerifies(libs: Libraries, absolute: string -> bool, proof: string, request: Request, parts: Parts,
                             x: seq<Byte>, y: seq<Byte>, issuedAt: int, id: seq<Byte>)
    requires ProofHolds(libs, absolute, proof, request, parts, x, y, issuedAt, id)
    ensures VerifyDpop(libs, absolute, proof, request)
         == Some(ProofClaims(libs.crypto.sha256(Encode(id)), issuedAt * 1_000_000_000,
                             request.claims.proof.value.thumbprint))
  {
    hide HeaderProofKey, PayloadOf, SignatureHolds, PayloadAccepted, DecodeCompact, Encode, HeaderHasKey, ThumbprintOf,
         PayloadHas, AnUri, Fresh, UpperOf, VerifyDpop;
    var thumbprint := request.claims.proof.value.thumbprint;
    HeaderKeyProved(libs, parts.header, x, y, thumbprint);
    var key := Key(Crypto.BigEndian(x), Crypto.BigEndian(y), thumbprint);
    SignsMeaning(libs.crypto, key, x, y, parts);
    assert parts.signature != [];
    var upper :| && UpperOf(request.method_, upper) && upper != ""
                 && PayloadHas(libs, parts.payload, upper, request.uri,
                               Encode(libs.crypto.sha256(request.accessToken)), issuedAt, Encode(id));
    var payload := ProofPayload(upper, request.uri, Encode(libs.crypto.sha256(request.accessToken)), issuedAt,
                                Encode(id));
    PayloadMeaning(libs, parts.payload, payload);
    AcceptedPayload(libs.crypto, absolute, payload, request);
    VerifyProofParts(libs, absolute, proof, request, parts, key, payload);
  }

  /** The server accepts a proof, whoever made it, exactly when it holds for the request; and returns what it says. */
  lemma VerifyDpopExactly(libs: Libraries, absolute: string -> bool, proof: string, request: Request,
                          result: ProofClaims)
    ensures VerifyDpop(libs, absolute, proof, request) == Some(result) <==>
            exists parts, x, y, issuedAt, id ::
              && ProofHolds(libs, absolute, proof, request, parts, x, y, issuedAt, id)
              && result == ProofClaims(libs.crypto.sha256(Encode(id)), issuedAt * 1_000_000_000,
                                       request.claims.proof.value.thumbprint)
  {
    hide VerifyDpop, Encode;
    if VerifyDpop(libs, absolute, proof, request) == Some(result) {
      var parts, x, y, issuedAt, id := VerifiedProofHolds(libs, absolute, proof, request);
    }
    if parts, x, y, issuedAt, id :|
      && ProofHolds(libs, absolute, proof, request, parts, x, y, issuedAt, id)
      && result == ProofClaims(libs.crypto.sha256(Encode(id)), issuedAt * 1_000_000_000,
                               request.claims.proof.value.thumbprint)
    {
      HoldingProofVerifies(libs, absolute, proof, request, parts, x, y, issuedAt, id);
    }
  }

  // ---- The gate ----

  /** `base` without the slashes at its end. */
  ghost predicate Trimmed(base: string, trimmed: string) {
    && trimmed <= base
    && (forall i :: |trimmed| <= i < |base| ==> base[i] == '/')
    && (trimmed != "" ==> trimmed[|trimmed| - 1] != '/')
  }

  lemma {:induction false} TrimMeaning(base: string, trimmed: string)
    ensures TrimSlashes(base) == trimmed <==> Trimmed(base, trimmed)
  {
    if base != "" && base[|base| - 1] == '/' {
      var shorter := base[..|base| - 1];
      TrimMeaning(shorter, trimmed);
      assert forall i :: 0 <= i < |shorter| ==> shorter[i] == base[i];
      if Trimmed(base, trimmed) {
        assert trimmed != base;
        assert trimmed <= shorter;
      }
    }
  }

  /** The token of the request is the server's, for these claims, and still valid at both clock readings. */
  ghost predicate Bears(libs: Libraries, event: Event, token: string, claims: Claims) {
    && event.request.authorization == [["DPoP", token]]
    && |token| <= 16 * 1024
    && (exists h, p, g ::
          SignedClaims(libs, event.server.publicKey, event.server.policy.keyId, token, claims, h, p, g))
    && Permitted(event.server.policy, claims, event.instants.verify)
    && event.instants.check < claims.expiresAt
  }

  /** The request carries one proof, by the key its token is bound to, for its method and address. */
  ghost predicate Proves(libs: Libraries, event: Event, token: string, claims: Claims, id: seq<Byte>) {
    && event.server.ready && |event.request.proofs| == 1
    && exists base, parts, x, y, issuedAt ::
         && Trimmed(event.server.baseUrl, base)
         && ProofHolds(libs, event.server.absolute, event.request.proofs[0],
                       Request(token, event.request.method_, base + event.request.path, claims, event.instants.check),
                       parts, x, y, issuedAt, id)
  }

  ghost predicate Passes(libs: Libraries, event: Event, token: string, claims: Claims, id: seq<Byte>) {
    Bears(libs, event, token, claims) && Proves(libs, event, token, claims, id)
  }

  lemma CheckedPasses(libs: Libraries, event: Event) returns (token: string, claims: Claims, id: seq<Byte>)
    requires Checked(libs, event).Some?
    ensures Passes(libs, event, token, claims, id)
    ensures Checked(libs, event) == Some((libs.crypto.sha256(Encode(id)), claims.expiresAt))
  {
    hide Verify, VerifyDpop, TrimSlashes, Encode, ProofHolds, SignedClaims, Permitted, Trimmed;
    var server, request := event.server, event.request;
    token := request.authorization[0][1];
    assert request.authorization[0] == ["DPoP", token];
    claims := Verify(libs, server.publicKey, server.policy, token, event.instants.verify).value;
    VerifyExactly(libs, server.publicKey, server.policy, token, event.instants.verify, claims);
    var base := TrimSlashes(server.baseUrl);
    TrimMeaning(server.baseUrl, base);
    var parts, x, y, issuedAt;
    parts, x, y, issuedAt, id := VerifiedProofHolds(
      libs, server.absolute, request.proofs[0],
      Request(token, request.method_, base + request.path, claims, event.instants.check));
  }

  lemma PassingIsChecked(libs: Libraries, event: Event, token: string, claims: Claims, id: seq<Byte>)
    requires Passes(libs, event, token, claims, id)
    ensures Checked(libs, event) == Some((libs.crypto.sha256(Encode(id)), claims.expiresAt))
  {
    hide Verify, VerifyDpop, TrimSlashes, Encode, SignedClaims, Permitted, Trimmed, ProofHolds;
    var server, request := event.server, event.request;
    VerifyExactly(libs, server.publicKey, server.policy, token, event.instants.verify, claims);
    var base, parts, x, y, issuedAt :|
      && Trimmed(server.baseUrl, base)
      && ProofHolds(libs, server.absolute, request.proofs[0],
                    Request(token, request.method_, base + request.path, claims, event.instants.check),
                    parts, x, y, issuedAt, id);
    TrimMeaning(server.baseUrl, base);
    ProofHoldsBound(libs, server.absolute, request.proofs[0],
                    Request(token, request.method_, base + request.path, claims, event.instants.check),
                    parts, x, y, issuedAt, id);
    HoldingProofVerifies(libs, server.absolute, request.proofs[0],
                         Request(token, request.method_, base + request.path, claims, event.instants.check),
                         parts, x, y, issuedAt, id);
  }

  lemma ProofHoldsBound(libs: Libraries, absolute: string -> bool, proof: string, request: Request, parts: Parts,
                        x: seq<Byte>, y: seq<Byte>, issuedAt: int, id: seq<Byte>)
    requires ProofHolds(libs, absolute, proof, request, parts, x, y, issuedAt, id)
    ensures request.claims.proof.Some?
  {
  }

  /**
   The table already has a row for the identifier that blocks the insert: any row, unless the cleanup of the
   statement ran first and the row's token had expired by the database's clock.
   */
  ghost predicate Taken(rows: Rows, digest: Digest, event: Event) {
    digest in rows && !(event.cleanupFirst && rows[digest] < event.instants.consume)
  }

  /**
   In every run of any servers on one table a request is admitted exactly when it bears a valid token, proves
   possession of the token's key for itself, and its proof's identifier is not taken.
   */
  lemma AdmittedExactly(libs: Libraries, rows: Rows, events: seq<Event>, i: nat)
    requires i < |events|
    ensures Admitted(libs, rows, events, i) <==>
            exists token, claims, id ::
              && Passes(libs, events[i], token, claims, id)
              && !Taken(RowsAfter(libs, rows, events[..i]), libs.crypto.sha256(Encode(id)), events[i])
  {
    hide Checked, RowsAfter, Passes, Encode;
    if Checked(libs, events[i]).Some? {
      var token, claims, id := CheckedPasses(libs, events[i]);
    }
    forall token, claims, id | Passes(libs, events[i], token, claims, id)
      ensures Checked(libs, events[i]) == Some((libs.crypto.sha256(Encode(id)), claims.expiresAt))
    {
      PassingIsChecked(libs, events[i], token, claims, id);
    }
  }
}
