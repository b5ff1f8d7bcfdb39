/**
 DPoP proofs (RFC 9449 sections 4.2 and 4.3) with P-256 keys and RFC 7638 thumbprints: the proof the client builds
 from its TPM key blob, the checks the server makes, and their agreement.
 */
module Dpop {
  import opened Prelude
  import opened Base64Url
  import opened CompactToken
  import opened JsonText
  import opened JsonScanner
  import opened SessionToken
  import Crypto

  const CLOCK_SKEW := 60 * SECOND
  const COORDINATE_BYTES := 32
  const BLOB_BYTES := 72
  const BLOB_MAGIC := 0x31534345
  const MAX_URI_BYTES := 8 * 1024
  /** The order of the P-256 group. */
  const GROUP_ORDER := 0xffffffff00000000ffffffffffffffffbce6faada7179e84f3b9cac2fc632551

  // ---- Keys and thumbprints ----

  datatype Key = Key(x: nat, y: nat, thumbprint: string)

  function Coordinate(encoded: string): Option<nat> {
    var bytes :- GoSegment(encoded);
    if |bytes| != COORDINATE_BYTES || Crypto.BigEndian(bytes) == 0 then None else Some(Crypto.BigEndian(bytes))
  }

  /** The text an RFC 7638 thumbprint hashes: the required members in order, without white space. */
  function CanonicalJwk(x: string, y: string): string {
    "{\"crv\":\"P-256\",\"kty\":\"EC\",\"x\":\"" + x + "\",\"y\":\"" + y + "\"}"
  }

  function Thumbprint(crypto: Crypto.Library, x: string, y: string): string {
    Encode(crypto.sha256(CanonicalJwk(x, y)))
  }

  /** `ParseP256JWK` on the value of the key document. */
  function ParseJwk(crypto: Crypto.Library, j: Json): Option<Key> {
    var members :- MembersOf(j, {"kty", "crv", "x", "y"});
    var keyType :- TextField(members, "kty");
    var curve :- TextField(members, "crv");
    var x :- TextField(members, "x");
    var y :- TextField(members, "y");
    if keyType != "EC" || curve != "P-256" || x == "" || y == "" then None
    else
      var xValue :- Coordinate(x);
      var yValue :- Coordinate(y);
      var thumbprint := Thumbprint(crypto, x, y);
      if !crypto.onCurve(xValue, yValue) || !CanonicalRandom(thumbprint, 32) then None
      else Some(Key(xValue, yValue, thumbprint))
  }

  function JwkJson(x: string, y: string): Json {
    Object(map["crv" := Text("P-256"), "kty" := Text("EC"), "x" := Text(x), "y" := Text(y)])
  }

  /** The key the server derives from a presented blob, before any transaction. */
  function KeyOfBlob(crypto: Crypto.Library, blob: seq<Byte>): Option<Key>
    requires |blob| == BLOB_BYTES
  {
    ParseJwk(crypto, JwkJson(Encode(blob[8..40]), Encode(blob[40..72])))
  }

  // ---- The server's checks ----

  datatype ProofHeader = ProofHeader(algorithm: string, kind: string, jwk: Json)

  function ReadProofHeader(j: Json): Option<ProofHeader> {
    var members :- MembersOf(j, {"alg", "typ", "jwk"});
    var algorithm :- TextField(members, "alg");
    var kind :- TextField(members, "typ");
    Some(ProofHeader(algorithm, kind, if "jwk" in members then members["jwk"] else Null))
  }

  datatype ProofPayload = ProofPayload(method_: string, uri: string, accessHash: string, issuedAt: int, tokenId: string)

  function ReadProofPayload(j: Json): Option<ProofPayload> {
    var members :- MembersOf(j, {"htm", "htu", "ath", "iat", "jti"});
    var method_ :- TextField(members, "htm");
    var uri :- TextField(members, "htu");
    var accessHash :- TextField(members, "ath");
    var issuedAt :- IntField(members, "iat");
    var tokenId :- TextField(members, "jti");
    Some(ProofPayload(method_, uri, accessHash, issuedAt, tokenId))
  }

  /** Upper case of the ASCII characters a method consists of. */
  function Upper(text: string): string {
    seq(|text|, i requires 0 <= i < |text| => if 'a' <= text[i] <= 'z' then text[i] - 'a' + 'A' else text[i])
  }

  /** `verifyCompactECDSASignature`: 64 bytes, both halves in the group's range, and the equation holds. */
  predicate SignatureHolds(crypto: Crypto.Library, key: Key, signingInput: string, signature: seq<Byte>) {
    && |signature| == 2 * COORDINATE_BYTES
    && var r, s := Crypto.BigEndian(signature[..32]), Crypto.BigEndian(signature[32..]);
    && 0 < r < GROUP_ORDER && 0 < s < GROUP_ORDER
    && crypto.ecVerify(key.x, key.y, crypto.sha256(signingInput), r, s)
  }

  function AccessHash(crypto: Crypto.Library, accessToken: string): string {
    Encode(crypto.sha256(accessToken))
  }

  /** `absolute` is the outcome of parsing a URL and testing its shape. */
  predicate UriOk(absolute: string -> bool, uri: string) {
    uri != "" && |uri| <= MAX_URI_BYTES && absolute(uri)
  }

  /** A request as the server sees it. `now` is the instant the caller passes. */
  datatype Request = Request(accessToken: string, method_: string, uri: string, claims: Claims, now: int)

  datatype ProofClaims = ProofClaims(tokenIdDigest: seq<Byte>, issuedAt: int, thumbprint: string)

  /** Issued at most sixty seconds from the server's clock, after 1970, and before the token's expiry. */
  predicate FreshAt(issuedAt: int, now: int, expiresAt: int) {
    && issuedAt > 0
    && now - CLOCK_SKEW <= issuedAt * SECOND <= now + CLOCK_SKEW
    && issuedAt * SECOND < expiresAt
  }

  predicate PayloadAccepted(crypto: Crypto.Library, absolute: string -> bool, payload: ProofPayload, request: Request) {
    && payload.method_ != "" && payload.method_ == Upper(request.method_)
    && UriOk(absolute, payload.uri) && UriOk(absolute, request.uri) && payload.uri == request.uri
    && CanonicalRandom(payload.accessHash, 32) && payload.accessHash == AccessHash(crypto, request.accessToken)
    && FreshAt(payload.issuedAt, request.now, request.claims.expiresAt)
    && CanonicalRandom(payload.tokenId, 16)
  }

  /** The key a proof header embeds, if the header is an ES256 proof header. */
  function HeaderProofKey(libs: Libraries, bytes: seq<Byte>): Option<Key> {
    var json :- libs.json.goParse(bytes);
    var header :- ReadProofHeader(json);
    if header.algorithm != "ES256" || header.kind != "dpop+jwt" then None else ParseJwk(libs.crypto, header.jwk)
  }

  function PayloadOf(libs: Libraries, bytes: seq<Byte>): Option<ProofPayload> {
    var json :- libs.json.goParse(bytes);
    ReadProofPayload(json)
  }

  function VerifyDpop(libs: Libraries, absolute: string -> bool, proof: string, request: Request): Option<ProofClaims> {
    if proof == "" || |proof| > MAX_TOKEN_BYTES || request.accessToken == "" || |request.accessToken| > MAX_TOKEN_BYTES
       || libs.crypto.blank(request.method_) || request.claims.proof.None? then None
    else
      var parts :- DecodeCompact(proof);
      var key :- HeaderProofKey(libs, parts.header);
      if key.thumbprint != request.claims.proof.value.thumbprint then None
      else if !SignatureHolds(libs.crypto, key, SigningInput(parts), parts.signature) then None
      else
        var payload :- PayloadOf(libs, parts.payload);
        if PayloadAccepted(libs.crypto, absolute, payload, request)
        then Some(ProofClaims(libs.crypto.sha256(payload.tokenId), payload.issuedAt * SECOND, key.thumbprint))
        else None
  }

  // ---- The client's builder ----

  function LittleEndian32(blob: seq<Byte>, offset: nat): nat
    requires offset + 4 <= |blob|
  {
    blob[offset] as int + 0x100 * blob[offset + 1] as int + 0x1_0000 * blob[offset + 2] as int
    + 0x100_0000 * blob[offset + 3] as int
  }

  /** The coordinates of a CNG public key blob. */
  function ParsePublicBlob(blob: seq<Byte>): Option<(seq<Byte>, seq<Byte>)> {
    if |blob| != BLOB_BYTES || LittleEndian32(blob, 0) != BLOB_MAGIC || LittleEndian32(blob, 4) != COORDINATE_BYTES
    then None else Some((blob[8..40], blob[40..72]))
  }

  predicate TokenChar(c: char) {
    'A' <= c <= 'Z' || 'a' <= c <= 'z' || '0' <= c <= '9' || c in "!#$%&'*+.^_`|~-"
  }

  /** The method pattern; its end anchor also matches before one final line feed. */
  predicate ValidMethod(method_: string) {
    var body := if method_ != "" && method_[|method_| - 1] == '\n' then method_[..|method_| - 1] else method_;
    body != "" && forall c :: c in body ==> TokenChar(c)
  }

  /** `validCompactAccessToken`. */
  predicate CompactAccessToken(token: string) {
    DecodeCompact(token).Some? && |DecodeCompact(token).value.signature| == 64
  }

  /** The TPM: its key blob, and for a message a signature with the blob of the key that made it. */
  datatype Signer = Signer(blob: Option<seq<Byte>>, sign: string -> Option<(seq<Byte>, seq<Byte>)>)

  function ProofHeaderJson(x: string, y: string): Json {
    Object(map["alg" := Text("ES256"), "jwk" := JwkJson(x, y), "typ" := Text("dpop+jwt")])
  }

  function ProofPayloadJson(payload: ProofPayload): Json {
    Object(map["ath" := Text(payload.accessHash), "htm" := Text(payload.method_), "htu" := Text(payload.uri),
               "iat" := Integer(payload.issuedAt), "jti" := Text(payload.tokenId)])
  }

  datatype BuiltProof = BuiltProof(compact: string, thumbprint: string)

  /** What a build is given: `uri` is the canonical form of the URL, absent when it has none. */
  datatype BuildInput = BuildInput(method_: string, uri: Option<string>, accessToken: string,
                                   expectedThumbprint: string, random: seq<Byte>, clock: int)

  function PayloadToSign(crypto: Crypto.Library, input: BuildInput): ProofPayload
    requires input.uri.Some?
  {
    ProofPayload(Upper(input.method_), input.uri.value, AccessHash(crypto, input.accessToken), input.clock,
                 Encode(input.random))
  }

  /** `DeviceProofBuilder::build`. */
  function Build(libs: Libraries, signer: Signer, input: BuildInput): Option<BuiltProof> {
    if !CompactAccessToken(input.accessToken) || !ValidMethod(input.method_) || input.uri.None? then None
    else
      var blob :- signer.blob;
      var (x, y) :- ParsePublicBlob(blob);
      var thumbprint := Thumbprint(libs.crypto, Encode(x), Encode(y));
      if input.expectedThumbprint != thumbprint || |input.random| != 16 then None
      else
        var header := libs.json.qtPrint(ProofHeaderJson(Encode(x), Encode(y)));
        var payload := libs.json.qtPrint(ProofPayloadJson(PayloadToSign(libs.crypto, input)));
        var signingInput := Encode(header) + "." + Encode(payload);
        var (signature, signedBlob) :- signer.sign(signingInput);
        if |signature| != 64 || signedBlob != blob then None
        else Some(BuiltProof(signingInput + "." + Encode(signature), thumbprint))
  }

  // ---- Lengths ----

  lemma EncodingIsCanonical(bytes: seq<Byte>)
    ensures CanonicalRandom(Encode(bytes), |bytes|)
  {
    hide GoSegment, Encode;
    GoSegmentExact(Encode(bytes), bytes);
  }

  /** Thumbprints and access hashes have 43 characters, proof identifiers 22, signatures 86, and no others do. */
  lemma CanonicalLengths(value: string, bytes: seq<Byte>)
    requires value == Encode(bytes)
    ensures |value| == 43 <==> |bytes| == 32
    ensures |value| == 22 <==> |bytes| == 16
    ensures |value| == 86 <==> |bytes| == 64
  {
  }

  // ---- What the server reads of a built proof ----

  lemma ProofHeaderFields(x: string, y: string)
    ensures var members := MembersOf(ProofHeaderJson(x, y), {"alg", "typ", "jwk"});
            && members == Some(ProofHeaderJson(x, y).members)
            && Has(members.value, "alg", Text("ES256")) && Has(members.value, "typ", Text("dpop+jwt"))
            && Has(members.value, "jwk", JwkJson(x, y))
  {
    hide JwkJson;
  }

  lemma ProofHeaderReadBack(x: string, y: string)
    ensures Plain(ProofHeaderJson(x, y), MAX_DEPTH)
    ensures ReadProofHeader(ProofHeaderJson(x, y)) == Some(ProofHeader("ES256", "dpop+jwt", JwkJson(x, y)))
  {
    assert Plain(JwkJson(x, y), MAX_DEPTH - 1);
    hide JwkJson, Plain;
    ProofHeaderFields(x, y);
    hide ProofHeaderJson, MembersOf;
  }

  lemma PayloadCarries(payload: ProofPayload)
    ensures var members := ProofPayloadJson(payload).members;
            && MembersOf(ProofPayloadJson(payload), {"htm", "htu", "ath", "iat", "jti"}) == Some(members)
            && Has(members, "ath", Text(payload.accessHash)) && Has(members, "htm", Text(payload.method_))
            && Has(members, "htu", Text(payload.uri)) && Has(members, "iat", Integer(payload.issuedAt))
            && Has(members, "jti", Text(payload.tokenId))
  {
  }

  lemma ProofPayloadReadBack(payload: ProofPayload)
    requires -INT64_LIMIT <= payload.issuedAt < INT64_LIMIT
    ensures Plain(ProofPayloadJson(payload), MAX_DEPTH)
    ensures ReadProofPayload(ProofPayloadJson(payload)) == Some(payload)
  {
    var members := ProofPayloadJson(payload).members;
    PayloadCarries(payload);
    HasText(members, "ath", payload.accessHash);
    HasText(members, "htm", payload.method_);
    HasText(members, "htu", payload.uri);
    HasInteger(members, "iat", payload.issuedAt);
    HasText(members, "jti", payload.tokenId);
    hide TextField, IntField, Has, MembersOf;
  }

  /** What the TPM promises: a signature it gives with a blob holds for the key of that blob. */
  ghost predicate SignsFor(crypto: Crypto.Library, signer: Signer, blob: seq<Byte>, key: Key) {
    forall message {:trigger signer.sign(message)} ::
      match signer.sign(message)
      case Some((signature, signedBlob)) => signedBlob == blob ==> SignatureHolds(crypto, key, message, signature)
      case None => true
  }

  function BuiltHeader(libs: Libraries, blob: seq<Byte>): seq<Byte>
    requires |blob| == BLOB_BYTES
  {
    libs.json.qtPrint(ProofHeaderJson(Encode(blob[8..40]), Encode(blob[40..72])))
  }

  function BuiltPayload(libs: Libraries, input: BuildInput): seq<Byte>
    requires input.uri.Some?
  {
    libs.json.qtPrint(ProofPayloadJson(PayloadToSign(libs.crypto, input)))
  }

  /** A built proof is the compact form of its header, its payload and a signature that holds over both. */
  lemma BuiltParts(libs: Libraries, signer: Signer, input: BuildInput, key: Key) returns (parts: Parts)
    requires LawfulLibraries(libs) && Build(libs, signer, input).Some? && -INT64_LIMIT <= input.clock < INT64_LIMIT
    requires SignsFor(libs.crypto, signer, signer.blob.value, key)
    ensures |signer.blob.value| == BLOB_BYTES && input.uri.Some?
    ensures Build(libs, signer, input).value.compact == Compact(parts)
    ensures parts.header == BuiltHeader(libs, signer.blob.value) && parts.payload == BuiltPayload(libs, input)
    ensures parts.header != [] && parts.payload != [] && |parts.signature| == 64
    ensures SignatureHolds(libs.crypto, key, SigningInput(parts), parts.signature)
  {
    hide CompactAccessToken, ValidMethod, Thumbprint, ProofHeaderJson, ProofPayloadJson, Plain, Encode, UniqueMembers,
         LittleEndian32, SignatureHolds;
    var blob := signer.blob.value;
    var h, p := BuiltHeader(libs, blob), BuiltPayload(libs, input);
    var (signature, _) := signer.sign(Encode(h) + "." + Encode(p)).value;
    parts := Parts(h, p, signature);
    ProofHeaderReadBack(Encode(blob[8..40]), Encode(blob[40..72]));
    ProofPayloadReadBack(PayloadToSign(libs.crypto, input));
    PrintedPassesScan(libs.json, h, ProofHeaderJson(Encode(blob[8..40]), Encode(blob[40..72])));
    PrintedPassesScan(libs.json, p, ProofPayloadJson(PayloadToSign(libs.crypto, input)));
  }

  // ---- Agreement ----

  lemma JwkFields(x: string, y: string)
    ensures var members := MembersOf(JwkJson(x, y), {"kty", "crv", "x", "y"});
            && members.Some?
            && TextField(members.value, "kty") == Some("EC") && TextField(members.value, "crv") == Some("P-256")
            && TextField(members.value, "x") == Some(x) && TextField(members.value, "y") == Some(y)
  {
  }

  /** The two languages agree on the thumbprint of a blob, whenever the server accepts its key. */
  lemma ThumbprintsAgree(crypto: Crypto.Library, blob: seq<Byte>, key: Key)
    requires |blob| == BLOB_BYTES && KeyOfBlob(crypto, blob) == Some(key)
    ensures key.thumbprint == Thumbprint(crypto, Encode(blob[8..40]), Encode(blob[40..72]))
    ensures ParsePublicBlob(blob).Some? ==> ParsePublicBlob(blob).value == (blob[8..40], blob[40..72])
    ensures key.x == Crypto.BigEndian(blob[8..40]) && key.y == Crypto.BigEndian(blob[40..72])
  {
    hide JwkJson, Encode, Thumbprint, MembersOf, TextField, GoSegment, CanonicalRandom, Crypto.BigEndian,
         LittleEndian32;
    JwkFields(Encode(blob[8..40]), Encode(blob[40..72]));
    GoSegmentExact(Encode(blob[8..40]), blob[8..40]);
    GoSegmentExact(Encode(blob[40..72]), blob[40..72]);
  }

  /** A signer that always answers with its own blob. */
  ghost predicate Answers(signer: Signer, blob: seq<Byte>) {
    && signer.blob == Some(blob)
    && forall message {:trigger signer.sign(message)} ::
         match signer.sign(message)
         case Some((signature, signedBlob)) => |signature| == 64 && signedBlob == blob
         case None => false
  }

  /** With a working TPM a build succeeds exactly for a sound token, method, URL and key expectation. */
  lemma BuildSucceeds(libs: Libraries, signer: Signer, input: BuildInput, blob: seq<Byte>)
    requires Answers(signer, blob) && ParsePublicBlob(blob).Some?
    ensures Build(libs, signer, input).Some?
       <==> && CompactAccessToken(input.accessToken) && ValidMethod(input.method_) && input.uri.Some?
            && input.expectedThumbprint == Thumbprint(libs.crypto, Encode(blob[8..40]), Encode(blob[40..72]))
            && |input.random| == 16
  {
    hide CompactAccessToken, ValidMethod, Thumbprint, ProofHeaderJson, ProofPayloadJson, Encode, LittleEndian32;
  }

  lemma PayloadVerdict(crypto: Crypto.Library, absolute: string -> bool, input: BuildInput, request: Request)
    requires Crypto.Lawful(crypto) && input.uri.Some? && ValidMethod(input.method_) && |input.random| == 16
    requires request.accessToken == input.accessToken
    ensures PayloadAccepted(crypto, absolute, PayloadToSign(crypto, input), request)
       <==> && Upper(request.method_) == Upper(input.method_) && request.uri == input.uri.value
            && UriOk(absolute, request.uri) && FreshAt(input.clock, request.now, request.claims.expiresAt)
  {
    assert Upper(input.method_) != "";
    hide Encode, CanonicalRandom, Upper, ValidMethod, UriOk, FreshAt;
    EncodingIsCanonical(crypto.sha256(input.accessToken));
    EncodingIsCanonical(input.random);
  }

  /** The server's checks on a proof whose parts decode and whose signature holds: only the payload is left. */
  lemma VerifyProofParts(libs: Libraries, absolute: string -> bool, proof: string, request: Request,
                         parts: Parts, key: Key, payload: ProofPayload)
    requires proof == Compact(parts) && parts.header != [] && parts.payload != [] && parts.signature != []
    requires HeaderProofKey(libs, parts.header) == Some(key) && PayloadOf(libs, parts.payload) == Some(payload)
    requires SignatureHolds(libs.crypto, key, SigningInput(parts), parts.signature)
    requires request.accessToken != "" && |request.accessToken| <= MAX_TOKEN_BYTES
    requires !libs.crypto.blank(request.method_)
    requires request.claims.proof.Some? && request.claims.proof.value.thumbprint == key.thumbprint
    ensures VerifyDpop(libs, absolute, proof, request)
         == if |proof| <= MAX_TOKEN_BYTES && PayloadAccepted(libs.crypto, absolute, payload, request)
            then Some(ProofClaims(libs.crypto.sha256(payload.tokenId), payload.issuedAt * SECOND, key.thumbprint))
            else None
  {
    hide HeaderProofKey, PayloadOf, SignatureHolds, PayloadAccepted, DecodeCompact, Encode;
    DecodeCompactExact(proof, parts);
  }

  lemma BuiltHeaderKey(libs: Libraries, blob: seq<Byte>)
    requires LawfulLibraries(libs) && |blob| == BLOB_BYTES
    ensures HeaderProofKey(libs, BuiltHeader(libs, blob)) == KeyOfBlob(libs.crypto, blob)
  {
    ProofHeaderReadBack(Encode(blob[8..40]), Encode(blob[40..72]));
    hide ProofHeaderJson, JwkJson, ReadProofHeader, ParseJwk, Plain, Encode, PrintsDocument;
  }

  lemma BuiltPayloadRead(libs: Libraries, input: BuildInput)
    requires LawfulLibraries(libs) && input.uri.Some? && -INT64_LIMIT <= input.clock < INT64_LIMIT
    ensures PayloadOf(libs, BuiltPayload(libs, input)) == Some(PayloadToSign(libs.crypto, input))
  {
    ProofPayloadReadBack(PayloadToSign(libs.crypto, input));
    hide ProofPayloadJson, PayloadToSign, ReadProofPayload, Plain, PrintsDocument;
  }

  lemma BuiltFor(libs: Libraries, signer: Signer, input: BuildInput)
    requires Build(libs, signer, input).Some?
    ensures CompactAccessToken(input.accessToken) && ValidMethod(input.method_) && |input.random| == 16
    ensures input.accessToken != "" && |input.accessToken| <= MAX_TOKEN_BYTES
  {
    hide ValidMethod, Thumbprint, ProofHeaderJson, ProofPayloadJson, Encode, GoSegment;
  }

  /**
   End-to-end agreement. For a token bound to the key of a blob the server accepts, the proof the client builds with
   that blob is accepted exactly when it fits the size cap, names the request's method and URI, and is fresh.
   */
  lemma ProofAcceptedExactly(libs: Libraries, absolute: string -> bool, signer: Signer, input: BuildInput, key: Key,
                             request: Request)
    requires LawfulLibraries(libs) && Build(libs, signer, input).Some? && -INT64_LIMIT <= input.clock < INT64_LIMIT
    requires |signer.blob.value| == BLOB_BYTES && KeyOfBlob(libs.crypto, signer.blob.value) == Some(key)
    requires SignsFor(libs.crypto, signer, signer.blob.value, key)
    requires request.accessToken == input.accessToken && !libs.crypto.blank(request.method_)
    requires request.claims.proof.Some? && request.claims.proof.value.thumbprint == key.thumbprint
    ensures var proof := Build(libs, signer, input).value.compact;
            VerifyDpop(libs, absolute, proof, request)
            == if |proof| <= MAX_TOKEN_BYTES
                  && Upper(request.method_) == Upper(input.method_) && Some(request.uri) == input.uri
                  && UriOk(absolute, request.uri) && FreshAt(input.clock, request.now, request.claims.expiresAt)
               then Some(ProofClaims(libs.crypto.sha256(Encode(input.random)), input.clock * SECOND, key.thumbprint))
               else None
  {
    var blob := signer.blob.value;
    var parts := BuiltParts(libs, signer, input, key);
    BuiltFor(libs, signer, input);
    PayloadVerdict(libs.crypto, absolute, input, request);
    BuiltHeaderKey(libs, blob);
    BuiltPayloadRead(libs, input);
    hide Build, KeyOfBlob, HeaderProofKey, PayloadOf, SignatureHolds, PayloadAccepted, VerifyDpop, FreshAt, UriOk,
         Upper, BuiltHeader, BuiltPayload, Encode, CompactAccessToken, ValidMethod, SignsFor, LawfulLibraries, Compact,
         SigningInput;
    VerifyProofParts(libs, absolute, Build(libs, signer, input).value.compact, request, parts, key,
                     PayloadToSign(libs.crypto, input));
  }

  // ---- Clocks ----

  /**
   The client's clock counts whole seconds. For a client at instant `client` and a server at `server`, the proof's
   age as the server sees it is their difference plus the fraction of a second the client dropped.
   */
  lemma FreshnessOfClocks(client: int, server: int, expiresAt: int)
    requires client >= SECOND && Unix(client) * SECOND < expiresAt
    ensures FreshAt(Unix(client), server, expiresAt)
       <==> -CLOCK_SKEW <= server - client + client % SECOND <= CLOCK_SKEW
    ensures -CLOCK_SKEW <= server - client <= CLOCK_SKEW - SECOND + 1 ==> FreshAt(Unix(client), server, expiresAt)
  {
    assert Unix(client) * SECOND == client - client % SECOND;
  }

  /** Clocks that differ by exactly sixty seconds can therefore disagree: a proof made late in a second is refused. */
  lemma SixtySecondsApartCanFail()
    ensures var client := 100 * SECOND + SECOND / 2;
            var server := client + CLOCK_SKEW;
            !FreshAt(Unix(client), server, server + LIFETIME)
                && FreshAt(Unix(client), server - SECOND / 2, server + LIFETIME)
  {
  }
}
