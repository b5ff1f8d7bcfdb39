/** From a committed verification to an admitted request: the token and proof layers of both languages together. */
module EndToEnd {
  import opened Prelude
  import opened Base64Url
  import opened CompactToken
  import opened JsonText
  import opened SessionToken
  import opened SessionTokenClient
  import opened Dpop
  import opened DpopReplay
  import Crypto
  import A = Activation
  import ActivationInvariant
  import Protocol = ActivationProtocol
  import Theorems = ActivationTheorems

  // ---- After the commit ----

  /** What a committed verification hands to the issuer. */
  datatype Commit = Commit(sessionId: string, randomId: seq<Byte>, key: Key, userId: string, licenseId: string,
                           deviceId: string, policyNow: int)

  /** The claims the service builds: the policy instant cut to whole seconds, and 600 seconds more. */
  function ClaimsOf(policy: Policy, commit: Commit): Claims {
    var issuedAt := commit.policyNow - commit.policyNow % SECOND;
    Claims(policy.applicationId, policy.productId,
           Some(Proof(commit.sessionId, Encode(commit.randomId), commit.key.thumbprint, issuedAt)),
           commit.userId, commit.licenseId, commit.deviceId, policy.product, Some([]), policy.issuer, policy.audience,
           issuedAt, issuedAt + LIFETIME)
  }

  /** Stored identifiers are not empty, the random identifier has 128 bits, and the clock is past 1970. */
  predicate CommitOk(commit: Commit) {
    && commit.sessionId != "" && commit.userId != "" && commit.licenseId != "" && commit.deviceId != ""
    && |commit.randomId| == 16 && CanonicalRandom(commit.key.thumbprint, 32)
    && 0 <= commit.policyNow < (EXACT - 600) * SECOND
  }

  lemma CommitClaimsAcceptable(policy: Policy, commit: Commit)
    requires CommitOk(commit)
    ensures Acceptable(ClaimsOf(policy, commit), policy) && ExactTimes(ClaimsOf(policy, commit))
          && Representable(ClaimsOf(policy, commit))
    ensures ClaimsOf(policy, commit).features.Some? && Unix(ClaimsOf(policy, commit).issuedAt) >= 0
  {
    EncodingIsCanonical(commit.randomId);
    hide CanonicalRandom, Encode;
    WholeUnits(commit.policyNow);
  }

  lemma WholeUnits(instant: int)
    requires 0 <= instant
    ensures var whole := instant - instant % SECOND;
            whole % SECOND == 0 && (whole + LIFETIME) % SECOND == 0 && 0 <= whole <= instant
            && whole / SECOND == instant / SECOND && (whole + LIFETIME) / SECOND == instant / SECOND + 600
  {
    var q := instant / SECOND;
    assert instant - instant % SECOND == q * SECOND;
    Multiples(q);
    Multiples(q + 600);
  }

  lemma Multiples(q: int)
    ensures (q * SECOND) % SECOND == 0 && (q * SECOND) / SECOND == q
  {
  }

  /**
   After a commit the issue fails for no other reason than the clock, and succeeds exactly from the whole second of
   the policy instant until 600 seconds later: always when the issuer's clock is at most 599 seconds further on.
   */
  lemma IssueAfterCommit(libs: Libraries, privateKey: seq<Byte>, policy: Policy, commit: Commit, now: int)
    requires CommitOk(commit)
    ensures var whole := commit.policyNow - commit.policyNow % SECOND;
            Issue(libs, privateKey, policy, ClaimsOf(policy, commit), now).Some? <==> whole <= now < whole + LIFETIME
    ensures commit.policyNow <= now <= commit.policyNow + 599 * SECOND
            ==> Issue(libs, privateKey, policy, ClaimsOf(policy, commit), now).Some?
  {
    CommitClaimsAcceptable(policy, commit);
    WindowIsHalfOpen(ClaimsOf(policy, commit), policy, now);
    hide Acceptable, ValidClaims, ClaimsJson, HeaderJson, Encode;
  }

  /** The 599 seconds cannot be stretched by a nanosecond: late in a second the token is already out of date. */
  lemma IssueBoundIsTight(libs: Libraries, privateKey: seq<Byte>, policy: Policy, commit: Commit)
    requires CommitOk(commit) && commit.policyNow % SECOND == SECOND - 1
    ensures Issue(libs, privateKey, policy, ClaimsOf(policy, commit), commit.policyNow + 599 * SECOND + 1).None?
  {
    IssueAfterCommit(libs, privateKey, policy, commit, commit.policyNow + 599 * SECOND + 1);
  }

  // ---- The token on its way ----

  lemma IssuedTokenIsCompact(libs: Libraries, privateKey: seq<Byte>, policy: Policy, claims: Claims, issuedAt: int)
    requires LawfulLibraries(libs) && Issue(libs, privateKey, policy, claims, issuedAt).Some? && Representable(claims)
    ensures var token := Issue(libs, privateKey, policy, claims, issuedAt).value;
            CompactAccessToken(token) <==> |token| <= MAX_TOKEN_BYTES
  {
    var token := Issue(libs, privateKey, policy, claims, issuedAt).value;
    var h, p := TokenHeader(libs, policy.keyId), TokenPayload(libs, claims);
    var parts := Parts(h, p, libs.crypto.edSign(privateKey, Encode(h) + "." + Encode(p)));
    IssuedParts(libs, privateKey, policy, claims, issuedAt);
    hide Issue, DecodeCompact, LawfulLibraries, Representable, Encode;
    DecodeCompactExact(token, parts);
    if CompactAccessToken(token) {
      DecodeCompactExact(token, DecodeCompact(token).value);
    }
  }

  /** A client that holds a commit's token: its configuration, its TPM, and the request it is about to sign. */
  datatype ClientSide = ClientSide(config: Config, signer: Signer, method_: string, uri: string, random: seq<Byte>,
                                   tokenClock: int, proofClock: int)

  /** The TPM holds the key the server saw, answers every request, and its URL is in canonical form. */
  ghost predicate ClientOk(libs: Libraries, client: ClientSide, commit: Commit, blob: seq<Byte>) {
    && |blob| == BLOB_BYTES && ParsePublicBlob(blob).Some?
    && KeyOfBlob(libs.crypto, blob) == Some(commit.key)
    && Answers(client.signer, blob) && SignsFor(libs.crypto, client.signer, blob, commit.key)
    && ValidMethod(client.method_) && |client.random| == 16
    && -INT64_LIMIT <= client.proofClock < INT64_LIMIT
  }

  function BuildInputOf(client: ClientSide, token: string, session: VerifiedSession): BuildInput {
    BuildInput(client.method_, Some(client.uri), token, session.thumbprint, client.random, client.proofClock)
  }

  function ExpectedOf(commit: Commit): Expected {
    Expected(commit.deviceId, commit.licenseId)
  }

  /** The client accepts the token of a commit and builds a proof with it, throughout its window. */
  lemma ClientBuilds(libs: Libraries, privateKey: seq<Byte>, policy: Policy, commit: Commit, issuedAt: int,
                     client: ClientSide, blob: seq<Byte>)
    requires LawfulLibraries(libs) && CommitOk(commit) && ClientOk(libs, client, commit, blob)
    requires Issue(libs, privateKey, policy, ClaimsOf(policy, commit), issuedAt).Some?
    requires Matches(libs, client.config, policy, privateKey)
    ensures var token := Issue(libs, privateKey, policy, ClaimsOf(policy, commit), issuedAt).value;
            var session := VerifyOnClient(libs, client.config, token, ExpectedOf(commit), client.tokenClock);
            if |token| <= MAX_TOKEN_BYTES && ClientWindow(ClaimsOf(policy, commit), client.tokenClock)
            then && session == Some(VerifiedSession(Unix(ClaimsOf(policy, commit).expiresAt), commit.sessionId,
                                                    Encode(commit.randomId), commit.key.thumbprint))
                 && Build(libs, client.signer, BuildInputOf(client, token, session.value)).Some?
            else session.None?
  {
    var claims := ClaimsOf(policy, commit);
    var token := Issue(libs, privateKey, policy, claims, issuedAt).value;
    CommitClaimsAcceptable(policy, commit);
    ClientAcceptsIssued(libs, privateKey, policy, claims, issuedAt, client.config, ExpectedOf(commit),
        client.tokenClock);
    IssuedTokenIsCompact(libs, privateKey, policy, claims, issuedAt);
    ThumbprintsAgree(libs.crypto, blob, commit.key);
    hide Issue, VerifyOnClient, ClientWindow, LawfulLibraries, Acceptable, ExactTimes, Matches, CompactAccessToken,
         ValidMethod, Dpop.Thumbprint, KeyOfBlob, Build, ParsePublicBlob, SignsFor, Answers, Encode, CanonicalRandom;
    var session := VerifyOnClient(libs, client.config, token, ExpectedOf(commit), client.tokenClock);
    if session.Some? {
      BuildSucceeds(libs, client.signer, BuildInputOf(client, token, session.value), blob);
    }
  }

  /** The request carries the token, which the client has accepted, and the proof it built with it. */
  predicate Sends(libs: Libraries, token: string, commit: Commit, client: ClientSide, request: HttpRequest) {
    var session := VerifyOnClient(libs, client.config, token, ExpectedOf(commit), client.tokenClock);
    && session.Some?
    && var proof := Build(libs, client.signer, BuildInputOf(client, token, session.value));
    && proof.Some?
    && request.authorization == [["DPoP", token]] && request.proofs == [proof.value.compact]
  }

  /** Everything up to the request: the commit, its token, the client that has accepted it, and the server. */
  ghost predicate Sent(libs: Libraries, privateKey: seq<Byte>, policy: Policy, commit: Commit, issuedAt: int,
                       client: ClientSide, blob: seq<Byte>, event: Event)
  {
    && LawfulLibraries(libs) && CommitOk(commit) && ClientOk(libs, client, commit, blob)
    && Matches(libs, client.config, policy, privateKey)
    && event.server.publicKey == libs.crypto.edPublic(privateKey) && event.server.policy == policy
    && event.server.ready && !libs.crypto.blank(event.request.method_)
    && var token := Issue(libs, privateKey, policy, ClaimsOf(policy, commit), issuedAt);
    && token.Some? && Sends(libs, token.value, commit, client, event.request)
  }

  /**
   What the server asks of it: size, the method and URI the proof was built for, the token in its window at both
   readings of the clock, and a fresh proof.
   */
  predicate RequestOk(claims: Claims, client: ClientSide, event: Event) {
    var uri := TrimSlashes(event.server.baseUrl) + event.request.path;
    && |event.request.proofs| == 1 && |event.request.proofs[0]| <= MAX_TOKEN_BYTES
    && claims.issuedAt <= event.instants.verify < claims.expiresAt
    && event.instants.check < claims.expiresAt
    && Upper(event.request.method_) == Upper(client.method_) && uri == client.uri
    && UriOk(event.server.absolute, uri)
    && FreshAt(client.proofClock, event.instants.check, claims.expiresAt)
  }

  /** The server's checks on that request pass exactly then, and give the digest of the proof's identifier. */
  lemma ServerChecksPass(libs: Libraries, privateKey: seq<Byte>, policy: Policy, commit: Commit, issuedAt: int,
                         client: ClientSide, blob: seq<Byte>, event: Event)
    requires Sent(libs, privateKey, policy, commit, issuedAt, client, blob, event)
    ensures var claims := ClaimsOf(policy, commit);
            Checked(libs, event)
            == if RequestOk(claims, client, event)
               then Some((libs.crypto.sha256(Encode(client.random)), claims.expiresAt)) else None
  {
    var claims := ClaimsOf(policy, commit);
    var token := Issue(libs, privateKey, policy, claims, issuedAt).value;
    var session := VerifyOnClient(libs, client.config, token, ExpectedOf(commit), client.tokenClock).value;
    var input := BuildInputOf(client, token, session);
    var request := RequestSeen(event, token, claims);
    CommitClaimsAcceptable(policy, commit);
    ClientBuilds(libs, privateKey, policy, commit, issuedAt, client, blob);
    VerifyIssued(libs, privateKey, policy, claims, issuedAt, event.instants.verify);
    hide Issue, VerifyOnClient, ClientWindow, LawfulLibraries, Acceptable, ExactTimes, Representable, Matches, Verify,
         VerifyDpop, ValidMethod, KeyOfBlob, Build, ParsePublicBlob, SignsFor, UriOk, FreshAt, Upper, TrimSlashes,
         Encode, CanonicalRandom, Checked;
    ProofAcceptedExactly(libs, event.server.absolute, client.signer, input, commit.key, request);
    CheckedSteps(libs, event, token, claims);
  }

  /** The request as the proof check sees it. */
  function RequestSeen(event: Event, token: string, claims: Claims): Request {
    Request(token, event.request.method_, TrimSlashes(event.server.baseUrl) + event.request.path, claims,
            event.instants.check)
  }

  /** The gate's checks on a request with one token and one proof. */
  lemma CheckedSteps(libs: Libraries, event: Event, token: string, claims: Claims)
    requires event.request.authorization == [["DPoP", token]] && |event.request.proofs| == 1 && event.server.ready
    requires claims.proof.Some?
    ensures var verified := Verify(libs, event.server.publicKey, event.server.policy, token, event.instants.verify);
            && (verified.None? ==> Checked(libs, event).None?)
            && (verified == Some(claims) ==>
                  var proof := VerifyDpop(libs, event.server.absolute, event.request.proofs[0],
                                          RequestSeen(event, token, claims));
                  Checked(libs, event)
                  == if event.instants.check < claims.expiresAt && proof.Some?
                     then Some((proof.value.tokenIdDigest, claims.expiresAt)) else None)
  {
    hide Verify, VerifyDpop, TrimSlashes;
  }

  /**
   The whole path. In any run of any number of servers that share one table, and check and insert at one instant of one
   clock that never runs backwards, an acceptable request with an identifier not used before is admitted, and no other
   request with its proof ever is.
   */
  lemma AdmittedExactlyOnce(libs: Libraries, privateKey: seq<Byte>, policy: Policy, commit: Commit, issuedAt: int,
                            client: ClientSide, blob: seq<Byte>, rows: Rows, events: seq<Event>, i: nat)
    requires i < |events| && InOrder(events) && NoCollision(libs, events)
    requires forall k :: 0 <= k < |events| ==> events[k].instants.check == events[k].instants.consume
    requires Sent(libs, privateKey, policy, commit, issuedAt, client, blob, events[i])
    requires RequestOk(ClaimsOf(policy, commit), client, events[i])
    requires var digest := libs.crypto.sha256(Encode(client.random));
             && digest !in rows
             && forall k :: 0 <= k < i && Checked(libs, events[k]).Some? ==> Checked(libs, events[k]).value.0 != digest
    ensures Admitted(libs, rows, events, i)
    ensures forall j: nat :: j < |events| && j != i && ProofOf(events[j]) == ProofOf(events[i])
              ==> !Admitted(libs, rows, events, j)
  {
    hide *;
    ServerChecksPass(libs, privateKey, policy, commit, issuedAt, client, blob, events[i]);
    DpopReplay.AdmittedExactlyOnce(libs, rows, events, i);
  }

  // ---- From the activation protocol ----

  /** The protocol's thumbprint of a key is the one of its blob. */
  ghost predicate Describes(cfg: A.Config, crypto: Crypto.Library) {
    forall blob {:trigger cfg.thumbprint(blob)} ::
      cfg.thumbprint(blob) == if |blob| != BLOB_BYTES then None
                              else match KeyOfBlob(crypto, blob)
                                   case None => None
                                   case Some(key) => Some(key.thumbprint)
  }

  /** What a committed verification hands on; `show` writes a row identifier as text. */
  function CommitOf(crypto: Crypto.Library, show: nat -> string, tx: Protocol.Tx, randomId: seq<Byte>): Commit
    requires tx.phase.Committed? && |tx.call.request.key| == BLOB_BYTES && KeyOfBlob(crypto, tx.call.request.key).Some?
  {
    Commit(show(tx.Sid()), randomId, KeyOfBlob(crypto, tx.call.request.key).value, show(tx.phase.session.userId),
           show(tx.phase.session.licenseId), show(tx.phase.deviceId), tx.call.now)
  }

  lemma KeyThumbprintCanonical(crypto: Crypto.Library, blob: seq<Byte>)
    requires |blob| == BLOB_BYTES && KeyOfBlob(crypto, blob).Some?
    ensures CanonicalRandom(KeyOfBlob(crypto, blob).value.thumbprint, 32)
  {
    hide CanonicalRandom, Dpop.Thumbprint, MembersOf, TextField, Coordinate, JwkJson, Encode;
  }

  /** The claims name what the token of the protocol names. */
  predicate SameNames(claims: Claims, token: Protocol.Token, show: nat -> string) {
    && claims.proof.Some?
    && claims.proof.value.sessionId == show(token.sessionId) && claims.subject == show(token.userId)
    && claims.licenseId == show(token.licenseId) && claims.deviceId == show(token.deviceId)
    && claims.proof.value.thumbprint == token.thumbprint
  }

  /** In every run a committed verification has presented a key with a thumbprint. */
  lemma CommittedKey(cfg: A.Config, crypto: Crypto.Library, actions: seq<Protocol.Action>, s: Protocol.State, t: nat)
    requires A.ConfigOk(cfg) && Describes(cfg, crypto) && s == Protocol.Run(cfg, Protocol.INIT, actions) && t in s.txs
    ensures var key := s.txs[t].call.request.key;
            && |key| == BLOB_BYTES && KeyOfBlob(crypto, key).Some?
            && cfg.thumbprint(key) == Some(KeyOfBlob(crypto, key).value.thumbprint)
  {
    Theorems.Reachable(cfg, actions);
    hide Protocol.Run, KeyOfBlob, ActivationInvariant.TxInv, A.DbInv;
    assert Protocol.Admissible(cfg, s.txs[t].call.request);
  }

  /** The token that the step after a commit issues. */
  lemma NextToken(cfg: A.Config, s: Protocol.State, t: nat)
    requires t in s.txs && s.txs[t].phase.Committed?
    ensures Protocol.TakeStep(cfg, s, t).txs[t].phase
         == Protocol.Issued(Protocol.IssueToken(cfg, s.txs[t], s.txs[t].phase.session, s.txs[t].phase.deviceId))
  {
    hide Protocol.IssueToken, Protocol.Advance, A.Effects;
  }

  lemma NamesAgree(cfg: A.Config, crypto: Crypto.Library, policy: Policy, show: nat -> string, tx: Protocol.Tx,
                   randomId: seq<Byte>)
    requires tx.phase.Committed? && |tx.call.request.key| == BLOB_BYTES && KeyOfBlob(crypto, tx.call.request.key).Some?
    requires cfg.thumbprint(tx.call.request.key) == Some(KeyOfBlob(crypto, tx.call.request.key).value.thumbprint)
    ensures SameNames(ClaimsOf(policy, CommitOf(crypto, show, tx, randomId)),
                      Protocol.IssueToken(cfg, tx, tx.phase.session, tx.phase.deviceId), show)
  {
    hide KeyOfBlob, Encode;
  }

  lemma CommitOfIsOk(crypto: Crypto.Library, show: nat -> string, tx: Protocol.Tx, randomId: seq<Byte>)
    requires tx.phase.Committed? && |tx.call.request.key| == BLOB_BYTES && KeyOfBlob(crypto, tx.call.request.key).Some?
    requires |randomId| == 16 && 0 <= tx.call.now < (EXACT - 600) * SECOND && forall n :: show(n) != ""
    ensures CommitOk(CommitOf(crypto, show, tx, randomId))
  {
    KeyThumbprintCanonical(crypto, tx.call.request.key);
    hide KeyOfBlob, CanonicalRandom;
  }

  /**
   The two models meet: in every run of the activation protocol a committed verification is a commit of this model, for
   the key it presented, and the token its next step issues names what the claims of that commit name.
   */
  lemma CommittedGivesClaims(cfg: A.Config, crypto: Crypto.Library, policy: Policy, show: nat -> string,
                             actions: seq<Protocol.Action>, s: Protocol.State, t: nat, randomId: seq<Byte>)
    requires A.ConfigOk(cfg) && Describes(cfg, crypto) && |randomId| == 16 && forall n :: show(n) != ""
    requires s == Protocol.Run(cfg, Protocol.INIT, actions) && t in s.txs && s.txs[t].phase.Committed?
    requires 0 <= s.txs[t].call.now < (EXACT - 600) * SECOND
    ensures var key, next := s.txs[t].call.request.key, Protocol.TakeStep(cfg, s, t).txs[t].phase;
            && |key| == BLOB_BYTES && KeyOfBlob(crypto, key).Some? && next.Issued?
            && var commit := CommitOf(crypto, show, s.txs[t], randomId);
            && CommitOk(commit) && KeyOfBlob(crypto, key) == Some(commit.key)
            && SameNames(ClaimsOf(policy, commit), next.token, show)
  {
    CommittedKey(cfg, crypto, actions, s, t);
    CommitOfIsOk(crypto, show, s.txs[t], randomId);
    NamesAgree(cfg, crypto, policy, show, s.txs[t], randomId);
    NextToken(cfg, s, t);
    hide Protocol.Run, Protocol.TakeStep, Protocol.IssueToken, KeyOfBlob, CommitOk, SameNames, ClaimsOf, A.ConfigOk,
         Describes;
  }
}
