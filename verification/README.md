# StarLoader verification

A Dafny model of the hard core of StarLoader, with proofs about it. It covers the activation of devices under a license
(Go backend), the session tokens and DPoP proofs that the Go backend and the C++ client exchange, the client's session state
machine and HTTP layer, the login rate limiter, and the parser of the raw SMBIOS table.

`dafny verify dfyconfig.toml` checks the whole project.

## How it is organised

- `DeviceMatch`, `Activation`, `ActivationSafety`: the score of a device, the match over a license's devices, and a
  verification as one function on the committed tables (`AtomicVerify`).
- `ActivationProtocol`, `ActivationInvariant`, `ActivationSteps`, `ActivationTheorems`: any number of verifications, logins
  and administrative changes interleaved, statement by statement. Each verification has a program counter, row locks and
  private writes; it may crash at any statement. The theorems speak about every run.
- `ActivationDrift`: devices whose hardware changed, for one verification, for whole runs and in a run from the empty tables,
  and verifications that nobody disturbs.
- `ActivationMeaning`: every verdict of a verification as a condition on rows and columns, exactly, and for every run.
- `ActivationStore`: the store and the service callback as classes that change tables in place, proved to compute
  `AtomicVerify` and to leave the tables alone on every error.
- `Base64Url`, `CompactToken`: canonical base64url (RFC 4648 sections 3.5 and 5) and the compact form (RFC 7515 section 7.1),
  with the three independent checks of the two languages.
- `JsonScanner`, `JsonPrinted`, `JsonAccepted`, `JsonTokens`: the two duplicate-member checks (RFC 8259 section 4), one over characters and
  one over decoder tokens, each exact on every document, and the condition under which they agree.
- `JsonText`, `Crypto`: what is assumed of the JSON and cryptographic libraries, stated as laws of function parameters.
- `SessionToken`, `SessionTokenClient`, `Dpop`, `DpopReplay`, `EndToEnd`: the token, the proof (RFC 9449 sections 4.2, 4.3 and
  6.1, RFC 7638 section 3), their checks on both sides, one-time consumption, and the path from a commit to an admitted
  request.
- `TokenMeaning`, `DpopMeaning`: what each check accepts of any token, proof and request, stated on bytes, JSON members, numbers
  and instants, without the checks.
- `AuthManager`, `ApiClient`, `ClientSession`: the client's login state machine, its single-flight HTTP layer, and the two
  joined. `AuthHandshake`, `SessionHandshake`: what is sent and held, traced to the events it came from.
- `RateLimiter`: the per-address limiter with lazy cleanup.
- `Smbios`: the table parser (DMTF DSP0134 sections 6.1.2, 6.1.3 and 7.2.1) over a byte buffer.

A part that the source writes as loops or as objects with changing fields is a method or a class here, proved equal to a
function; the lemmas are about the function. Every handler of `AuthManager.Manager` and `ApiClient.Client` is such a method:
its contract is one branch of the module's `Step`, with the effects it emits.

## What the proofs found

- **A device whose hardware changed cannot be activated again.** A key match alone scores 50. When an active device with the
  presented key scores below 70, nothing matches; below the license's limit the service then inserts a new row, and the unique
  key on license and key digest refuses it. `ActivationSafety.DuplicateExactly` says exactly when that happens,
  `ActivationDrift.DriftedKeyNeverCommits` what it means for every run, `ActivationDrift.DriftEndsInDuplicate` gives a run.
- **The two duplicate-member checks disagree on some documents.** The client's scan takes any bare word for a literal and
  leaves it to the parser behind it, and the two languages decode lone surrogates differently. `JsonTokens.ChecksAgreeExactly`
  says exactly where they agree.
- **Clocks sixty seconds apart can disagree.** The client stamps a proof in whole seconds, so the server sees it older by the
  fraction that was dropped. `Dpop.FreshnessOfClocks` gives the exact window, `Dpop.SixtySecondsApartCanFail` an instance.
- **A proof can be admitted twice when its second insert comes after the token's expiry** although the check came before it.
  `DpopReplay.SecondUseExactly` says exactly when, `DpopReplay.LateInsertAdmitsTwice` gives a run through the gate; with check
  and insert at one instant it never happens.
- **Signing out during a login can fail the next login.** Only profile requests are cancelled, so the old login request
  keeps the HTTP layer busy. `ClientSession.LoginRefusedExactly` says exactly when, `ClientSession.EarlySignOutFailsNextLogin`
  gives a run.
- **The login manager does not itself wait for its signature.** A verified device reported to the current attempt would be
  accepted before the signature was sent. `SessionHandshake.VerifiedAfterSigning` shows that the HTTP layer never reports one.
- **Three checks never fire**: the second revoked check of the matching loop, the update that finds no row, and the session
  that is no longer pending at the end of a verification.

## Model

| member | source | states |
|---|---|---|
| DeviceMatch.ThresholdMeaning | backend/internal/domain/device_score.go:15-40 | The six weights reach 70 exactly with the TPM signal and either the SMBIOS signal, or the motherboard signal and one of BIOS, system disk and machine GUID, each present and equal |
| DeviceMatch.HexInjective | backend/internal/service/device_verify.go:294-317 | Equal hexadecimal texts mean equal key digests, so the TPM signal compares digests |
| DeviceMatch.ThresholdNeedsKey | backend/internal/service/device_verify.go:312-319 | No device reaches the threshold, and none counts as a match, unless its stored key digest is the presented one |
| DeviceMatch.SecondRevokedCheckIsDead | backend/internal/service/device_verify.go:317-322 | A revoked device that reaches the threshold has already been refused by its key: the revoked test after the threshold decides nothing |
| DeviceMatch.MatchDeviceLoop | backend/internal/service/device_verify.go:294-329 | The loop fails exactly when some revoked device hits; otherwise it returns the number of active devices and the best match |
| DeviceMatch.BestMeaning | backend/internal/service/device_verify.go:301-328 | The match is absent exactly when no active device reaches 70, and otherwise the earliest active device of maximal score |
| DeviceMatch.CountActivePermuted | backend/internal/service/device_verify.go:300-307 | The active count of a listing is that of any permutation of it |
| DeviceMatch.OrderIrrelevant | backend/internal/service/device_verify.go:294-329 | Verdict, active count and best score are the same for every order of the listed devices |
| Activation.ListingIsComplete | backend/internal/store/devices.go:47-70 | The listing of a license's devices for its owner is a permutation of exactly the license's rows |
| Activation.OrderedPermutes | backend/internal/store/devices.go:47-70 | Ordering by creation loses and adds no row |
| Activation.OrderedIsSorted | backend/internal/store/devices.go:47-53 | The listing is ordered by creation, ties by identifier |
| Activation.CountAfterRewrite | backend/internal/store/devices.go:93-106 | Rewriting a row in place without making it active never raises any license's active count |
| ActivationSafety.VerifyKeepsInvariant | backend/internal/service/device_verify.go:168-254 | A committed verification keeps every table invariant: device limits, unique device identifiers, unique keys per license, sessions and challenges in step |
| ActivationSafety.ChosenBelowLimit | backend/internal/service/device_verify.go:220-240 | An insert is chosen only while the committed active devices of the license are below its limit |
| ActivationSafety.UpdateNeverMisses | backend/internal/store/devices.go:93-115 | The device chosen for an update is a row the update statement finds |
| ActivationSafety.RevokedKeyRefused | backend/internal/service/device_verify.go:303-312 | A verification never succeeds when the license holds a revoked row with the presented key |
| ActivationSafety.CommittedRowHasKey | backend/internal/service/device_verify.go:212-243 | The row a committed verification reports is active, belongs to the session's license and stores the presented key's digest, whether inserted or updated |
| ActivationSafety.DriftedRowMeansNoMatch | backend/internal/service/device_verify.go:294-329 | Beside an active row with the presented key that scores below 70 the matching finds nothing and refuses nothing |
| ActivationSafety.DuplicateExactly | backend/internal/store/devices.go:72-91 | The insert violates the unique key if and only if the license is below its limit and holds an active row with the presented key scoring below 70 |
| ActivationInvariant.CommitAgrees | backend/internal/store/auth_sessions.go:81-101 | A commit changes only its own session, its own challenge and devices of its own license |
| ActivationInvariant.DoneSurvives | backend/internal/store/devices.go:93-106 | What a commit has established, a consumed challenge and a device row with its key, stays true under all later changes of the tables |
| ActivationSteps.OthersKept | backend/internal/store/auth_sessions.go:52-103 | What a transaction in progress has read stays true while any other actor moves, because of the locks it holds |
| ActivationSteps.GoKeepsKnowledge | backend/internal/service/device_verify.go:168-254 | Each statement that succeeds leaves its transaction with locks and knowledge enough for the next one |
| ActivationSteps.ListingLocks | backend/internal/store/devices.go:47-53 | The listing takes the lock of every device row of the license |
| ActivationSteps.CommitIsDone | backend/internal/store/auth_sessions.go:81-101 | A commit leaves its challenge consumed and a row of its license with the key it presented |
| ActivationSteps.ApplyKeepsInv | backend/internal/store/auth_sessions.go:52-103 | The joint invariant of tables, locks and transactions is kept by every action: statements, commits, crashes, logins, revocations, license changes, expiries |
| ActivationTheorems.Reachable | backend/internal/store/auth_sessions.go:12-103 | The joint invariant holds in every state of every run |
| ActivationTheorems.DeviceLimitHolds | backend/internal/service/device_verify.go:191-243 | In every interleaving no license ever has more committed active devices than its limit |
| ActivationTheorems.VerifiedIffConsumed | backend/internal/store/auth_sessions.go:81-101 | In every run a session is verified exactly when its challenge is consumed |
| ActivationTheorems.OneTokenPerSession | backend/internal/store/auth_sessions.go:81-101 | In every run at most one verification ever holds a token for a session |
| ActivationTheorems.Serializable | backend/internal/store/auth_sessions.go:52-103 | In every interleaving a verification that commits or fails has exactly the outcome and effect it would have alone at that instant; every other statement, every failure and every crash leaves the tables as they were |
| ActivationTheorems.DefensiveErrorsAreDead | backend/internal/store/devices.go:107-129 | In no run does the device update find no row, or the final session update find its session taken, or the challenge update find it consumed |
| ActivationTheorems.TokenBoundToStoredKey | backend/internal/service/device_verify.go:256-264 | Every issued token names a stored device row of its license whose key has the digest of the key that was presented, then and ever after |
| ActivationTheorems.TokenCarriesStoredThumbprint | backend/internal/service/device_verify.go:153-154 | Without hash collisions every issued token carries the thumbprint of the key stored in its own device row, then and ever after |
| ActivationTheorems.RunGrows | backend/internal/store/devices.go:93-106 | Along every run no device row disappears or changes its identifier, owner, license or key; revoked rows stay revoked and consumed challenges consumed |
| ActivationTheorems.RevokedKeyNeverCommits | backend/internal/service/device_verify.go:303-327 | Once a device with a key is revoked, no verification with that key ever commits for its license, whatever it presents and however far it was when the revocation came |
| ActivationTheorems.NoDeadlock | backend/internal/store/devices.go:32-53 | In every reachable state with a verification in progress some verification in progress can move |
| ActivationTheorems.WaitsAreOrdered | backend/internal/store/devices.go:32-53 | Lock waits never form a cycle: in every run, whoever holds a row that a transaction needs is in progress and has taken strictly more kinds of lock |
| ActivationDrift.DriftedDeviceRefused | backend/internal/service/device_verify.go:212-240 | With an active row for the presented key that scores below 70 no verification succeeds; past the license checks it fails with the limit when that is reached and with the duplicate otherwise |
| ActivationDrift.NewBoardDrifts | backend/internal/domain/device_score.go:15-36 | A changed SMBIOS and a changed board signal together keep the score below 70 whatever else matches |
| ActivationDrift.DriftedKeyNeverCommits | backend/internal/service/device_verify.go:294-329 | In every run, from a state where all who present a device's key present drifted hardware and as long as they do, none of them commits for its license and the stored hardware never changes |
| ActivationDrift.UndisturbedVerify | backend/internal/store/auth_sessions.go:52-103 | From every reachable state without locks a verification left undisturbed for its seven statements ends with exactly the outcome of the atomic verification and leaves no lock |
| ActivationDrift.DriftEndsInDuplicate | backend/internal/store/devices.go:72-91 | For every key and drifted hardware a run from the empty tables, with two logins and two verifications, that ends in the violated unique key |
| ActivationMeaning.EarlyVerdict | backend/internal/service/device_verify.go:168-210 | On any tables: not found, consumed, expired, bad signature, no license, wrong product, revoked and expired license, each happens if and only if the rows and the signature meet its condition, read off the columns |
| ActivationMeaning.ActiveCountMeaning | backend/internal/service/device_verify.go:300-307 | The count compared with the limit is the number of active rows of the license |
| ActivationMeaning.MatchesKeyRow | backend/internal/service/device_verify.go:294-329 | When a row of the license holds the presented key the matching sees that row alone: revoked refuses, active on the same machine is the match |
| ActivationMeaning.KnownKeyVerdict | backend/internal/service/device_verify.go:212-243 | The verdict for a key the license already holds, and the columns it rewrites: the presented hardware and the instant, nothing else |
| ActivationMeaning.NewKeyVerdict | backend/internal/service/device_verify.go:222-243 | The verdict for a new key, and the one row it appends, column by column |
| ActivationMeaning.VerdictExactly | backend/internal/service/device_verify.go:168-254 | The whole verdict: success with its tables and device, and every refusal, each if and only if its condition on the tables holds |
| ActivationMeaning.VerdictJustified | backend/internal/store/auth_sessions.go:52-103 | The statement that ends a verification, in any interleaving, finds the tables that justify its outcome and leaves exactly what a success says |
| ActivationMeaning.EveryVerdictJustified | backend/internal/service/device_verify.go:168-268 | In every run whatever committed, holds a token or failed did so in one step of its own on tables that meet the condition of what it reports; the token names the rows of that instant |
| ActivationMeaning.CommittedMeans | backend/internal/service/device_verify.go:168-210 | In every run nothing commits unless at that step the session was pending and unexpired, the challenge unused, unexpired and the one presented, its signature valid for the presented key, and the license the user's own, for the product, active and unexpired |
| ActivationStore.LockedChallenge.LockLicense | backend/internal/store/devices.go:32-45 | The license of the session's own user, or not found |
| ActivationStore.LockedChallenge.CreateDevice | backend/internal/store/devices.go:72-91 | Appends exactly the new row, or reports the duplicate and changes nothing |
| ActivationStore.LockedChallenge.UpdateDevice | backend/internal/store/devices.go:93-115 | Refreshes exactly the matched row and never its key columns, or reports that no such row is active |
| ActivationStore.LockedChallenge.MarkSessionVerified | backend/internal/store/devices.go:117-129 | Moves exactly its own session from pending to verified, or reports that it is not pending |
| ActivationStore.LockedChallenge.Activate | backend/internal/service/device_verify.go:168-251 | The callback, statement by statement, has the outcome and the effects of the plan on the tables it saw; `ActivationMeaning.VerdictExactly` says what that outcome is |
| ActivationStore.WithLockedChallenge | backend/internal/store/auth_sessions.go:52-103 | Run alone it equals the atomic verification, whose verdict `ActivationMeaning.VerdictExactly` gives on the tables; on every error the tables are exactly as before |
| Base64Url.CanonicalSegment | license-client/src/security/DeviceProof.cpp:81-95 | The character loop accepts exactly the non-empty texts of the alphabet with a possible length and zero pad bits |
| Base64Url.CanonicalIffEncoding | license-client/src/security/DeviceProof.cpp:81-95 | The character test holds exactly for encodings of non-empty byte strings |
| Base64Url.DecodeEncode | license-client/src/security/DeviceProof.cpp:40-44 | Decoding undoes encoding for all bytes |
| Base64Url.EncodeInjective | license-client/src/security/DeviceProof.cpp:40-44 | Different bytes have different encodings |
| Base64Url.EncodeDecode | license-client/src/security/DeviceProof.cpp:66-95 | Re-encoding what an accepted text decodes to gives the text back |
| Base64Url.EncodedBits | license-client/src/security/DeviceProof.cpp:40-44 | Every character of an encoding carries six bits of the bytes, in order, and zero bits fill up the last one |
| Base64Url.Alphabet | license-client/src/security/DeviceProof.cpp:66-79 | The alphabet by code points |
| Base64Url.GoSegmentExact | backend/internal/security/token.go:191-197 | The server's decode-and-compare test accepts exactly encodings, and returns what was encoded |
| Base64Url.QtSegmentExact | license-client/src/security/SessionTokenVerifier.cpp:114-121 | The client's decode-and-compare test, on top of a decoder that skips foreign characters, accepts exactly encodings of non-empty bytes |
| Base64Url.SegmentTestsAgree | license-client/src/security/DeviceProof.cpp:81-95 | On every non-empty text all three tests agree, and the two decoders give the same bytes |
| CompactToken.SplitThree | backend/internal/security/token.go:254-257 | Splitting gives three parts exactly for texts with two dots between dot-free parts |
| CompactToken.DecodeCompactExact | backend/internal/security/token.go:248-269 | The decoder accepts exactly the compact forms of three non-empty byte strings within the size cap, and returns those bytes |
| CompactToken.DecodeCompactToken | backend/internal/security/token.go:248-269 | The loop over the segments computes the decoding |
| CompactToken.FindDots | license-client/src/security/DeviceProof.cpp:101-112 | The character loop finds the first two dots of a token that has no third, or reports one that splits into more than three parts |
| CompactToken.ValidCompactAccessToken | license-client/src/security/DeviceProof.cpp:97-122 | The client's dot and character scan accepts exactly what the server decodes with a signature of 64 bytes |
| CompactToken.CompactInjective | backend/internal/security/token.go:248-269 | A compact token determines its three parts |
| JsonScanner.ConsumeStringLoop | license-client/src/security/SessionTokenVerifier.cpp:30-53 | The loop stops at the first unescaped quote, rejects bare control characters, and reads nothing past the end |
| JsonScanner.ScanMemberLoop | license-client/src/security/SessionTokenVerifier.cpp:62-82 | The member loop computes the descent over members with the set of names seen |
| JsonScanner.ScanItemLoop | license-client/src/security/SessionTokenVerifier.cpp:83-96 | The element loop computes the descent over elements |
| JsonScanner.ScanJsonValue | license-client/src/security/SessionTokenVerifier.cpp:55-104 | On any text the scan terminates, stays within it and computes the descent |
| JsonScanner.HasUniqueJsonMembers | license-client/src/security/SessionTokenVerifier.cpp:106-112 | Accepts exactly one value followed by nothing but white space |
| JsonPrinted.ValueScan | license-client/src/security/SessionTokenVerifier.cpp:55-104 | At any position and depth a printed value is accepted, up to exactly its end, if and only if it repeats no name and is not too deep |
| JsonPrinted.ItemsScan | license-client/src/security/SessionTokenVerifier.cpp:83-96 | The same for the elements of an array, whatever the layout |
| JsonPrinted.MembersScan | license-client/src/security/SessionTokenVerifier.cpp:62-82 | The same for the members of an object, given the names already seen |
| JsonPrinted.ScannerExact | license-client/src/security/SessionTokenVerifier.cpp:25-112 | For every document and every placement of white space: accepted if and only if no object repeats a decoded name and no value lies deeper than 64 below the root |
| JsonAccepted.ValueRead | license-client/src/security/SessionTokenVerifier.cpp:55-104 | Conversely, whatever text the scan accepts at a position is a printed value, up to exactly its end |
| JsonAccepted.AcceptsExactly | license-client/src/security/SessionTokenVerifier.cpp:25-112 | On any text at all: accepted if and only if it is a document, in some layout, whose objects repeat no decoded name and whose values lie at most 64 levels deep |
| JsonTokens.Decoder.Token | backend/internal/security/token.go:298-302 | Takes exactly the next token, or reports the end |
| JsonTokens.ReadMemberLoop | backend/internal/security/token.go:308-330 | The member loop with its growing map computes the descent and leaves the decoder behind the object |
| JsonTokens.ReadItemLoop | backend/internal/security/token.go:331-340 | The element loop computes the descent and leaves the decoder behind the array |
| JsonTokens.ReadUniqueJsonValue | backend/internal/security/token.go:298-345 | Terminates on every token stream and computes the descent |
| JsonTokens.RejectDuplicateJsonMembers | backend/internal/security/token.go:286-296 | Accepts exactly one accepted value followed by the clean end of the text |
| JsonTokens.ReadTree | backend/internal/security/token.go:298-345 | On the tokens of a document without errors, with anything behind, the descent takes exactly the document if no object repeats a name as Go decodes it, and otherwise rejects |
| JsonTokens.ServerExact | backend/internal/security/token.go:286-345 | The server accepts a document if and only if every literal is valid, Go decodes every text and no object repeats a Go-decoded name |
| JsonTokens.ChecksAgree | license-client/src/security/SessionTokenVerifier.cpp:55-112 | Where Go finds no error and both decodings identify the same names within each object, the client accepts exactly what the server accepts and no value deeper than 64, in every layout |
| JsonTokens.ChecksAgreeExactly | backend/internal/security/token.go:286-345 | Within that depth and where either accepts, the two checks agree if and only if that condition holds |
| JsonTokens.MalformedLiteralDivides | license-client/src/security/SessionTokenVerifier.cpp:99-103 | A document that the client's scan accepts and the server refuses: a bare word |
| JsonTokens.LoneSurrogatesDivide | backend/internal/security/token.go:315-322 | A document whose names Go decodes alike and Qt apart: two lone surrogates, accepted by the client's scan and refused by the server |
| JsonText.PrintedPassesScan | license-client/src/security/SessionTokenVerifier.cpp:195 | A document that shows a value of nesting at most 64 passes the client's member scan, because a value's members have distinct names |
| SessionToken.WindowIsHalfOpen | backend/internal/security/token.go:211-224 | The clock matters only through the half-open window from issue to expiry |
| SessionToken.ClaimsReadBack | backend/internal/security/token.go:226-242 | Acceptable claims come back from the wire form unchanged, instants included |
| SessionToken.IssuedParts | backend/internal/security/token.go:133-154 | An issued token is the compact form of header, claims and a 64-byte signature that verifies over exactly those two segments |
| SessionToken.VerifyIssued | backend/internal/security/token.go:156-189 | An issued token is accepted, with the same claims, exactly when it fits 16 KiB and the clock stands in the window from issue to expiry; `TokenMeaning.VerifyExactly` speaks of every other token |
| SessionTokenClient.ReadsClaims | license-client/src/security/SessionTokenVerifier.cpp:204-215 | The client reads of a token's JSON exactly the claims it was issued for, and refuses exactly a negative issue time or an absent feature list |
| SessionTokenClient.PolicyWindow | license-client/src/security/SessionTokenVerifier.cpp:217-228 | Of acceptable claims the client's policy asks only for the expected device and license and the window from 60 seconds before issue to expiry |
| SessionTokenClient.ClientAcceptsIssued | license-client/src/security/SessionTokenVerifier.cpp:189-230 | A client with the server's names and key accepts an issued token exactly for its own device and license, within 16 KiB and within that window, and reports its session, identifier, expiry and thumbprint |
| TokenMeaning.HeaderMeaning | backend/internal/security/token.go:164-171 | A header is accepted exactly when its members, all known, say this key, EdDSA and JWT |
| TokenMeaning.ReadPayloadSays | backend/internal/security/token.go:176-184 | The claims read from a payload are what its members say, an absent member and null standing for the empty value |
| TokenMeaning.SaidPayloadRead | backend/internal/security/token.go:176-184 | Conversely, a payload that says these claims is read as them |
| TokenMeaning.PermittedMeaning | backend/internal/security/token.go:211-224 | The claim checks hold exactly when the names are the policy's, nothing that identifies is missing, identifier and thumbprint are canonical, and the 600 whole seconds from issue contain the clock |
| TokenMeaning.VerifyExactly | backend/internal/security/token.go:156-189 | For every token, whoever made it: accepted with these claims if and only if it fits 16 KiB and is three canonical segments, a header for the policy's key, a payload of these claims and 64 bytes that verify over both, and the policy and clock permit the claims |
| TokenMeaning.IssueExactly | backend/internal/security/token.go:133-154 | A token is issued exactly for permitted claims, and is then signed for them with the issuer's key |
| TokenMeaning.HeaderKeyMeaning | license-client/src/security/SessionTokenVerifier.cpp:199 | The client takes exactly headers of the three members EdDSA, JWT and a key identifier |
| TokenMeaning.SetUpMeaning | license-client/src/security/SessionTokenVerifier.cpp:182-187 | The client is configured exactly with at least one key, 32 bytes each under a plain name, and no blank text |
| TokenMeaning.ClientVerifiesExactly | license-client/src/security/SessionTokenVerifier.cpp:189-230 | For every token, whoever made it: the client reports this session if and only if a key it knows, named by the header, signed a payload without repeated members that names the session for the expected device and license, in the client's window |
| Dpop.CanonicalLengths | backend/internal/security/dpop.go:105-119 | Encodings of 32, 16 and 64 bytes, and no others, have 43, 22 and 86 characters |
| Dpop.ThumbprintsAgree | license-client/src/security/DeviceProof.cpp:124-141 | For a key blob the server accepts, the server's thumbprint and coordinates are those the client computes from the blob |
| Dpop.BuildSucceeds | license-client/src/security/DeviceProof.cpp:241-329 | With a working TPM a proof is built exactly for a compact access token, a valid method, a canonical URL, the key's own thumbprint and 16 random bytes |
| Dpop.BuiltParts | license-client/src/security/DeviceProof.cpp:309-328 | A built proof is the compact form of header, payload and a 64-byte signature that holds for the blob's key over both |
| Dpop.ProofHeaderReadBack | backend/internal/security/dpop.go:76-80 | The server reads the client's header back: ES256, dpop+jwt and the same key document |
| Dpop.ProofPayloadReadBack | backend/internal/security/dpop.go:92-95 | The server reads the client's payload back member by member |
| Dpop.VerifyProofParts | backend/internal/security/dpop.go:62-125 | Once header, key binding and signature hold, only size and payload decide, and the outcome names the identifier's digest; `DpopMeaning.VerifyDpopExactly` speaks of every proof |
| Dpop.ProofAcceptedExactly | backend/internal/security/dpop.go:62-125 | A proof the client builds for a token bound to its key is accepted exactly when it fits 16 KiB, names the request's method and URI and is fresh |
| Dpop.FreshnessOfClocks | backend/internal/security/dpop.go:109-115 | The server sees a proof older than the clocks' difference by the fraction of a second the client dropped; the window on that age is exactly 60 seconds each way |
| Dpop.SixtySecondsApartCanFail | license-client/src/security/DeviceProof.cpp:224 | An instance where clocks sixty seconds apart make a proof stale |
| DpopMeaning.BigEndianWeights | backend/internal/security/dpop.go:134-135 | A number's bytes weigh powers of 256, the first the most |
| DpopMeaning.BigEndianByte | backend/internal/security/dpop.go:134-135 | A single byte is its own value |
| DpopMeaning.BlobMeaning | license-client/src/security/DeviceProof.cpp:124-134 | The client takes exactly the 72-byte blobs that begin with "ECS1" and the length 32, and the coordinates behind that |
| DpopMeaning.BuildExactly | license-client/src/security/DeviceProof.cpp:241-329 | With a working TPM a proof is built exactly for a compact token with a 64-byte signature, a method of token characters, a URL, 16 random bytes and the RFC 7638 thumbprint of the blob's coordinates |
| DpopMeaning.ParsedKeySays | backend/internal/security/p256_jwk.go:33-75 | A key is accepted only as an EC key of the curve P-256 with two 32-byte non-zero coordinates of a point on it, and its thumbprint is the hash of its required members in order |
| DpopMeaning.AcceptedPayload | backend/internal/security/dpop.go:96-119 | The payload checks hold exactly for the request's method in capitals, its URI, the hash of its token, a fresh instant and an identifier of 16 bytes |
| DpopMeaning.VerifyDpopExactly | backend/internal/security/dpop.go:62-125 | For every proof, whoever made it: accepted with this outcome if and only if its header, ES256 and dpop+jwt, embeds the key whose thumbprint the token carries, r and s are in range and sign both segments for that key, and method, URI, access hash, freshness and identifier are as the request demands |
| DpopReplay.ReplayTable.ConsumeDPoP | backend/internal/store/dpop_replays.go:9-15 | The statement deletes exactly the expired rows and inserts the digest if it is absent, in either order of its two parts |
| DpopReplay.RequireSession | backend/internal/httpapi/auth.go:44-88 | A request is let through exactly when all checks pass and the table has not seen its identifier; a request that fails a check leaves the table alone |
| DpopReplay.CheckedInTime | backend/internal/httpapi/auth.go:70-73 | A request reaches the table only before its token expires |
| DpopReplay.ProofFixesToken | backend/internal/security/dpop.go:104-108 | Two accepted requests with one proof carry one token, and consume one digest for one expiry |
| DpopReplay.RowStays | backend/internal/store/dpop_replays.go:11 | A row outlives every statement made no later than its expiry |
| DpopReplay.NoProofTwice | backend/internal/httpapi/auth.go:66-84 | In every run of any number of servers on one table no proof is admitted twice, if the database clock never runs backwards and the second insert is not past the expiry |
| DpopReplay.NoProofTwiceOnOneClock | backend/internal/httpapi/auth.go:66-84 | With check and insert at one instant of one non-decreasing clock no proof is ever admitted twice |
| DpopReplay.FirstUseIsAdmitted | backend/internal/store/dpop_replays.go:9-15 | The first request to pass the checks with an unused identifier is admitted |
| DpopReplay.SecondUseExactly | backend/internal/store/dpop_replays.go:9-15 | Without assumptions on clocks the next use of an identifier is admitted if and only if a statement after the expiry cleaned its row before the insert |
| DpopReplay.AdmittedExactlyOnce | backend/internal/httpapi/auth.go:44-88 | With check and insert at one instant of one non-decreasing clock, the first request with an unused identifier is admitted and every other request with its proof, before or after, refused |
| DpopReplay.LateInsertAdmitsTwice | backend/internal/httpapi/auth.go:70-84 | For any request that passes all checks and any other with another identifier, a run through the gate, inserts in order and no cleanup before an insert, that admits the proof twice |
| DpopMeaning.TrimMeaning | backend/internal/httpapi/auth.go:75-76 | The base URL loses exactly the slashes at its end |
| DpopMeaning.CheckedPasses | backend/internal/httpapi/auth.go:44-80 | Whatever passes the checks bears, under the scheme DPoP and in single headers, a token of the server valid at both clock readings and a proof of the token's key for its method and address |
| DpopMeaning.PassingIsChecked | backend/internal/httpapi/auth.go:44-80 | Conversely, such a request passes, with the identifier's digest and the token's expiry |
| DpopMeaning.AdmittedExactly | backend/internal/httpapi/auth.go:44-88 | In every run of any servers on one table a request is admitted if and only if it bears such a token and proof and the table holds no row that blocks the identifier |
| EndToEnd.IssueAfterCommit | backend/internal/service/device_verify.go:256-268 | After a commit the issue succeeds exactly from the policy instant's whole second for 600 seconds, so always within 599 seconds |
| EndToEnd.IssueBoundIsTight | backend/internal/service/device_verify.go:256-268 | One nanosecond more than 599 seconds can be too late |
| EndToEnd.IssuedTokenIsCompact | license-client/src/security/DeviceProof.cpp:97-122 | The proof builder takes every issued token that fits 16 KiB |
| EndToEnd.ClientBuilds | license-client/src/security/DeviceProof.cpp:241-329 | For the token of a commit the client's check and its proof builder succeed together, exactly within the client's window |
| EndToEnd.ServerChecksPass | backend/internal/httpapi/auth.go:44-80 | All checks of the request that carries that token and proof pass exactly under the stated size, method, URI, window and freshness conditions, and give the random identifier's digest |
| EndToEnd.AdmittedExactlyOnce | backend/internal/httpapi/auth.go:44-88 | From the commit to the handler: in any run of any servers on one table and clock such a request with an unused identifier is admitted, and no other request with its proof ever |
| EndToEnd.CommittedGivesClaims | backend/internal/service/device_verify.go:244-264 | A committed verification of any run of the activation protocol is such a commit, and the token it issues names the session, user, license, device and thumbprint of its claims |
| AuthManager.QuiescentInvariant | license-client/src/auth/AuthManager.cpp:168-354 | In every run, between events: token exactly while the profile loads or the user is signed in, timer armed for the current attempt exactly then, password only while collecting, profile exactly when signed in; what is sent and from where, `AuthHandshake` says |
| AuthManager.CallbackMakesProgress | license-client/src/auth/AuthManager.cpp:252-360 | A callback that changes anything belongs to the current attempt, and ends it or strictly lowers its phase rank |
| AuthManager.AttemptIsFinite | license-client/src/auth/AuthManager.cpp:216-360 | In every run an attempt accepts at most six callbacks |
| AuthManager.AuthenticatesOnce | license-client/src/auth/AuthManager.cpp:322-336 | In every run an attempt signs the user in at most once |
| AuthManager.EndsOnce | license-client/src/auth/AuthManager.cpp:168-354 | In every run an attempt ends at most once, by failure, expiry or sign-out |
| AuthManager.EndCancelsProfile | license-client/src/auth/AuthManager.cpp:192-197 | However an attempt ends while its profile loads, the profile request is cancelled |
| AuthHandshake.EvidenceHeld | license-client/src/auth/AuthManager.cpp:216-336 | In every run the accepted events of the current attempt are a beginning of the handshake, and email, password, device, session, challenge, token, expiry and profile are those these events brought |
| AuthHandshake.LoginSent | license-client/src/auth/AuthManager.cpp:252-265 | The credentials go out if and only if the device of the attempt has been collected by a configured client, and they are those of the login that started the attempt |
| AuthHandshake.SignatureSent | license-client/src/auth/AuthManager.cpp:289-298 | The signature goes out if and only if it was made, over the challenge and for the session of the login answer of the attempt, with the device collected in it |
| AuthHandshake.TokenSent | license-client/src/auth/AuthManager.cpp:302-318 | The token goes out, with its thumbprint and expiry, if and only if it arrived verified and unexpired for an attempt whose challenge was answered |
| AuthHandshake.SignedInOnEvidence | license-client/src/auth/AuthManager.cpp:322-336 | The user is signed in if and only if the profile arrives before the expiry of the token verified in the same attempt, and the profile held is that one |
| AuthHandshake.EndsExactly | license-client/src/auth/AuthManager.cpp:168-360 | An attempt fails exactly on a broken step, expires exactly when its token is seen to be out of date, is signed out exactly by the user, and leaves nothing behind |
| AuthHandshake.IdleHoldsNothing | license-client/src/auth/AuthManager.cpp:203-214 | In every run no credentials, device, session, token or profile are held between attempts |
| ApiClient.SingleFlight | license-client/src/api/ApiClient.cpp:229-379 | In every run at most one request is live, the flag is set exactly when one is, and the profile pointer is exactly the live profile request |
| ApiClient.OneSignalPerRequest | license-client/src/api/ApiClient.cpp:253-379 | In every run a request gives one result signal once it has finished, and none if it was cancelled |
| ApiClient.SignalsCarryTheirGeneration | license-client/src/api/ApiClient.cpp:229-379 | A request's signal has the request's own kind and generation |
| ApiClient.SignalHasCause | license-client/src/api/ApiClient.cpp:229-379 | Every signal has its cause: a result reports how its reply finished, a refusal is a failure and answers a start that met another request or could not be prepared |
| ApiClient.LateCancelledReplyIsHarmless | license-client/src/api/ApiClient.cpp:253-258 | A cancelled reply that finishes late changes neither flag nor pointer and signals nothing, even when a successor is live |
| ApiClient.CancelFreesTheClient | license-client/src/api/ApiClient.cpp:307-315 | After a cancellation the next request starts at once |
| ClientSession.StepKeepsInv | license-client/src/auth/AuthManager.cpp:139-144 | The manager's phase and the outstanding request stay linked through every event, refusals and nested failures included |
| ClientSession.Reachable | license-client/src/auth/AuthManager.cpp:139-360 | The link holds in every run of the two machines together |
| ClientSession.NeverStuck | license-client/src/auth/AuthManager.cpp:216-360 | In every run, in every waiting phase, the work that is waited for is outstanding and belongs to the current attempt |
| ClientSession.OnlyLoginsMeetBusyClient | license-client/src/api/ApiClient.cpp:229-323 | In every run only a login can meet an outstanding request, and that one is a login or device request of an earlier attempt |
| ClientSession.LoginRefusedExactly | license-client/src/api/ApiClient.cpp:317-324 | A collected device's login is refused, and the attempt fails, exactly while a request is outstanding |
| ClientSession.EarlySignOutFailsNextLogin | license-client/src/auth/AuthManager.cpp:232-239 | A run where signing out during a login makes the next login fail |
| SessionHandshake.ToldExactly | license-client/src/auth/AuthManager.cpp:139-144 | The manager of a joint run is the manager of the events the HTTP layer told it, refusals included |
| SessionHandshake.VerifiedAfterSigning | license-client/src/auth/AuthManager.cpp:289-318 | In the joint machine a verified device reaches the current attempt only after its signature was sent |
| SessionHandshake.SignedInByHandshake | license-client/src/auth/AuthManager.cpp:216-336 | In every joint run a signed-in user went through the whole handshake in order and in one attempt: login, collected device, login answer, signature, verified token, profile, the last two before the token's expiry |
| RateLimiter.IpRateLimiter.AllowRequest | backend/internal/httpapi/middleware.go:105-132 | Changes the table and answers exactly as the specification of one call |
| RateLimiter.IpRateLimiter.EvictExpired | backend/internal/httpapi/middleware.go:134-140 | Removes exactly the expired buckets |
| RateLimiter.OtherKey | backend/internal/httpapi/middleware.go:105-132 | A call leaves every other key's live bucket alone and creates none |
| RateLimiter.OwnKey | backend/internal/httpapi/middleware.go:117-131 | A live bucket counts up to the limit and keeps its end; without one an admission opens a bucket of one window |
| RateLimiter.RunTableOk | backend/internal/httpapi/middleware.go:105-140 | In every run the table stays within its capacity, no bucket admits more than the limit, and no retained bucket has been expired for a full window |
| RateLimiter.AdmissionsAreChunked | backend/internal/httpapi/middleware.go:117-131 | A key's admissions in an interval are those of its successive buckets |
| RateLimiter.ChunkBound | backend/internal/httpapi/middleware.go:117-131 | Buckets that do not overlap put at most twice the limit less one into any window |
| RateLimiter.AtMostTwiceLimitLessOne | backend/internal/httpapi/middleware.go:105-132 | In every run with a non-decreasing clock any half-open interval of one window admits at most 2L-1 requests of one key |
| RateLimiter.BoundIsAttained | backend/internal/httpapi/middleware.go:105-132 | For every limit and capacity and every window of two ticks or more, a run that admits exactly 2L-1 requests within one window |
| RateLimiter.IdealTracks | backend/internal/httpapi/middleware.go:105-140 | What the table kept of a key is what a limiter that never cleans has, and what it dropped had expired |
| RateLimiter.CleanupIsInvisible | backend/internal/httpapi/middleware.go:105-140 | A request is admitted exactly when the never-cleaning limiter admits it and its key is live or capacity remains |
| Smbios.FindStringSetEnd | shared/hardware/SmbiosParser.cpp:15-24 | The first position from the start on where two NULs stand, or none |
| Smbios.SmbiosString | shared/hardware/SmbiosParser.cpp:26-58 | The string of that number, trimmed, as an unbounded counter would find it: the eight-bit counter never wraps first |
| Smbios.TrimmedMeaning | shared/hardware/SmbiosParser.cpp:43-46 | The text of a string is its bytes as Latin-1 characters without white space at either end |
| Smbios.FormatUuid | shared/hardware/SmbiosParser.cpp:60-98 | The text of a present UUID, and nothing for a short area or the two "not set" values |
| Smbios.UuidIsReadable | shared/hardware/SmbiosParser.cpp:79-97 | Each byte's two hexadecimal digits stand at its place in the 8-4-4-4-12 form, the first three groups little-endian |
| Prelude.HexDigitMeaning | shared/hardware/SmbiosParser.cpp:91 | The hexadecimal digits are 0 to 9 and a to f, by code points |
| Smbios.UuidTextIsInjective | shared/hardware/SmbiosParser.cpp:79-97 | Different UUIDs have different texts |
| Smbios.NextRecord | shared/hardware/SmbiosParser.cpp:107-131 | The offset strictly grows and stays within the buffer |
| Smbios.Parse | shared/hardware/SmbiosParser.cpp:102-138 | On arbitrary bytes every read is in bounds, the loop ends, and the result is what the last structures that stand in the buffer say: bytes 8 to 23 of type 1, the string byte 7 of type 2 names |
| Smbios.RecordsOfSerialized | shared/hardware/SmbiosParser.cpp:107-135 | Reading a serialized run gives exactly that run, at any offset and whatever unreadable bytes follow |
| Smbios.EveryTableIsARun | shared/hardware/SmbiosParser.cpp:107-135 | Conversely, on arbitrary bytes what is read is well-formed and its serialization is what stands there, and reading stops only at an end-of-table structure or at bytes that start none |
| Smbios.AnswerIsTheLast | shared/hardware/SmbiosParser.cpp:122-129 | The answer is the UUID text of bytes 8 to 23 of the last type 1 structure, and the string, without surrounding white space, that byte 7 of the last type 2 structure longer than 7 names; empty for number 0, beyond the strings, and when there is none |
| Smbios.RoundTrip | shared/hardware/SmbiosParser.cpp:102-138 | A table in the standard's layout, with anything behind its end-of-table structure, is read in those same terms off the structures before the first type 127 |

## Assumptions

- PostgreSQL gives exclusive row locks held to the end of the transaction, read-committed visibility and atomic commit. The
  listing statement locks and reads all rows of a license at once. New rows get identifiers no other row has.
- A license's limit is never lowered and a revoked device is never reinstated; the administrative actions of the model keep
  to that, and wait for row locks.
- Ed25519 and ECDSA signatures verify for the key that made them; SHA-256 gives 32 bytes. Where a hash must not collide, the
  theorem says for which values.
- The two JSON libraries print well-formed documents and read back each other's documents for values without fractions, with
  64-bit integers and nesting up to 64. An integer is the double of the same value up to 2^53.
- A client callback may come late, twice or never, and signal receivers do nothing. A network reply finishes at most once.
- The attempt number of the client is not bounded; in the source it is an unsigned 64-bit counter.

## Left out

- SessionTokenClient.ClientAcceptsIssued: speaks of instants within 2^53 seconds of 1970; the client reads integers as doubles,
  and beyond that two instants 600 seconds apart need not stay so.
- SessionTokenClient.ReadsClaims: the same bound; an integer claim of exactly 2^63, whose conversion the source leaves
  undefined, is refused.
- Go's encoding/json also matches member names that differ in case; the model matches them exactly.
- Instants are unbounded; the overflow of Go's time arithmetic far from the present is not modelled.
- URL parsing and canonicalisation, upper case beyond ASCII, Unicode white space and hardware normalisation are inputs.
- The 16 KiB cap on a key document, which a key inside a proof of at most 16 KiB cannot exceed.
- The login's own checks of credentials and license, and the uniqueness of challenge digests: they only make fewer logins succeed.
- `clientIP`, request identifiers, HTTP routing, error texts and status codes: settled by reading one branch each.
- The message sanitising of `fail`, secure clearing of memory and protection markers: they have no state in the model.
- The destructor of the session manager, after which no callback is delivered.
- The native launcher and process code, TPM, WMI, registry and disk readers: foreign calls.
- The user interface, configuration, migrations, administration commands and server shutdown.
