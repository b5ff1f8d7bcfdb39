/**
 One-time consumption of proofs (RFC 9449 section 11.1): the table of used proof identifiers that any number of
 servers share, the request gate in front of it, and what holds of every run of requests.
 */
module DpopReplay {
  import opened Prelude
  import opened SessionToken
  import opened Dpop
  import Base64Url
  import CompactToken

  type Digest = seq<Byte>

  /** `dpop_replays`: the digest of each used identifier with the expiry of the token it was used with. */
  type Rows = map<Digest, int>

  // ---- The table ----

  /** The rows a cleanup at `now` leaves. */
  function Unexpired(rows: Rows, now: int): Rows {
    map digest | digest in rows && !(rows[digest] < now) :: rows[digest]
  }

  /**
   The statement of `ConsumeDPoP` on the table. PostgreSQL leaves open which of its two parts runs first, so the order
   is an input: an expired row still blocks the insert unless the cleanup came first.
   */
  function Consume(rows: Rows, digest: Digest, expires: int, now: int, cleanupFirst: bool): (Rows, bool) {
    var left := Unexpired(rows, now);
    var consumed := digest !in (if cleanupFirst then left else rows);
    (if consumed then left[digest := expires] else left, consumed)
  }

  class ReplayTable {
    var rows: Rows

    constructor ()
      ensures rows == map[]
    {
      rows := map[];
    }

    method ConsumeDPoP(digest: Digest, expires: int, now: int, cleanupFirst: bool) returns (consumed: bool)
      modifies this
      ensures (rows, consumed) == Consume(old(rows), digest, expires, now, cleanupFirst)
    {
      if cleanupFirst {
        rows := Unexpired(rows, now);
        consumed := digest !in rows;
      } else {
        consumed := digest !in rows;
        rows := Unexpired(rows, now);
      }
      if consumed {
        rows := rows[digest := expires];
      }
    }
  }

  // ---- The gate ----

  /** A server: its verifying key, policy, base URL, and whether verifier, table and base URL are configured. */
  datatype Server = Server(publicKey: seq<Byte>, policy: Policy, baseUrl: string, ready: bool, absolute: string -> bool)

  /** A request: each Authorization header split at white space, the DPoP headers, the method and the path. */
  datatype HttpRequest = HttpRequest(authorization: seq<seq<string>>, proofs: seq<string>, method_: string,
      path: string)

  /** When the token is verified, when the proof is checked, and the database's clock at the insert. */
  datatype Instants = Instants(verify: int, check: int, consume: int)

  datatype Event = Event(server: Server, request: HttpRequest, instants: Instants, cleanupFirst: bool)

  function TrimSlashes(text: string): string {
    if text != "" && text[|text| - 1] == '/' then TrimSlashes(text[..|text| - 1]) else text
  }

  /** The checks before the table is asked: the digest to consume and the token's expiry. */
  function Checked(libs: Libraries, event: Event): Option<(Digest, int)> {
    var request := event.request;
    if |request.authorization| != 1 || |request.authorization[0]| != 2 || request.authorization[0][0] != "DPoP"
        then None
    else
      var token := request.authorization[0][1];
      var claims :- Verify(libs, event.server.publicKey, event.server.policy, token, event.instants.verify);
      if |request.proofs| != 1 || claims.proof.None? || !event.server.ready then None
      else if !(claims.expiresAt > event.instants.check) then None
      else
        var uri := TrimSlashes(event.server.baseUrl) + request.path;
        var proof :- VerifyDpop(libs, event.server.absolute, request.proofs[0],
                                Request(token, request.method_, uri, claims, event.instants.check));
        Some((proof.tokenIdDigest, claims.expiresAt))
  }

  /** `RequireSession`: the table after the request, and whether the request is let through. */
  function Serve(libs: Libraries, rows: Rows, event: Event): (Rows, bool) {
    match Checked(libs, event)
    case None => (rows, false)
    case Some((digest, expires)) => Consume(rows, digest, expires, event.instants.consume, event.cleanupFirst)
  }

  method RequireSession(libs: Libraries, replays: ReplayTable, event: Event) returns (admitted: bool)
    modifies replays
    ensures (replays.rows, admitted) == Serve(libs, old(replays.rows), event)
  {
    hide Consume;
    match Checked(libs, event) {
      case None => admitted := false;
      case Some((digest, expires)) =>
        admitted := replays.ConsumeDPoP(digest, expires, event.instants.consume, event.cleanupFirst);
    }
  }

  // ---- Runs ----

  /** The table after the requests of any number of servers, in the order of their statements. */
  function RowsAfter(libs: Libraries, rows: Rows, events: seq<Event>): Rows {
    if events == [] then rows
    else Serve(libs, RowsAfter(libs, rows, events[..|events| - 1]), events[|events| - 1]).0
  }

  predicate Admitted(libs: Libraries, rows: Rows, events: seq<Event>, i: nat)
    requires i < |events|
  {
    Serve(libs, RowsAfter(libs, rows, events[..i]), events[i]).1
  }

  lemma OneMoreRequest(libs: Libraries, rows: Rows, events: seq<Event>, k: nat)
    requires k < |events|
    ensures RowsAfter(libs, rows, events[..k + 1]) == Serve(libs, RowsAfter(libs, rows, events[..k]), events[k]).0
  {
    assert events[..k + 1][..k] == events[..k];
  }

  /** A request reaches the table only before its token's expiry by its server's clock. */
  lemma CheckedInTime(libs: Libraries, event: Event)
    requires Checked(libs, event).Some?
    ensures event.instants.check < Checked(libs, event).value.1
  {
    hide Verify, VerifyDpop;
  }

  // ---- The proof fixes its token ----

  /** Tokens a run presents do not collide under SHA-256. */
  ghost predicate NoCollision(libs: Libraries, events: seq<Event>) {
    forall i, j :: 0 <= i < |events| && 0 <= j < |events| && Checked(libs, events[i]).Some?
        && Checked(libs, events[j]).Some?
      && libs.crypto.sha256(TokenOf(events[i])) == libs.crypto.sha256(TokenOf(events[j]))
      ==> TokenOf(events[i]) == TokenOf(events[j])
  }

  function TokenOf(event: Event): string {
    if |event.request.authorization| == 1 && |event.request.authorization[0]| == 2
    then event.request.authorization[0][1] else ""
  }

  function ProofOf(event: Event): string {
    if |event.request.proofs| == 1 then event.request.proofs[0] else ""
  }

  /** What an accepted proof says, read from the proof alone: the access hash and the identifier's digest. */
  function SaysOf(libs: Libraries, proof: string): Option<ProofPayload> {
    var parts :- CompactToken.DecodeCompact(proof);
    PayloadOf(libs, parts.payload)
  }

  lemma AcceptedSays(libs: Libraries, event: Event)
    requires Checked(libs, event).Some?
    ensures SaysOf(libs, ProofOf(event)).Some?
    ensures SaysOf(libs, ProofOf(event)).value.accessHash == AccessHash(libs.crypto, TokenOf(event))
    ensures Checked(libs, event).value.0 == libs.crypto.sha256(SaysOf(libs, ProofOf(event)).value.tokenId)
  {
    hide Verify, HeaderProofKey, PayloadOf, SignatureHolds, CompactToken.DecodeCompact, FreshAt, UriOk, CanonicalRandom,
         AccessHash, Upper, TrimSlashes;
  }

  lemma TokenFixesExpiry(libs: Libraries, event: Event)
    requires Checked(libs, event).Some?
    ensures |CompactToken.Split(TokenOf(event))| > 1
    ensures ReadPayload(libs, CompactToken.Split(TokenOf(event))[1]).Some?
    ensures Checked(libs, event).value.1 == ReadPayload(libs, CompactToken.Split(TokenOf(event))[1]).value.expiresAt
  {
    hide VerifyDpop, HeaderAccepted, SignatureAccepted, ReadPayload, ValidClaims, CompactToken.Split, TrimSlashes;
  }

  /** Two accepted requests with one proof carry one token: they consume the same digest for the same expiry. */
  lemma ProofFixesToken(libs: Libraries, events: seq<Event>, i: nat, j: nat)
    requires i < |events| && j < |events| && NoCollision(libs, events)
    requires Checked(libs, events[i]).Some? && Checked(libs, events[j]).Some?
    requires ProofOf(events[i]) == ProofOf(events[j])
    ensures TokenOf(events[i]) == TokenOf(events[j])
    ensures Checked(libs, events[i]) == Checked(libs, events[j])
  {
    hide *;
    AcceptedSays(libs, events[i]);
    AcceptedSays(libs, events[j]);
    SameHash(libs, TokenOf(events[i]), TokenOf(events[j]));
    SameToken(libs, events, i, j);
    TokenFixesExpiry(libs, events[i]);
    TokenFixesExpiry(libs, events[j]);
  }

  lemma SameHash(libs: Libraries, a: string, b: string)
    requires AccessHash(libs.crypto, a) == AccessHash(libs.crypto, b)
    ensures libs.crypto.sha256(a) == libs.crypto.sha256(b)
  {
    Base64Url.EncodeInjective(libs.crypto.sha256(a), libs.crypto.sha256(b));
  }

  lemma SameToken(libs: Libraries, events: seq<Event>, i: nat, j: nat)
    requires i < |events| && j < |events| && NoCollision(libs, events)
    requires Checked(libs, events[i]).Some? && Checked(libs, events[j]).Some?
    requires libs.crypto.sha256(TokenOf(events[i])) == libs.crypto.sha256(TokenOf(events[j]))
    ensures TokenOf(events[i]) == TokenOf(events[j])
  {
    hide Checked, TokenOf;
  }

  // ---- No proof is admitted twice ----

  lemma AdmittedLeavesRow(libs: Libraries, rows: Rows, events: seq<Event>, i: nat)
    requires i < |events| && Admitted(libs, rows, events, i)
    ensures Checked(libs, events[i]).Some?
    ensures var (digest, expires) := Checked(libs, events[i]).value;
            var after := RowsAfter(libs, rows, events[..i + 1]);
            digest in after && after[digest] == expires
  {
    hide Checked, RowsAfter;
    OneMoreRequest(libs, rows, events, i);
  }

  /** A row outlives every statement made no later than its expiry. */
  lemma {:induction false} RowStays(libs: Libraries, rows: Rows, events: seq<Event>, i: nat, k: nat, digest: Digest)
    requires i <= k <= |events|
    requires digest in RowsAfter(libs, rows, events[..i])
    requires var expires := RowsAfter(libs, rows, events[..i])[digest];
             forall l :: i <= l < k ==> events[l].instants.consume <= expires
    ensures digest in RowsAfter(libs, rows, events[..k])
    ensures RowsAfter(libs, rows, events[..k])[digest] == RowsAfter(libs, rows, events[..i])[digest]
    decreases k - i
  {
    hide Checked, RowsAfter;
    if i < k {
      RowStays(libs, rows, events, i, k - 1, digest);
      OneMoreRequest(libs, rows, events, k - 1);
    }
  }

  predicate InOrder(events: seq<Event>) {
    forall i, j :: 0 <= i < j < |events| ==> events[i].instants.consume <= events[j].instants.consume
  }

  /** The database's clock at the insert has not passed the token's expiry. */
  predicate OnTime(libs: Libraries, event: Event) {
    Checked(libs, event).Some? ==> event.instants.consume <= Checked(libs, event).value.1
  }

  /**
   In every run of any number of servers on one table, whatever rows it starts with, no proof is admitted twice, as
   long as the database's clock never runs backwards and the second request is inserted before its token expires.
   */
  lemma NoProofTwice(libs: Libraries, rows: Rows, events: seq<Event>, i: nat, j: nat)
    requires i < j < |events| && InOrder(events) && NoCollision(libs, events) && OnTime(libs, events[j])
    requires Admitted(libs, rows, events, i) && ProofOf(events[i]) == ProofOf(events[j])
    ensures !Admitted(libs, rows, events, j)
  {
    hide Checked, RowsAfter, ProofOf, NoCollision;
    AdmittedLeavesRow(libs, rows, events, i);
    if Checked(libs, events[j]).Some? {
      ProofFixesToken(libs, events, i, j);
      var (digest, expires) := Checked(libs, events[i]).value;
      RowStays(libs, rows, events, i + 1, j, digest);
    }
  }

  /** The same, for checks and inserts made at one instant of one clock that never runs backwards. */
  lemma NoProofTwiceOnOneClock(libs: Libraries, rows: Rows, events: seq<Event>, i: nat, j: nat)
    requires i < j < |events| && InOrder(events) && NoCollision(libs, events)
    requires forall k :: 0 <= k < |events| ==> events[k].instants.check == events[k].instants.consume
    requires ProofOf(events[i]) == ProofOf(events[j])
    ensures !(Admitted(libs, rows, events, i) && Admitted(libs, rows, events, j))
  {
    hide Checked, RowsAfter, ProofOf, NoCollision, InOrder;
    if Admitted(libs, rows, events, i) {
      if Checked(libs, events[j]).Some? {
        CheckedInTime(libs, events[j]);
      }
      NoProofTwice(libs, rows, events, i, j);
    }
  }

  lemma {:induction false} UnusedStaysUnused(libs: Libraries, rows: Rows, events: seq<Event>, i: nat, digest: Digest)
    requires i <= |events| && digest !in rows
    requires forall k :: 0 <= k < i && Checked(libs, events[k]).Some? ==> Checked(libs, events[k]).value.0 != digest
    ensures digest !in RowsAfter(libs, rows, events[..i])
  {
    hide Checked, RowsAfter;
    if i == 0 {
      NoRequests(libs, rows);
      assert events[..0] == [];
    } else {
      UnusedStaysUnused(libs, rows, events, i - 1, digest);
      OneMoreRequest(libs, rows, events, i - 1);
    }
  }

  lemma NoRequests(libs: Libraries, rows: Rows)
    ensures RowsAfter(libs, rows, []) == rows
  {
  }

  /** And once it is admitted: the first request to pass the checks with an unused identifier is let through. */
  lemma FirstUseIsAdmitted(libs: Libraries, rows: Rows, events: seq<Event>, i: nat)
    requires i < |events| && Checked(libs, events[i]).Some? && Checked(libs, events[i]).value.0 !in rows
    requires forall k :: 0 <= k < i && Checked(libs, events[k]).Some? ==>
               Checked(libs, events[k]).value.0 != Checked(libs, events[i]).value.0
    ensures Admitted(libs, rows, events, i)
  {
    hide Checked, RowsAfter;
    UnusedStaysUnused(libs, rows, events, i, Checked(libs, events[i]).value.0);
  }

  /** Admitted exactly once: the first use is let through and every other request with the same proof refused. */
  lemma AdmittedExactlyOnce(libs: Libraries, rows: Rows, events: seq<Event>, i: nat)
    requires i < |events| && InOrder(events) && NoCollision(libs, events)
    requires forall k :: 0 <= k < |events| ==> events[k].instants.check == events[k].instants.consume
    requires Checked(libs, events[i]).Some? && Checked(libs, events[i]).value.0 !in rows
    requires forall k :: 0 <= k < i && Checked(libs, events[k]).Some? ==>
               Checked(libs, events[k]).value.0 != Checked(libs, events[i]).value.0
    ensures Admitted(libs, rows, events, i)
    ensures forall j: nat :: j < |events| && j != i && ProofOf(events[j]) == ProofOf(events[i])
              ==> !Admitted(libs, rows, events, j)
  {
    hide Checked, RowsAfter, ProofOf, NoCollision, InOrder, Admitted;
    FirstUseIsAdmitted(libs, rows, events, i);
    forall j: nat | j < |events| && j != i && ProofOf(events[j]) == ProofOf(events[i])
      ensures !Admitted(libs, rows, events, j)
    {
      if i < j {
        NoProofTwiceOnOneClock(libs, rows, events, i, j);
      } else if Admitted(libs, rows, events, j) {
        AdmittedLeavesRow(libs, rows, events, j);
        ProofFixesToken(libs, events, i, j);
      }
    }
  }

  // ---- Exactly when a second use slips through ----

  /** Some statement after the first use and before the second cleaned the table after the row had expired. */
  predicate CleanedBetween(libs: Libraries, events: seq<Event>, i: nat, j: nat, expires: int)
    requires i < j <= |events|
  {
    exists k :: i < k < j && Checked(libs, events[k]).Some? && expires < events[k].instants.consume
  }

  lemma {:induction false} RowBetween(libs: Libraries, rows: Rows, events: seq<Event>, i: nat, j: nat)
    requires i < j <= |events| && Admitted(libs, rows, events, i) && Checked(libs, events[i]).Some?
    requires forall k :: i < k < j && Checked(libs, events[k]).Some? ==>
               Checked(libs, events[k]).value.0 != Checked(libs, events[i]).value.0
    ensures var (digest, expires) := Checked(libs, events[i]).value;
            var before := RowsAfter(libs, rows, events[..j]);
            if CleanedBetween(libs, events, i, j, expires) then digest !in before
            else digest in before && before[digest] == expires
    decreases j
  {
    hide Checked, RowsAfter;
    if j == i + 1 {
      AdmittedLeavesRow(libs, rows, events, i);
    } else {
      RowBetween(libs, rows, events, i, j - 1);
      OneMoreRequest(libs, rows, events, j - 1);
    }
  }

  /**
   Without any assumption on the clocks: the next use of an identifier after an admitted one is admitted if and only
   if a statement in between ran after the first token's expiry, or its own cleanup did and came before its insert.
   */
  lemma SecondUseExactly(libs: Libraries, rows: Rows, events: seq<Event>, i: nat, j: nat)
    requires i < j < |events| && Admitted(libs, rows, events, i)
    requires Checked(libs, events[i]).Some? && Checked(libs, events[j]).Some?
    requires Checked(libs, events[j]).value.0 == Checked(libs, events[i]).value.0
    requires forall k :: i < k < j && Checked(libs, events[k]).Some? ==>
               Checked(libs, events[k]).value.0 != Checked(libs, events[i]).value.0
    ensures var expires := Checked(libs, events[i]).value.1;
            Admitted(libs, rows, events, j)
            <==> || CleanedBetween(libs, events, i, j, expires)
                 || (events[j].cleanupFirst && expires < events[j].instants.consume)
  {
    hide Checked, RowsAfter, CleanedBetween;
    RowBetween(libs, rows, events, i, j);
  }

  /** The event with its insert at another instant, and the cleanup not before it. */
  function InsertedAt(event: Event, consume: int): Event {
    event.(instants := event.instants.(consume := consume), cleanupFirst := false)
  }

  /** The checks do not depend on the instant of the insert. */
  lemma CheckedAnyway(libs: Libraries, event: Event, consume: int)
    ensures Checked(libs, InsertedAt(event, consume)) == Checked(libs, event)
  {
    hide Verify, VerifyDpop, TrimSlashes;
  }

  /**
   A run through the gate that admits a proof twice. Take any request that passes the checks, any other one that passes
   them with another identifier, and any instant after the first token's expiry. Let the first request be inserted in
   time, and at that instant the other one and the first one again: every clock reading of a check is as it was, the
   inserts are in order, no statement cleans before it inserts, and both uses are admitted.
   */
  lemma LateInsertAdmitsTwice(libs: Libraries, rows: Rows, e: Event, g: Event, late: int)
    requires Checked(libs, e).Some? && Checked(libs, g).Some?
    requires var (digest, expires) := Checked(libs, e).value;
             digest !in rows && Checked(libs, g).value.0 != digest && expires < late && e.instants.consume <= late
    ensures var events := [InsertedAt(e, e.instants.consume), InsertedAt(g, late), InsertedAt(e, late)];
            && InOrder(events) && ProofOf(events[0]) == ProofOf(events[2])
            && Checked(libs, events[0]) == Checked(libs, events[2]) == Checked(libs, e)
            && (forall k :: 0 <= k < 3 ==> !events[k].cleanupFirst)
            && Admitted(libs, rows, events, 0) && Admitted(libs, rows, events, 2)
  {
    var events := [InsertedAt(e, e.instants.consume), InsertedAt(g, late), InsertedAt(e, late)];
    CheckedAnyway(libs, e, e.instants.consume);
    CheckedAnyway(libs, g, late);
    CheckedAnyway(libs, e, late);
    hide Checked, Admitted, RowsAfter, SaysOf;
    FirstUseIsAdmitted(libs, rows, events, 0);
    assert Checked(libs, events[1]).Some? && Checked(libs, e).value.1 < events[1].instants.consume;
    SecondUseExactly(libs, rows, events, 0, 2);
  }
}
