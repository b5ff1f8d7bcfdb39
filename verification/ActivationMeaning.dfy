/**
 What the verdict of a verification means on the tables. The conditions below read rows and columns only,
 never the checks of the transaction; each outcome is proved to hold exactly under its condition, and each
 success to change exactly the stated columns. The last part carries this to every run.
 */
module ActivationMeaning {
  import opened Prelude
  import opened DeviceMatch
  import opened Activation
  import opened ActivationSafety
  import opened ActivationProtocol
  import opened ActivationInvariant
  import opened ActivationSteps
  import opened ActivationTheorems
  import opened ActivationDrift

  // ---- Conditions on the tables ----

  ghost predicate Known(c: Call, db: Db) {
    c.request.sessionId in db.sessions && c.request.sessionId in db.challenges
  }

  /** The session still waits for its verification and its challenge has not been used. */
  ghost predicate Open(c: Call, db: Db) {
    var sid := c.request.sessionId;
    Known(c, db) && db.sessions[sid].status == Pending && db.challenges[sid].consumedAt == None
  }

  ghost predicate Live(c: Call, db: Db) {
    var sid := c.request.sessionId;
    Open(c, db) && db.sessions[sid].expiresAt > c.now && db.challenges[sid].expiresAt > c.now
  }

  /** The presented challenge is the one sent for the session, signed with the presented key. */
  ghost predicate Proven(cfg: Config, c: Call, db: Db) {
    && Live(c, db)
    && |db.challenges[c.request.sessionId].sha| == 32
    && db.challenges[c.request.sessionId].sha == cfg.sha(c.request.challenge)
    && cfg.validSignature(c.request.key, c.request.challenge, c.request.signature)
  }

  /** The session's license exists and is its user's. */
  ghost predicate Owned(cfg: Config, c: Call, db: Db) {
    && Proven(cfg, c, db)
    && var session := db.sessions[c.request.sessionId];
       session.licenseId in db.licenses && db.licenses[session.licenseId].userId == session.userId
  }

  /** Everything but the devices: the license is for this product, active and unexpired. */
  ghost predicate Granted(cfg: Config, c: Call, db: Db) {
    && Owned(cfg, c, db)
    && var license := db.licenses[db.sessions[c.request.sessionId].licenseId];
       license.product == cfg.product && license.status == LicenseActive && license.expiresAt > c.now
  }

  lemma GrantedParts(cfg: Config, c: Call, db: Db)
    requires Granted(cfg, c, db)
    ensures Known(c, db) && db.sessions[c.request.sessionId].licenseId in db.licenses
    ensures var session := db.sessions[c.request.sessionId];
            && Challenged(cfg, c, db) == Ok(session)
            && Licensed(cfg, c, db, session) == Ok(db.licenses[session.licenseId])
  {
  }

  lemma DeviceErrors(cfg: Config, c: Call, db: Db)
    requires Granted(cfg, c, db)
    ensures var session := db.sessions[c.request.sessionId];
            var r := Chosen(cfg, c, db, session, db.licenses[session.licenseId]);
            r.Err? ==> r.error.RevokedDevice? || r.error.LimitReached? || r.error.DuplicateDevice?
                       || r.error.DeviceNotFound?
  {
    hide RowsOf, Ordered, MatchDevice;
  }

  /** The condition of each refusal made before the devices are read. */
  ghost predicate RefusesEarly(cfg: Config, c: Call, db: Db, e: Error) {
    var sid := c.request.sessionId;
    match e
    case ChallengeNotFound => !Known(c, db)
    case ChallengeConsumed =>
      Known(c, db) && (db.challenges[sid].consumedAt.Some? || db.sessions[sid].status == Verified)
    case ChallengeExpired =>
      && Known(c, db) && db.challenges[sid].consumedAt.None? && db.sessions[sid].status != Verified
      && (|| db.sessions[sid].status == Expired
          || db.sessions[sid].expiresAt <= c.now || db.challenges[sid].expiresAt <= c.now)
    case InvalidSignature => Live(c, db) && !Proven(cfg, c, db)
    case LicenseNotFound => Proven(cfg, c, db) && !Owned(cfg, c, db)
    case InvalidCredentials => Owned(cfg, c, db) && LicenseOf(c, db).product != cfg.product
    case RevokedLicense =>
      Owned(cfg, c, db) && LicenseOf(c, db).product == cfg.product && LicenseOf(c, db).status == LicenseRevoked
    case ExpiredLicense =>
      && Owned(cfg, c, db) && LicenseOf(c, db).product == cfg.product && LicenseOf(c, db).status != LicenseRevoked
      && (LicenseOf(c, db).status == LicenseExpired || LicenseOf(c, db).expiresAt <= c.now)
    case _ => false
  }

  ghost function LicenseOf(c: Call, db: Db): License
    requires Known(c, db) && db.sessions[c.request.sessionId].licenseId in db.licenses
  {
    db.licenses[db.sessions[c.request.sessionId].licenseId]
  }

  /** On any tables whatever: each early refusal happens exactly under its condition. */
  lemma EarlyVerdict(cfg: Config, c: Call, db: Db, e: Error)
    requires !e.RevokedDevice? && !e.LimitReached? && !e.DuplicateDevice? && !e.DeviceNotFound?
    ensures AtomicVerify(cfg, c, db) == Err(e) <==> RefusesEarly(cfg, c, db, e)
  {
    hide RowsOf, Ordered, Chosen, Effects;
    if Granted(cfg, c, db) {
      GrantedParts(cfg, c, db);
      DeviceErrors(cfg, c, db);
    }
  }

  /** Without a grant one of the early refusals applies. */
  lemma UngrantedRefused(cfg: Config, c: Call, db: Db) returns (e: Error)
    requires !Granted(cfg, c, db)
    ensures RefusesEarly(cfg, c, db, e)
  {
    e := if !Known(c, db) then ChallengeNotFound
         else if RefusesEarly(cfg, c, db, ChallengeConsumed) then ChallengeConsumed
         else if !Live(c, db) then ChallengeExpired
         else if !Proven(cfg, c, db) then InvalidSignature
         else if !Owned(cfg, c, db) then LicenseNotFound
         else if LicenseOf(c, db).product != cfg.product then InvalidCredentials
         else if LicenseOf(c, db).status == LicenseRevoked then RevokedLicense
         else ExpiredLicense;
  }

  // ---- Devices ----

  /** The rows that count against a license's limit. */
  ghost function ActiveRows(devices: seq<Device>, licenseId: nat): set<nat> {
    set i: nat | i < |devices| && devices[i].licenseId == licenseId && devices[i].status == Active
  }

  lemma {:induction false} ActiveCountMeaning(devices: seq<Device>, licenseId: nat)
    ensures LicenseActiveCount(devices, licenseId) == |ActiveRows(devices, licenseId)|
  {
    hide LicenseActiveCount;
    if devices == [] {
      assert ActiveRows(devices, licenseId) == {};
      assert LicenseActiveCount([], licenseId) == 0 by { EmptyCount(licenseId); }
    } else {
      var n: nat := |devices| - 1;
      ActiveCountMeaning(devices[..n], licenseId);
      CountOneMore(devices, licenseId);
      var last := devices[n].licenseId == licenseId && devices[n].status == Active;
      assert ActiveRows(devices, licenseId) == ActiveRows(devices[..n], licenseId) + if last then {n} else {};
    }
  }

  lemma EmptyCount(licenseId: nat)
    ensures LicenseActiveCount([], licenseId) == 0
  {
  }

  /** Row `i` belongs to the session's license and stores the digest of the presented key. */
  ghost predicate HoldsKey(cfg: Config, c: Call, db: Db, i: nat)
    requires Known(c, db)
  {
    && i < |db.devices|
    && db.devices[i].licenseId == db.sessions[c.request.sessionId].licenseId
    && db.devices[i].keySha == cfg.sha(c.request.key)
  }

  /** Collected on both sides, and equal. */
  ghost predicate Same(stored: string, presented: string) {
    stored != "" && stored == presented
  }

  /** The hardware a key is accepted with: the same SMBIOS UUID, or the same board and one lesser signal. */
  ghost predicate SameMachine(stored: Hardware, presented: Hardware) {
    || Same(stored.smbios, presented.smbios)
    || (&& Same(stored.motherboard, presented.motherboard)
        && (|| Same(stored.bios, presented.bios) || Same(stored.disk, presented.disk)
            || Same(stored.guid, presented.guid)))
  }

  ghost predicate BelowLimit(c: Call, db: Db)
    requires Known(c, db) && db.sessions[c.request.sessionId].licenseId in db.licenses
  {
    var lid := db.sessions[c.request.sessionId].licenseId;
    |ActiveRows(db.devices, lid)| < db.licenses[lid].maxDevices
  }

  /** The tables after a success: its session verified, its challenge consumed, and these device rows. */
  ghost predicate Leaves(c: Call, db: Db, after: Db, devices: seq<Device>)
    requires Known(c, db)
  {
    var sid := c.request.sessionId;
    var session, challenge := db.sessions[sid], db.challenges[sid];
    && after.licenses == db.licenses
    && after.sessions == db.sessions[sid := Session(session.userId, session.licenseId, Verified, session.expiresAt)]
    && after.challenges == db.challenges[sid := Challenge(challenge.sha, challenge.expiresAt, Some(c.startedAt))]
    && after.devices == devices
  }

  /** The matched row with the presented hardware, seen now. */
  ghost function Seen(c: Call, d: Device): Device {
    Device(d.id, d.userId, d.licenseId, d.key, d.keySha, c.request.hardware, d.status, d.createdAt, c.now, c.now)
  }

  /** The row of a device that was not known before. */
  ghost function Enrolled(cfg: Config, c: Call, session: Session): Device {
    Device(c.freshId, session.userId, session.licenseId, c.request.key, cfg.sha(c.request.key), c.request.hardware,
           Active, c.now, c.now, c.now)
  }

  lemma CandidateMeaning(d: Device, p: Presented)
    requires |d.keySha| == DIGEST_BYTES && d.keySha == p.keySha
    ensures Candidate(d, p) <==> d.status == Active && SameMachine(d.hardware, p.hardware)
  {
    ThresholdMeaning(SignalsOf(d.keySha, d.hardware), SignalsOf(p.keySha, p.hardware));
    hide ScoreDevice;
  }

  /** What the matching says when a listed row holds the key: nothing but that row matters. */
  lemma MatchesKeyRow(cfg: Config, c: Call, db: Db, session: Session, license: License, i: nat)
    requires ConfigOk(cfg) && DbInv(cfg, db) && Licensed(cfg, c, db, session) == Ok(license)
    requires i < |db.devices| && db.devices[i].licenseId == session.licenseId
    requires db.devices[i].keySha == cfg.sha(c.request.key)
    ensures var m := MatchDevice(Ordered(RowsOf(db.devices, session.licenseId), session.userId), PresentedBy(cfg, c));
            && (db.devices[i].status == Revoked ==> m == DeviceRevoked)
            && (Candidate(db.devices[i], PresentedBy(cfg, c)) ==> m.Verdict? && m.matched == Some(db.devices[i]))
  {
    hide Score, RowsOf, Ordered, Licensed, RevokedHit, DbInv;
    var d := db.devices[i];
    var listed, p := Ordered(RowsOf(db.devices, session.licenseId), session.userId), PresentedBy(cfg, c);
    ListedRow(cfg, c, db, session, license, d);
    var j: nat :| j < |listed| && listed[j] == d;
    SecondRevokedCheckIsDead(d, p);
    if Candidate(d, p) {
      forall k | 0 <= k < |listed|
        ensures !RevokedHit(listed[k], p) && (Candidate(listed[k], p) ==> listed[k] == d)
      {
        OnlyKeyRow(cfg, c, db, session, license, d, listed[k]);
      }
      BestMeaning(listed, p);
      assert Best(listed, p).Some?;
    }
  }

  /** A listed row that the matching can hit holds the presented key, and only one row does. */
  lemma OnlyKeyRow(cfg: Config, c: Call, db: Db, session: Session, license: License, d: Device, other: Device)
    requires ConfigOk(cfg) && DbInv(cfg, db) && Licensed(cfg, c, db, session) == Ok(license)
    requires d in db.devices && d.licenseId == session.licenseId && d.keySha == cfg.sha(c.request.key)
    requires d.status == Active
    requires other in Ordered(RowsOf(db.devices, session.licenseId), session.userId)
    ensures !RevokedHit(other, PresentedBy(cfg, c))
    ensures Candidate(other, PresentedBy(cfg, c)) ==> other == d
  {
    hide Score, RowsOf, Ordered, Licensed;
    var p := PresentedBy(cfg, c);
    ListedRow(cfg, c, db, session, license, other);
    SecondRevokedCheckIsDead(other, p);
    if other.keySha == p.keySha {
      KeyIsUnique(cfg, db, other, d);
    } else if Score(other, p) >= MATCH_THRESHOLD {
      ThresholdNeedsKey(other, p);
    }
  }

  /** The decision as the matching and the count make it, when no row is matched. */
  lemma UnmatchedDecision(cfg: Config, c: Call, db: Db)
    requires ConfigOk(cfg) && DbInv(cfg, db) && Granted(cfg, c, db)
    requires var session := db.sessions[c.request.sessionId];
             var listed := Ordered(RowsOf(db.devices, session.licenseId), session.userId);
             var m := MatchDevice(listed, PresentedBy(cfg, c));
             m.Verdict? && m.matched.None?
    ensures var session := db.sessions[c.request.sessionId];
            Decide(cfg, c, session, db.licenses[session.licenseId],
                   Ordered(RowsOf(db.devices, session.licenseId), session.userId))
            == if BelowLimit(c, db) then Ok(Create(Enrolled(cfg, c, session))) else Err(LimitReached)
  {
    hide RowsOf, Ordered, LicenseActiveCount, DbInv, Granted, Best, AnyRevoked, ActiveRows, CountActive;
    GrantedParts(cfg, c, db);
    var session := db.sessions[c.request.sessionId];
    ListingCount(cfg, c, db, session, db.licenses[session.licenseId]);
    ActiveCountMeaning(db.devices, session.licenseId);
  }

  lemma MatchedWrite(cfg: Config, c: Call, db: Db, i: nat)
    requires ConfigOk(cfg) && DbInv(cfg, db) && Granted(cfg, c, db) && HoldsKey(cfg, c, db, i)
    requires db.devices[i].status == Active
    ensures var session := db.sessions[c.request.sessionId];
            var w := Update(db.devices[i].id);
            && WriteError(RowsOf(db.devices, session.licenseId), session, w) == None
            && WriteDevice(cfg, c, db.devices, w) == db.devices[i := Seen(c, db.devices[i])]
  {
    hide RowsOf, Granted, LimitsOk, SessionsOk;
    GrantedParts(cfg, c, db);
    var d, session := db.devices[i], db.sessions[c.request.sessionId];
    assert RowOk(cfg, db.licenses, d);
    RowsOfMember(db.devices, session.licenseId, d);
    var rows := RowsOf(db.devices, session.licenseId);
    var j: nat :| j < |rows| && rows[j] == d;
    assert Updatable(rows[j], d.id, session);
    assert RowIndex(db.devices, d.id) == i;
  }

  lemma EffectsLeave(cfg: Config, c: Call, db: Db, w: Write)
    requires Known(c, db)
    ensures Leaves(c, db, Effects(cfg, c, db, db.sessions[c.request.sessionId], w), WriteDevice(cfg, c, db.devices, w))
  {
    hide WriteDevice;
  }

  /** The verdict when a row of the license holds the presented key. */
  lemma KnownKeyVerdict(cfg: Config, c: Call, db: Db, i: nat)
    requires ConfigOk(cfg) && DbInv(cfg, db) && Granted(cfg, c, db) && HoldsKey(cfg, c, db, i)
    ensures var r, d := AtomicVerify(cfg, c, db), db.devices[i];
            if d.status == Revoked then r == Err(RevokedDevice)
            else if SameMachine(d.hardware, c.request.hardware)
            then r.Ok? && r.value.1 == d.id && Leaves(c, db, r.value.0, db.devices[i := Seen(c, d)])
            else r == Err(if BelowLimit(c, db) then DuplicateDevice else LimitReached)
  {
    hide RowsOf, Ordered, MatchDevice, WriteError, WriteDevice, Score, Granted, DbInv, Effects, Challenged, Licensed,
         BelowLimit, Leaves, SameMachine;
    GrantedParts(cfg, c, db);
    var session, d, p := db.sessions[c.request.sessionId], db.devices[i], PresentedBy(cfg, c);
    var license := db.licenses[session.licenseId];
    MatchesKeyRow(cfg, c, db, session, license, i);
    CandidateMeaning(d, p);
    if d.status == Active {
      if SameMachine(d.hardware, c.request.hardware) {
        MatchedWrite(cfg, c, db, i);
        EffectsLeave(cfg, c, db, Update(d.id));
      } else {
        assert DriftedRow(cfg, c, db, session.licenseId, d);
        DriftedRowMeansNoMatch(cfg, c, db, session, license, d);
        UnmatchedDecision(cfg, c, db);
        DriftedRowBlocks(cfg, c, db, session, d);
      }
    }
  }

  lemma NothingMatches(cfg: Config, c: Call, db: Db)
    requires ConfigOk(cfg) && DbInv(cfg, db) && Granted(cfg, c, db)
    requires forall i: nat :: !HoldsKey(cfg, c, db, i)
    ensures var session := db.sessions[c.request.sessionId];
            var m := MatchDevice(Ordered(RowsOf(db.devices, session.licenseId), session.userId), PresentedBy(cfg, c));
            && m.Verdict? && m.matched.None?
            && WriteError(RowsOf(db.devices, session.licenseId), session, Create(Enrolled(cfg, c, session))) == None
  {
    hide Score, RowsOf, Ordered, DbInv, Granted, Licensed, Challenged, RevokedHit;
    GrantedParts(cfg, c, db);
    var session, p := db.sessions[c.request.sessionId], PresentedBy(cfg, c);
    var rows := RowsOf(db.devices, session.licenseId);
    var listed := Ordered(rows, session.userId);
    forall d | d in db.devices && d.licenseId == session.licenseId
      ensures d.keySha != p.keySha && !RevokedHit(d, p) && !Candidate(d, p)
    {
      var i: nat :| i < |db.devices| && db.devices[i] == d;
      assert !HoldsKey(cfg, c, db, i);
      SecondRevokedCheckIsDead(d, p);
      if Score(d, p) >= MATCH_THRESHOLD {
        ThresholdNeedsKey(d, p);
      }
    }
    forall k | 0 <= k < |listed| ensures !RevokedHit(listed[k], p) && !Candidate(listed[k], p) {
      ListedRow(cfg, c, db, session, db.licenses[session.licenseId], listed[k]);
    }
    BestMeaning(listed, p);
    forall k | 0 <= k < |rows| ensures rows[k].keySha != p.keySha {
      RowsOfMember(db.devices, session.licenseId, rows[k]);
    }
  }

  /** The verdict when no row of the license holds the presented key. */
  lemma NewKeyVerdict(cfg: Config, c: Call, db: Db)
    requires ConfigOk(cfg) && DbInv(cfg, db) && Granted(cfg, c, db)
    requires forall i: nat :: !HoldsKey(cfg, c, db, i)
    ensures var r, session := AtomicVerify(cfg, c, db), db.sessions[c.request.sessionId];
            if BelowLimit(c, db)
            then
              && r.Ok? && r.value.1 == c.freshId
              && Leaves(c, db, r.value.0, db.devices + [Enrolled(cfg, c, session)])
            else r == Err(LimitReached)
  {
    hide RowsOf, Ordered, MatchDevice, WriteError, Score, Granted, DbInv, Effects, Challenged, Licensed, BelowLimit,
         Leaves, HoldsKey;
    GrantedParts(cfg, c, db);
    var session := db.sessions[c.request.sessionId];
    NothingMatches(cfg, c, db);
    UnmatchedDecision(cfg, c, db);
    EffectsLeave(cfg, c, db, Create(Enrolled(cfg, c, session)));
  }

  // ---- The verdict, exactly ----

  ghost predicate KeyIsNew(cfg: Config, c: Call, db: Db)
    requires Known(c, db)
  {
    forall i: nat :: !HoldsKey(cfg, c, db, i)
  }

  /** Row `i` holds the key on the same machine: it is rewritten, and nothing else about the devices changes. */
  ghost predicate Returns(cfg: Config, c: Call, db: Db, after: Db, deviceId: nat, i: nat)
    requires Known(c, db)
  {
    && HoldsKey(cfg, c, db, i) && db.devices[i].status == Active
    && SameMachine(db.devices[i].hardware, c.request.hardware)
    && deviceId == db.devices[i].id
    && Leaves(c, db, after, db.devices[i := Seen(c, db.devices[i])])
  }

  /** When a verification succeeds, and with what tables and device. */
  ghost predicate Succeeds(cfg: Config, c: Call, db: Db, after: Db, deviceId: nat) {
    && Granted(cfg, c, db)
    && (|| (exists i: nat :: Returns(cfg, c, db, after, deviceId, i))
        || (&& KeyIsNew(cfg, c, db) && BelowLimit(c, db)
            && deviceId == c.freshId
            && Leaves(c, db, after, db.devices + [Enrolled(cfg, c, db.sessions[c.request.sessionId])])))
  }

  /** Row `i` holds the key on a machine that changed too much. */
  ghost predicate Drifted(cfg: Config, c: Call, db: Db, i: nat)
    requires Known(c, db)
  {
    && HoldsKey(cfg, c, db, i) && db.devices[i].status == Active
    && !SameMachine(db.devices[i].hardware, c.request.hardware)
  }

  /** When a verification is refused with `e`. */
  ghost predicate Refuses(cfg: Config, c: Call, db: Db, e: Error) {
    match e
    case RevokedDevice =>
      Granted(cfg, c, db) && exists i: nat :: HoldsKey(cfg, c, db, i) && db.devices[i].status == Revoked
    case LimitReached =>
      && Granted(cfg, c, db) && !BelowLimit(c, db)
      && (KeyIsNew(cfg, c, db) || exists i: nat :: Drifted(cfg, c, db, i))
    case DuplicateDevice =>
      Granted(cfg, c, db) && BelowLimit(c, db) && exists i: nat :: Drifted(cfg, c, db, i)
    case DeviceNotFound => false
    case _ => RefusesEarly(cfg, c, db, e)
  }

  lemma OneKeyRow(cfg: Config, c: Call, db: Db, i: nat, j: nat)
    requires DbInv(cfg, db) && Known(c, db) && HoldsKey(cfg, c, db, i) && HoldsKey(cfg, c, db, j)
    ensures i == j
  {
  }

  lemma LeavesDetermines(c: Call, db: Db, a: Db, b: Db, devices: seq<Device>)
    requires Known(c, db) && Leaves(c, db, a, devices) && Leaves(c, db, b, devices)
    ensures a == b
  {
  }

  /** The whole verdict: success and every refusal, each exactly under its condition on the tables. */
  lemma VerdictExactly(cfg: Config, c: Call, db: Db, after: Db, deviceId: nat, e: Error)
    requires ConfigOk(cfg) && DbInv(cfg, db)
    ensures AtomicVerify(cfg, c, db) == Ok((after, deviceId)) <==> Succeeds(cfg, c, db, after, deviceId)
    ensures AtomicVerify(cfg, c, db) == Err(e) <==> Refuses(cfg, c, db, e)
  {
    hide AtomicVerify, Granted, HoldsKey, DbInv, BelowLimit, Leaves, SameMachine, RefusesEarly;
    if !Granted(cfg, c, db) {
      var early := UngrantedRefused(cfg, c, db);
      NotDeviceError(cfg, c, db, early);
      EarlyVerdict(cfg, c, db, early);
      if !DeviceError(e) {
        EarlyVerdict(cfg, c, db, e);
      }
    } else {
      GrantedParts(cfg, c, db);
      if !DeviceError(e) {
        EarlyVerdict(cfg, c, db, e);
      }
      if i: nat :| HoldsKey(cfg, c, db, i) {
        if DeviceError(e) {
          KnownKeyRefuses(cfg, c, db, e, i);
        }
        KnownKeySucceeds(cfg, c, db, after, deviceId, i);
      } else {
        NewKeyVerdict(cfg, c, db);
        NewKeySucceeds(cfg, c, db, after, deviceId);
      }
    }
  }

  predicate DeviceError(e: Error) {
    e.RevokedDevice? || e.LimitReached? || e.DuplicateDevice? || e.DeviceNotFound?
  }

  lemma NotDeviceError(cfg: Config, c: Call, db: Db, e: Error)
    requires RefusesEarly(cfg, c, db, e)
    ensures !DeviceError(e)
  {
  }

  lemma KnownKeySucceeds(cfg: Config, c: Call, db: Db, after: Db, deviceId: nat, i: nat)
    requires ConfigOk(cfg) && DbInv(cfg, db) && Granted(cfg, c, db) && HoldsKey(cfg, c, db, i)
    ensures AtomicVerify(cfg, c, db) == Ok((after, deviceId)) <==> Succeeds(cfg, c, db, after, deviceId)
  {
    hide AtomicVerify, Granted, HoldsKey, DbInv, BelowLimit, Leaves, SameMachine, RefusesEarly;
    GrantedParts(cfg, c, db);
    KnownKeyVerdict(cfg, c, db, i);
    HeldByRow(cfg, c, db, i);
    var r := AtomicVerify(cfg, c, db);
    if r == Ok((after, deviceId)) {
      assert Returns(cfg, c, db, after, deviceId, i);
    }
    if Succeeds(cfg, c, db, after, deviceId) {
      var j: nat :| Returns(cfg, c, db, after, deviceId, j);
      OneKeyRow(cfg, c, db, i, j);
      LeavesDetermines(c, db, after, r.value.0, db.devices[i := Seen(c, db.devices[i])]);
    }
  }

  lemma KnownKeyRefuses(cfg: Config, c: Call, db: Db, e: Error, i: nat)
    requires ConfigOk(cfg) && DbInv(cfg, db) && Granted(cfg, c, db) && HoldsKey(cfg, c, db, i)
    requires DeviceError(e)
    ensures AtomicVerify(cfg, c, db) == Err(e) <==> Refuses(cfg, c, db, e)
  {
    hide AtomicVerify, Granted, HoldsKey, DbInv, BelowLimit, Leaves, SameMachine, RefusesEarly;
    GrantedParts(cfg, c, db);
    KnownKeyVerdict(cfg, c, db, i);
    HeldByRow(cfg, c, db, i);
    forall j: nat | HoldsKey(cfg, c, db, j) ensures i == j {
      OneKeyRow(cfg, c, db, i, j);
    }
    assert Drifted(cfg, c, db, i)
      <==> db.devices[i].status == Active && !SameMachine(db.devices[i].hardware, c.request.hardware);
  }

  lemma HeldByRow(cfg: Config, c: Call, db: Db, i: nat)
    requires Known(c, db) && HoldsKey(cfg, c, db, i)
    ensures i < |db.devices|
  {
  }

  lemma NewKeySucceeds(cfg: Config, c: Call, db: Db, after: Db, deviceId: nat)
    requires ConfigOk(cfg) && DbInv(cfg, db) && Granted(cfg, c, db)
    requires KeyIsNew(cfg, c, db)
    ensures AtomicVerify(cfg, c, db) == Ok((after, deviceId)) <==> Succeeds(cfg, c, db, after, deviceId)
  {
    hide AtomicVerify, Granted, HoldsKey, DbInv, BelowLimit, Leaves, SameMachine, RefusesEarly;
    GrantedParts(cfg, c, db);
    NewKeyVerdict(cfg, c, db);
    var r := AtomicVerify(cfg, c, db);
    if Succeeds(cfg, c, db, after, deviceId) {
      LeavesDetermines(c, db, after, r.value.0, db.devices + [Enrolled(cfg, c, db.sessions[c.request.sessionId])]);
    }
  }

  // ---- Every run ----

  ghost predicate Closed(p: Phase) {
    HasCommitted(p) || p.Failed?
  }

  /** What an ended verification reports: the error, or the device, and in its token the rows it was issued for. */
  ghost predicate Reports(cfg: Config, tx: Tx, r: Result<(Session, nat), Error>) {
    match tx.phase
    case Failed(e) => r == Err(e)
    case Committed(session, deviceId) => r == Ok((session, deviceId))
    case Issued(token) =>
      && r.Ok?
      && cfg.thumbprint(tx.call.request.key) == Some(token.thumbprint)
      && token.sessionId == tx.call.request.sessionId
      && token.userId == r.value.0.userId && token.licenseId == r.value.0.licenseId && token.deviceId == r.value.1
    case _ => false
  }

  /** Between the tables `before` and `after` the verification `tx` got its verdict, and reports it. */
  ghost predicate Justified(cfg: Config, before: Db, after: Db, tx: Tx) {
    exists r :: Reports(cfg, tx, r) && JustifiedBy(cfg, before, after, tx.call, r)
  }

  ghost predicate JustifiedBy(cfg: Config, before: Db, after: Db, c: Call, r: Result<(Session, nat), Error>) {
    match r
    case Err(e) => Refuses(cfg, c, before, e) && after == before
    case Ok((session, deviceId)) =>
      Succeeds(cfg, c, before, after, deviceId) && session == before.sessions[c.request.sessionId]
  }

  lemma VerdictJustified(cfg: Config, s: State, t: nat)
    requires ConfigOk(cfg) && Inv(cfg, s) && t in s.txs && Decides(cfg, s, t)
    ensures var s' := TakeStep(cfg, s, t);
            t in s'.txs && Closed(s'.txs[t].phase) && s'.txs[t].call == s.txs[t].call
            && Justified(cfg, s.db, s'.db, s'.txs[t])
  {
    hide Inv, AtomicVerify, Decides, Advance, Effects, Succeeds, Refuses;
    StepDecides(cfg, s, t);
    var s' := TakeStep(cfg, s, t);
    var tx := s'.txs[t];
    SameCall(cfg, s, t);
    InvTables(cfg, s);
    match tx.phase
    case Failed(e) =>
      VerdictExactly(cfg, tx.call, s.db, s'.db, 0, e);
      assert JustifiedBy(cfg, s.db, s'.db, tx.call, Err(e));
    case Committed(session, deviceId) =>
      VerdictExactly(cfg, tx.call, s.db, s'.db, deviceId, ChallengeNotFound);
      CommittedSession(cfg, s, t);
      assert JustifiedBy(cfg, s.db, s'.db, tx.call, Ok((session, deviceId)));
  }

  lemma SameCall(cfg: Config, s: State, t: nat)
    requires t in s.txs
    ensures t in TakeStep(cfg, s, t).txs && TakeStep(cfg, s, t).txs[t].call == s.txs[t].call
  {
    hide Advance, Effects, Acquire, Release;
  }

  lemma CommittedSession(cfg: Config, s: State, t: nat)
    requires Inv(cfg, s) && t in s.txs && Decides(cfg, s, t) && TakeStep(cfg, s, t).txs[t].phase.Committed?
    ensures s.txs[t].Sid() in s.db.sessions
    ensures TakeStep(cfg, s, t).txs[t].phase.session == s.db.sessions[s.txs[t].Sid()]
  {
    hide DbInv, Advance, Effects, Licensed, Chosen, CheckChallenge;
    assert TxInv(cfg, s.db, s.locks, t, s.txs[t]);
  }

  /** The only way to end is to decide; an ended verification goes on reporting the same. */
  lemma EndsByDeciding(cfg: Config, s: State, a: Action, t: nat)
    requires Inv(cfg, s)
    requires t in Apply(cfg, s, a).txs && Closed(Apply(cfg, s, a).txs[t].phase)
    ensures t in s.txs
    ensures if Closed(s.txs[t].phase)
            then
              && Apply(cfg, s, a).txs[t].call == s.txs[t].call
              && forall r :: Reports(cfg, s.txs[t], r) ==> Reports(cfg, Apply(cfg, s, a).txs[t], r)
            else a == Step(t) && Decides(cfg, s, t)
  {
    hide Inv;
    match a
    case Step(u) =>
      if u in s.txs { StepEnds(cfg, s, u, t); }
    case Crash(u) =>
    case Begin(_, _, _, _) =>
    case _ => AdministerKeepsTxs(cfg, s, a);
  }

  lemma StepEnds(cfg: Config, s: State, u: nat, t: nat)
    requires Inv(cfg, s) && u in s.txs
    requires t in TakeStep(cfg, s, u).txs && Closed(TakeStep(cfg, s, u).txs[t].phase)
    ensures t in s.txs
    ensures if Closed(s.txs[t].phase)
            then
              && TakeStep(cfg, s, u).txs[t].call == s.txs[t].call
              && forall r :: Reports(cfg, s.txs[t], r) ==> Reports(cfg, TakeStep(cfg, s, u).txs[t], r)
            else u == t && Decides(cfg, s, t)
  {
    hide CheckChallenge, CheckLicense, Decide, WriteError, RowsOf, Ordered, DeviceRows, Effects, Acquire, Release,
         DbInv, TxInv;
    assert Admissible(cfg, s.txs[u].call.request);
  }

  /**
   Every verification of every run that committed, has its token or failed did so in one step of its own,
   on tables that meet the condition of what it reports; that step changed exactly what the success says,
   and nothing for a failure.
   */
  lemma {:induction false} EveryVerdictJustified(cfg: Config, actions: seq<Action>, t: nat) returns (n: nat)
    requires ConfigOk(cfg)
    requires t in Run(cfg, INIT, actions).txs && Closed(Run(cfg, INIT, actions).txs[t].phase)
    ensures n < |actions| && actions[n] == Step(t)
    ensures Justified(cfg, Run(cfg, INIT, actions[..n]).db, Run(cfg, INIT, actions[..n + 1]).db,
                      Run(cfg, INIT, actions).txs[t])
    decreases |actions|
  {
    hide Apply, Inv, Closed, Decides, JustifiedBy, Reports;
    assert actions != [] by { assert t !in INIT.txs; }
    var m: nat := |actions| - 1;
    var s, last := Run(cfg, INIT, actions[..m]), actions[m];
    LastAction(cfg, actions);
    Reachable(cfg, actions[..m]);
    EndsByDeciding(cfg, s, last, t);
    if Closed(s.txs[t].phase) {
      n := EveryVerdictJustified(cfg, actions[..m], t);
      assert actions[..m][..n] == actions[..n] && actions[..m][..n + 1] == actions[..n + 1];
    } else {
      n := m;
      VerdictJustified(cfg, s, t);
      StepIs(cfg, s, last);
      assert actions[..n + 1] == actions;
    }
  }

  lemma LastAction(cfg: Config, actions: seq<Action>)
    requires actions != []
    ensures Run(cfg, INIT, actions) == Apply(cfg, Run(cfg, INIT, actions[..|actions| - 1]), actions[|actions| - 1])
  {
    hide Apply, Run;
    var m := |actions| - 1;
    assert actions == actions[..m] + [actions[m]];
    RunConcat(cfg, INIT, actions[..m], [actions[m]]);
    RunOne(cfg, Run(cfg, INIT, actions[..m]), actions[m]);
  }

  /** In particular nothing commits without the session, the proof and the license that it needs at that instant. */
  lemma CommittedMeans(cfg: Config, actions: seq<Action>, t: nat) returns (n: nat)
    requires ConfigOk(cfg)
    requires t in Run(cfg, INIT, actions).txs && HasCommitted(Run(cfg, INIT, actions).txs[t].phase)
    ensures n < |actions| && actions[n] == Step(t)
    ensures var db := Run(cfg, INIT, actions[..n]).db;
            var c := Run(cfg, INIT, actions).txs[t].call;
            var sid := c.request.sessionId;
            && sid in db.sessions && db.sessions[sid].status == Pending && db.sessions[sid].expiresAt > c.now
            && sid in db.challenges && db.challenges[sid].consumedAt.None? && db.challenges[sid].expiresAt > c.now
            && |db.challenges[sid].sha| == 32 && cfg.sha(c.request.challenge) == db.challenges[sid].sha
            && cfg.validSignature(c.request.key, c.request.challenge, c.request.signature)
            && var lid := db.sessions[sid].licenseId;
               && lid in db.licenses && db.licenses[lid].userId == db.sessions[sid].userId
               && db.licenses[lid].product == cfg.product
               && db.licenses[lid].status == LicenseActive && db.licenses[lid].expiresAt > c.now
  {
    hide Run;
    n := EveryVerdictJustified(cfg, actions, t);
    JustifiedIsGranted(cfg, Run(cfg, INIT, actions[..n]).db, Run(cfg, INIT, actions[..n + 1]).db,
                       Run(cfg, INIT, actions).txs[t]);
  }

  lemma JustifiedIsGranted(cfg: Config, before: Db, after: Db, tx: Tx)
    requires Justified(cfg, before, after, tx) && HasCommitted(tx.phase)
    ensures Granted(cfg, tx.call, before)
  {
    hide Granted, Refuses, Leaves, HoldsKey, BelowLimit, SameMachine;
  }
}
