/** What one verification, run alone, guarantees: the table invariant, revocation, and its exact failures. */
module ActivationSafety {
  import opened Prelude
  import opened DeviceMatch
  import opened Activation

  ghost predicate Fresh(c: Call, db: Db) {
    forall i :: 0 <= i < |db.devices| ==> db.devices[i].id != c.freshId
  }

  lemma CreateKeepsDevices(cfg: Config, c: Call, db: Db, session: Session)
    requires DevicesOk(cfg, db.licenses, db.devices) && Fresh(c, db)
    requires session.licenseId in db.licenses && db.licenses[session.licenseId].userId == session.userId
    requires WriteError(RowsOf(db.devices, session.licenseId), session, Create(NewRow(cfg, c, session))).None?
    ensures DevicesOk(cfg, db.licenses, db.devices + [NewRow(cfg, c, session)])
  {
    var rows, d := RowsOf(db.devices, session.licenseId), NewRow(cfg, c, session);
    forall i | 0 <= i < |db.devices| && db.devices[i].licenseId == d.licenseId
      ensures db.devices[i].keySha != d.keySha
    {
      RowsOfMember(db.devices, session.licenseId, db.devices[i]);
      assert db.devices[i] in rows;
    }
  }

  lemma ChosenBelowLimit(cfg: Config, c: Call, db: Db, session: Session, license: License)
    requires DbInv(cfg, db)
    requires Licensed(cfg, c, db, session) == Ok(license)
    requires Chosen(cfg, c, db, session, license) == Ok(Create(NewRow(cfg, c, session)))
    ensures LicenseActiveCount(db.devices, session.licenseId) < license.maxDevices
  {
    var rows := RowsOf(db.devices, session.licenseId);
    ListingIsComplete(cfg, db, session);
    CountActivePermuted(Ordered(rows, session.userId), rows);
  }

  lemma WriteKeepsLimits(cfg: Config, c: Call, db: Db, session: Session, license: License, w: Write)
    requires DbInv(cfg, db)
    requires Licensed(cfg, c, db, session) == Ok(license) && Chosen(cfg, c, db, session, license) == Ok(w)
    ensures forall l :: l in db.licenses
                        ==> LicenseActiveCount(WriteDevice(cfg, c, db.devices, w), l) <= db.licenses[l].maxDevices
  {
    forall l | l in db.licenses
      ensures LicenseActiveCount(WriteDevice(cfg, c, db.devices, w), l) <= db.licenses[l].maxDevices
    {
      match w
      case Create(d) =>
        ChosenBelowLimit(cfg, c, db, session, license);
        CountOneMore(db.devices + [d], l);
        assert (db.devices + [d])[..|db.devices|] == db.devices;
      case Update(id) =>
        var i := RowIndex(db.devices, id);
        if i < |db.devices| {
          CountAfterRewrite(db.devices, i, Refreshed(cfg, c, db.devices[i]), l);
        }
    }
  }

  lemma UpdateKeepsDevices(cfg: Config, c: Call, db: Db, id: nat)
    requires DevicesOk(cfg, db.licenses, db.devices)
    ensures DevicesOk(cfg, db.licenses, WriteDevice(cfg, c, db.devices, Update(id)))
  {
  }

  /** A committed verification keeps the table invariant, device limits included. */
  lemma VerifyKeepsInvariant(cfg: Config, c: Call, db: Db)
    requires DbInv(cfg, db) && Fresh(c, db)
    requires AtomicVerify(cfg, c, db).Ok?
    ensures DbInv(cfg, AtomicVerify(cfg, c, db).value.0)
  {
    hide DevicesOk, LicenseActiveCount, WriteDevice, WriteError, Decide, CheckChallenge, CheckLicense, RowsOf, Ordered;
    var (session, w) := Plan(cfg, c, db).value;
    var license := Licensed(cfg, c, db, session).value;
    WriteKeepsLimits(cfg, c, db, session, license, w);
    WriteKeepsDevices(cfg, c, db, session, license, w);
  }

  lemma WriteKeepsDevices(cfg: Config, c: Call, db: Db, session: Session, license: License, w: Write)
    requires DbInv(cfg, db) && Fresh(c, db)
    requires Licensed(cfg, c, db, session) == Ok(license) && Chosen(cfg, c, db, session, license) == Ok(w)
    ensures DevicesOk(cfg, db.licenses, WriteDevice(cfg, c, db.devices, w))
  {
    hide RowsOf, Ordered, MatchDevice, CheckLicense, DevicesOk, LimitsOk, SessionsOk, RowIndex;
    match w
    case Create(d) => CreateKeepsDevices(cfg, c, db, session);
    case Update(id) => UpdateKeepsDevices(cfg, c, db, id);
  }

  /** The matched row is an active row of the license that passed the threshold. */
  lemma MatchedRow(cfg: Config, c: Call, db: Db, session: Session, license: License) returns (m: Device)
    requires DbInv(cfg, db) && Licensed(cfg, c, db, session) == Ok(license)
    requires Decide(cfg, c, session, license, Ordered(RowsOf(db.devices, session.licenseId), session.userId)).Ok?
    requires var listed := Ordered(RowsOf(db.devices, session.licenseId), session.userId);
             Decide(cfg, c, session, license, listed).value.Update?
    ensures m in RowsOf(db.devices, session.licenseId) && m in db.devices && m.licenseId == session.licenseId
    ensures Candidate(m, PresentedBy(cfg, c)) && m.userId == session.userId
    ensures Decide(cfg, c, session, license, Ordered(RowsOf(db.devices, session.licenseId), session.userId))
          == Ok(Update(m.id))
  {
    hide Score, Candidate;
    var rows := RowsOf(db.devices, session.licenseId);
    var listed := Ordered(rows, session.userId);
    m := Best(listed, PresentedBy(cfg, c)).value;
    ListingIsComplete(cfg, db, session);
    BestMeaning(listed, PresentedBy(cfg, c));
    assert m in multiset(listed);
    RowsOfMember(db.devices, session.licenseId, m);
  }

  /** The row chosen for update is there: the update never misses. */
  lemma UpdateNeverMisses(cfg: Config, c: Call, db: Db, session: Session, license: License)
    requires DbInv(cfg, db) && Licensed(cfg, c, db, session) == Ok(license)
    ensures Chosen(cfg, c, db, session, license) != Err(DeviceNotFound)
  {
    hide Score, MatchDevice, RowsOf, Ordered, DbInv, Licensed;
    var rows := RowsOf(db.devices, session.licenseId);
    var decision := Decide(cfg, c, session, license, Ordered(rows, session.userId));
    if decision.Ok? && decision.value.Update? {
      var m := MatchedRow(cfg, c, db, session, license);
      var i: nat :| i < |rows| && rows[i] == m;
      assert Updatable(rows[i], m.id, session);
    }
  }

  /** A revoked row of the session's license with the presented key refuses the verification. */
  lemma RevokedKeyRefused(cfg: Config, c: Call, db: Db, session: Session, d: Device)
    requires ConfigOk(cfg) && DbInv(cfg, db)
    requires Challenged(cfg, c, db) == Ok(session)
    requires d in db.devices && d.licenseId == session.licenseId
    requires d.status == Revoked && d.keySha == cfg.sha(c.request.key)
    ensures AtomicVerify(cfg, c, db).Err?
  {
    hide Score, Ordered, RowsOf, CheckLicense, CheckChallenge, WriteError, DbInv, Best, CountActive, Candidate;
    if Licensed(cfg, c, db, session).Ok? {
      var rows := RowsOf(db.devices, session.licenseId);
      var listed := Ordered(rows, session.userId);
      ListingIsComplete(cfg, db, session);
      RowsOfMember(db.devices, session.licenseId, d);
      assert d in multiset(rows) && d in listed;
      var i: nat :| i < |listed| && listed[i] == d;
      assert RevokedHit(listed[i], PresentedBy(cfg, c));
    }
  }

  /** The row a committed verification names carries the presented key's digest. */
  lemma CommittedRowHasKey(cfg: Config, c: Call, db: Db, d: Device)
    requires ConfigOk(cfg) && DbInv(cfg, db) && Fresh(c, db)
    requires AtomicVerify(cfg, c, db).Ok?
    requires d in AtomicVerify(cfg, c, db).value.0.devices && d.id == AtomicVerify(cfg, c, db).value.1
    ensures d.keySha == cfg.sha(c.request.key) && d.status == Active
    ensures d.licenseId == db.sessions[c.request.sessionId].licenseId
  {
    hide Score, RowsOf, Ordered, CheckChallenge, CheckLicense, MatchDevice, WriteError;
    var (session, w) := Plan(cfg, c, db).value;
    if w.Update? {
      var m := MatchedRow(cfg, c, db, session, Licensed(cfg, c, db, session).value);
      ThresholdNeedsKey(m, PresentedBy(cfg, c));
      var i := RowIndex(db.devices, m.id);
      assert db.devices[i] == m;
    }
  }

  /** An active row of the license with the presented key that scores below the threshold. */
  ghost predicate DriftedRow(cfg: Config, c: Call, db: Db, licenseId: nat, d: Device) {
    && d in db.devices && d.licenseId == licenseId && d.status == Active
    && d.keySha == cfg.sha(c.request.key) && Score(d, PresentedBy(cfg, c)) < MATCH_THRESHOLD
  }

  /** A listed row is a row of the license, and the other way round. */
  lemma ListedRow(cfg: Config, c: Call, db: Db, session: Session, license: License, d: Device)
    requires DbInv(cfg, db) && Licensed(cfg, c, db, session) == Ok(license)
    ensures d in Ordered(RowsOf(db.devices, session.licenseId), session.userId)
            <==> d in db.devices && d.licenseId == session.licenseId
  {
    var rows := RowsOf(db.devices, session.licenseId);
    ListingIsComplete(cfg, db, session);
    RowsOfMember(db.devices, session.licenseId, d);
    assert d in multiset(rows) <==> d in multiset(Ordered(rows, session.userId));
  }

  /** Two rows of one license with the same key digest are one row. */
  lemma KeyIsUnique(cfg: Config, db: Db, a: Device, b: Device)
    requires DevicesOk(cfg, db.licenses, db.devices)
    requires a in db.devices && b in db.devices && a.licenseId == b.licenseId && a.keySha == b.keySha
    ensures a == b
  {
  }

  /** Beside a drifted row nothing is revoked with the same key and nothing matches. */
  lemma DriftedRowMeansNoMatch(cfg: Config, c: Call, db: Db, session: Session, license: License, d: Device)
    requires ConfigOk(cfg) && DbInv(cfg, db) && Licensed(cfg, c, db, session) == Ok(license)
    requires DriftedRow(cfg, c, db, session.licenseId, d)
    ensures var listed := Ordered(RowsOf(db.devices, session.licenseId), session.userId);
            MatchDevice(listed, PresentedBy(cfg, c)) == Verdict(None, LicenseActiveCount(db.devices, session.licenseId))
  {
    hide Score, RowsOf, Ordered, Licensed;
    var rows := RowsOf(db.devices, session.licenseId);
    var listed, p := Ordered(rows, session.userId), PresentedBy(cfg, c);
    forall i | 0 <= i < |listed| ensures !RevokedHit(listed[i], p) && !Candidate(listed[i], p) {
      ListedRow(cfg, c, db, session, license, listed[i]);
      SecondRevokedCheckIsDead(listed[i], p);
      if listed[i].keySha == p.keySha {
        KeyIsUnique(cfg, db, listed[i], d);
      } else if Score(listed[i], p) >= MATCH_THRESHOLD {
        ThresholdNeedsKey(listed[i], p);
      }
    }
    BestMeaning(listed, p);
    ListingCount(cfg, c, db, session, license);
  }

  lemma ListingCount(cfg: Config, c: Call, db: Db, session: Session, license: License)
    requires DbInv(cfg, db) && Licensed(cfg, c, db, session) == Ok(license)
    ensures CountActive(Ordered(RowsOf(db.devices, session.licenseId), session.userId))
            == LicenseActiveCount(db.devices, session.licenseId)
  {
    var rows := RowsOf(db.devices, session.licenseId);
    ListingIsComplete(cfg, db, session);
    CountActivePermuted(Ordered(rows, session.userId), rows);
  }

  /** A row that makes the insert fail is a drifted row. */
  lemma DuplicateMeansDrifted(cfg: Config, c: Call, db: Db, session: Session, license: License) returns (d: Device)
    requires ConfigOk(cfg) && DbInv(cfg, db) && Licensed(cfg, c, db, session) == Ok(license)
    requires Chosen(cfg, c, db, session, license) == Err(DuplicateDevice)
    ensures DriftedRow(cfg, c, db, session.licenseId, d)
    ensures LicenseActiveCount(db.devices, session.licenseId) < license.maxDevices
  {
    hide Score, RowsOf, Ordered, Licensed;
    var rows := RowsOf(db.devices, session.licenseId);
    var listed, p := Ordered(rows, session.userId), PresentedBy(cfg, c);
    var i: nat :| i < |rows| && rows[i].keySha == p.keySha;
    d := rows[i];
    RowsOfMember(db.devices, session.licenseId, d);
    ListedRow(cfg, c, db, session, license, d);
    var j: nat :| j < |listed| && listed[j] == d;
    BestMeaning(listed, p);
    ListingCount(cfg, c, db, session, license);
    assert !RevokedHit(listed[j], p) && !Candidate(listed[j], p);
  }

  /**
   The insert violates the table's unique key exactly when the license, below its limit, holds an active
   device with the presented key whose other signals changed so much that it scores below the threshold.
   */
  lemma DuplicateExactly(cfg: Config, c: Call, db: Db, session: Session, license: License)
    requires ConfigOk(cfg) && DbInv(cfg, db) && Licensed(cfg, c, db, session) == Ok(license)
    ensures Chosen(cfg, c, db, session, license) == Err(DuplicateDevice) <==>
            && LicenseActiveCount(db.devices, session.licenseId) < license.maxDevices
            && exists d :: DriftedRow(cfg, c, db, session.licenseId, d)
  {
    hide Score, Ordered, Licensed, MatchDevice, DbInv, DriftedRow, LicenseActiveCount;
    if Chosen(cfg, c, db, session, license) == Err(DuplicateDevice) {
      var d := DuplicateMeansDrifted(cfg, c, db, session, license);
    }
    if LicenseActiveCount(db.devices, session.licenseId) < license.maxDevices {
      if d :| DriftedRow(cfg, c, db, session.licenseId, d) {
        DriftedRowMeansNoMatch(cfg, c, db, session, license, d);
        DriftedRowBlocks(cfg, c, db, session, d);
      }
    }
  }

  lemma DriftedRowBlocks(cfg: Config, c: Call, db: Db, session: Session, d: Device)
    requires DriftedRow(cfg, c, db, session.licenseId, d)
    ensures WriteError(RowsOf(db.devices, session.licenseId), session, Create(NewRow(cfg, c, session)))
          == Some(DuplicateDevice)
  {
    RowsOfMember(db.devices, session.licenseId, d);
  }
}
