/** The inductive invariant of the interleaved protocol: what each phase knows about the tables it has locked. */
module ActivationInvariant {
  import opened Prelude
  import opened DeviceMatch
  import opened Activation
  import opened ActivationSafety
  import opened ActivationProtocol

  // ---- What a lock protects ----

  ghost predicate AgreeSession(a: Db, b: Db, sid: nat) {
    && (sid in a.sessions <==> sid in b.sessions) && (sid in a.challenges <==> sid in b.challenges)
    && (sid in a.sessions ==> a.sessions[sid] == b.sessions[sid])
    && (sid in a.challenges ==> a.challenges[sid] == b.challenges[sid])
  }

  ghost predicate AgreeLicense(a: Db, b: Db, lid: nat) {
    (lid in a.licenses <==> lid in b.licenses) && (lid in a.licenses ==> a.licenses[lid] == b.licenses[lid])
  }

  ghost predicate AgreeDevices(a: Db, b: Db, lid: nat) {
    RowsOf(a.devices, lid) == RowsOf(b.devices, lid)
  }

  ghost predicate Holds(locks: map<Row, nat>, t: nat, r: Row) {
    r in locks && locks[r] == t
  }

  ghost predicate HoldsDevices(db: Db, locks: map<Row, nat>, t: nat, lid: nat) {
    forall i :: 0 <= i < |db.devices| && db.devices[i].licenseId == lid ==> Holds(locks, t, DeviceRow(db.devices[i].id))
  }

  /** The license and device locks of a transaction past its listing. */
  ghost predicate HoldsAll(db: Db, locks: map<Row, nat>, t: nat, tx: Tx, lid: nat) {
    && Holds(locks, t, SessionRow(tx.Sid()))
    && Holds(locks, t, LicenseRow(lid))
    && HoldsDevices(db, locks, t, lid)
  }

  /** The row of a committed verification: it exists and carries the presented key's digest. */
  ghost predicate Done(cfg: Config, db: Db, tx: Tx, licenseId: nat, deviceId: nat) {
    && tx.Sid() in db.challenges && db.challenges[tx.Sid()].consumedAt.Some?
    && exists i :: 0 <= i < |db.devices| && DoneRow(cfg, db.devices[i], tx, licenseId, deviceId)
  }

  ghost predicate DoneRow(cfg: Config, d: Device, tx: Tx, licenseId: nat, deviceId: nat) {
    d.id == deviceId && d.licenseId == licenseId && d.keySha == cfg.sha(tx.call.request.key)
  }

  /** The knowledge of each phase: its copies are still what the tables say, and its plan is still the plan. */
  ghost predicate TxInv(cfg: Config, db: Db, locks: map<Row, nat>, t: nat, tx: Tx) {
    var c, sid := tx.call, tx.Sid();
    match tx.phase
    case HasChallenge(session, challenge) =>
      && Holds(locks, t, SessionRow(sid))
      && sid in db.sessions && sid in db.challenges
      && db.sessions[sid] == session && db.challenges[sid] == challenge && challenge.consumedAt.None?
    case HasLicense(session, license) =>
      && Holds(locks, t, SessionRow(sid)) && Holds(locks, t, LicenseRow(session.licenseId))
      && Challenged(cfg, c, db) == Ok(session)
      && session.licenseId in db.licenses && db.licenses[session.licenseId] == license
         && license.userId == session.userId
    case HasDevices(session, license, listed) =>
      && HoldsAll(db, locks, t, tx, session.licenseId)
      && Challenged(cfg, c, db) == Ok(session)
      && Licensed(cfg, c, db, session) == Ok(license)
      && listed == Ordered(RowsOf(db.devices, session.licenseId), session.userId)
    case Wrote(session, w) => HoldsAll(db, locks, t, tx, session.licenseId) && Plan(cfg, c, db) == Ok((session, w))
    case Marked(session, w) => HoldsAll(db, locks, t, tx, session.licenseId) && Plan(cfg, c, db) == Ok((session, w))
    case Consumed(session, w) => HoldsAll(db, locks, t, tx, session.licenseId) && Plan(cfg, c, db) == Ok((session, w))
    case Committed(session, deviceId) => Done(cfg, db, tx, session.licenseId, deviceId)
    case Issued(token) =>
      && Done(cfg, db, tx, token.licenseId, token.deviceId)
      && token.sessionId == sid
      && cfg.thumbprint(c.request.key) == Some(token.thumbprint)
    case _ => true
  }

  ghost predicate InProgress(s: State, t: nat) {
    t in s.txs && !Finished(s.txs[t].phase) && !HasCommitted(s.txs[t].phase)
  }

  ghost predicate LocksOk(s: State) {
    forall r :: r in s.locks ==> InProgress(s, s.locks[r])
  }

  ghost predicate TxsOk(cfg: Config, s: State) {
    forall t :: t in s.txs ==>
      && TxInv(cfg, s.db, s.locks, t, s.txs[t])
      && s.txs[t].call.freshId == t
      && Admissible(cfg, s.txs[t].call.request)
  }

  /** Device ids come from committed verifications, so a new id is always free. */
  ghost predicate IdsOk(s: State) {
    forall i :: 0 <= i < |s.db.devices| ==> s.db.devices[i].id in s.txs && HasCommitted(s.txs[s.db.devices[i].id].phase)
  }

  /** Two committed verifications never share a session. */
  ghost predicate OncePerSession(s: State) {
    forall t, u :: t in s.txs && u in s.txs && t != u && HasCommitted(s.txs[t].phase) && HasCommitted(s.txs[u].phase)
                   ==> s.txs[t].Sid() != s.txs[u].Sid()
  }

  ghost predicate Inv(cfg: Config, s: State) {
    && DbInv(cfg, s.db)
    && LocksOk(s)
    && TxsOk(cfg, s)
    && IdsOk(s)
    && OncePerSession(s)
  }

  // ---- Tables only grow in what matters ----

  /** The columns no statement ever rewrites; a revoked row stays revoked. */
  ghost predicate SameIdentity(a: Device, b: Device) {
    && a.id == b.id && a.userId == b.userId && a.licenseId == b.licenseId && a.key == b.key && a.keySha == b.keySha
    && (a.status == Revoked ==> b.status == Revoked)
  }

  ghost predicate Grows(a: Db, b: Db) {
    && |a.devices| <= |b.devices|
    && (forall i :: 0 <= i < |a.devices| ==> SameIdentity(a.devices[i], b.devices[i]))
    && (forall sid :: sid in a.challenges && a.challenges[sid].consumedAt.Some?
                      ==> sid in b.challenges && b.challenges[sid].consumedAt.Some?)
  }

  lemma GrowsTransitive(a: Db, b: Db, c: Db)
    requires Grows(a, b) && Grows(b, c)
    ensures Grows(a, c)
  {
  }

  lemma DoneSurvives(cfg: Config, a: Db, b: Db, tx: Tx, licenseId: nat, deviceId: nat)
    requires Done(cfg, a, tx, licenseId, deviceId) && Grows(a, b)
    ensures Done(cfg, b, tx, licenseId, deviceId)
  {
    var i :| 0 <= i < |a.devices| && DoneRow(cfg, a.devices[i], tx, licenseId, deviceId);
    assert SameIdentity(a.devices[i], b.devices[i]);
    assert DoneRow(cfg, b.devices[i], tx, licenseId, deviceId);
  }

  // ---- The commit step at table level ----

  ghost predicate Planned(cfg: Config, c: Call, db: Db, session: Session, w: Write) {
    Plan(cfg, c, db) == Ok((session, w))
  }

  /** What a plan says about its parts. */
  lemma PlanParts(cfg: Config, c: Call, db: Db, session: Session, w: Write)
    requires Planned(cfg, c, db, session, w)
    ensures Challenged(cfg, c, db) == Ok(session)
    ensures Licensed(cfg, c, db, session).Ok?
    ensures Chosen(cfg, c, db, session, Licensed(cfg, c, db, session).value) == Ok(w)
    ensures WriteError(RowsOf(db.devices, session.licenseId), session, w).None?
    ensures w.Create? ==> w.device == NewRow(cfg, c, session)
  {
    hide RowsOf, Ordered, MatchDevice, CheckChallenge, CheckLicense, WriteError;
  }

  /** The row an update rewrites belongs to the session's license. */
  lemma UpdatedRow(cfg: Config, c: Call, db: Db, session: Session, id: nat) returns (i: nat)
    requires DbInv(cfg, db) && Planned(cfg, c, db, session, Update(id))
    ensures i == RowIndex(db.devices, id) < |db.devices| && db.devices[i].licenseId == session.licenseId
  {
    hide Plan, Chosen, Licensed, Challenged, RowsOf;
    PlanParts(cfg, c, db, session, Update(id));
    var rows := RowsOf(db.devices, session.licenseId);
    var k :| 0 <= k < |rows| && Updatable(rows[k], id, session);
    RowsOfMember(db.devices, session.licenseId, rows[k]);
    var j: nat :| j < |db.devices| && db.devices[j] == rows[k];
    i := RowIndex(db.devices, id);
  }

  /** A commit touches only its own session, its own challenge and the devices of its own license. */
  lemma CommitAgrees(cfg: Config, c: Call, db: Db, session: Session, w: Write)
    requires DbInv(cfg, db) && Planned(cfg, c, db, session, w)
    ensures var db' := Effects(cfg, c, db, session, w);
            && db'.licenses == db.licenses
            && (forall sid :: sid != c.request.sessionId ==> AgreeSession(db, db', sid))
            && (forall lid :: lid != session.licenseId ==> AgreeDevices(db, db', lid))
            && Grows(db, db')
  {
    WriteAgrees(cfg, c, db, session, w);
    EffectsOnSessions(cfg, c, db, session, w);
    hide Planned, RowsOf, DbInv, WriteDevice, AgreeSession;
  }

  lemma EffectsOnSessions(cfg: Config, c: Call, db: Db, session: Session, w: Write)
    ensures var db' := Effects(cfg, c, db, session, w);
            && (forall sid :: sid != c.request.sessionId ==> AgreeSession(db, db', sid))
            && (forall sid :: sid in db.challenges && db.challenges[sid].consumedAt.Some?
                              ==> sid in db'.challenges && db'.challenges[sid].consumedAt.Some?)
  {
    hide WriteDevice;
  }

  lemma WriteAgrees(cfg: Config, c: Call, db: Db, session: Session, w: Write)
    requires DbInv(cfg, db) && Planned(cfg, c, db, session, w)
    ensures var devices := WriteDevice(cfg, c, db.devices, w);
            && (forall lid :: lid != session.licenseId ==> RowsOf(db.devices, lid) == RowsOf(devices, lid))
            && |db.devices| <= |devices|
            && (forall i :: 0 <= i < |db.devices| ==> SameIdentity(db.devices[i], devices[i]))
  {
    hide Plan, RowsOf;
    PlanParts(cfg, c, db, session, w);
    hide Chosen, Licensed, Challenged, WriteError;
    forall lid | lid != session.licenseId
      ensures RowsOf(db.devices, lid) == RowsOf(WriteDevice(cfg, c, db.devices, w), lid)
    {
      match w
      case Create(d) => RowsOfAppend(db.devices, d, lid);
      case Update(id) =>
        var i := UpdatedRow(cfg, c, db, session, id);
        RowsOfOther(db.devices, i, Refreshed(cfg, c, db.devices[i]), lid);
    }
  }
}
