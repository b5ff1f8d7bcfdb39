/**
 Any number of verifications, logins and administrative changes interleaved over one database.
 A verification is a transaction: a program counter, row locks held to its end, and private writes that
 reach the tables only at commit. An error or a crash releases the locks and drops the writes.
 PostgreSQL is assumed to give exclusive row locks, read-committed visibility and atomic commit.
 */
module ActivationProtocol {
  import opened Prelude
  import opened DeviceMatch
  import opened Activation

  /** A lockable row; a session and its challenge are locked together. */
  datatype Row = SessionRow(sessionId: nat) | LicenseRow(licenseId: nat) | DeviceRow(deviceId: nat)

  datatype Token = Token(sessionId: nat, userId: nat, licenseId: nat, deviceId: nat, thumbprint: string)

  /** How far a verification has come, with the copies of rows it has read and the write it has pending. */
  datatype Phase =
    | Begun
    | HasChallenge(session: Session, challenge: Challenge)
    | HasLicense(session: Session, license: License)
    | HasDevices(session: Session, license: License, listed: seq<Device>)
    | Wrote(session: Session, write: Write)
    | Marked(session: Session, write: Write)
    | Consumed(session: Session, write: Write)
    | Committed(session: Session, deviceId: nat)
    | Issued(token: Token)
    | Failed(error: Error)
    | Crashed

  datatype Tx = Tx(call: Call, phase: Phase) {
    function Sid(): nat { call.request.sessionId }
  }

  datatype State = State(db: Db, locks: map<Row, nat>, txs: map<nat, Tx>)

  datatype Action =
    | Begin(t: nat, request: Request, now: int, startedAt: int)
    | Step(t: nat)
    | Crash(t: nat)
    | Login(sessionId: nat, userId: nat, licenseId: nat, sha: seq<Byte>, expiresAt: int)
    | AddLicense(licenseId: nat, license: License)
    | ChangeLicense(licenseId: nat, status: LicenseStatus, maxDevices: int, expiresAt: int)
    | RevokeDevice(deviceId: nat)
    | ExpireSession(sessionId: nat)

  // ---- Locks ----

  predicate Free(s: State, r: Row, t: nat) {
    r in s.locks ==> s.locks[r] == t
  }

  predicate Unlocked(s: State, r: Row) {
    r !in s.locks
  }

  function Acquire(locks: map<Row, nat>, rows: set<Row>, t: nat): map<Row, nat> {
    locks + map r | r in rows :: t
  }

  function Release(locks: map<Row, nat>, t: nat): map<Row, nat> {
    map r | r in locks && locks[r] != t :: locks[r]
  }

  function DeviceRows(rows: seq<Device>): set<Row> {
    set i | 0 <= i < |rows| :: DeviceRow(rows[i].id)
  }

  // ---- One statement of a verification ----

  /** A statement waits for a lock, succeeds into the next phase with new locks, or fails. */
  datatype Move = Wait | Go(phase: Phase, rows: set<Row>) | Fail(error: Error)

  function Advance(cfg: Config, s: State, t: nat, tx: Tx): Move {
    var c, sid := tx.call, tx.Sid();
    match tx.phase
    case Begun =>
      // Lock the session and its challenge.
      if sid !in s.db.sessions || sid !in s.db.challenges then Fail(ChallengeNotFound)
      else if !Free(s, SessionRow(sid), t) then Wait
      else if s.db.challenges[sid].consumedAt.Some? then Fail(ChallengeConsumed)
      else Go(HasChallenge(s.db.sessions[sid], s.db.challenges[sid]), {SessionRow(sid)})
    case HasChallenge(session, challenge) =>
      // Check the challenge and signature, then lock the license.
      (match CheckChallenge(cfg, c, session, challenge)
       case Some(e) => Fail(e)
       case None =>
         if session.licenseId !in s.db.licenses || s.db.licenses[session.licenseId].userId != session.userId
             then Fail(LicenseNotFound)
         else if !Free(s, LicenseRow(session.licenseId), t) then Wait
         else Go(HasLicense(session, s.db.licenses[session.licenseId]), {LicenseRow(session.licenseId)}))
    case HasLicense(session, license) =>
      // Check the license, then lock and list its devices.
      (match CheckLicense(cfg, c, license)
       case Some(e) => Fail(e)
       case None =>
         var rows := RowsOf(s.db.devices, session.licenseId);
         if exists r :: r in DeviceRows(rows) && !Free(s, r, t) then Wait
         else Go(HasDevices(session, license, Ordered(rows, session.userId)), DeviceRows(rows)))
    case HasDevices(session, license, listed) =>
      // Match the devices, then update or insert one.
      (match Decide(cfg, c, session, license, listed)
       case Err(e) => Fail(e)
       case Ok(w) =>
         match WriteError(RowsOf(s.db.devices, session.licenseId), session, w)
         case Some(e) => Fail(e)
         case None => Go(Wrote(session, w), {}))
    case Wrote(session, w) =>
      // Mark the session verified.
      if sid in s.db.sessions && s.db.sessions[sid].status == Pending then Go(Marked(session, w), {})
      else Fail(SessionNotPending)
    case Marked(session, w) =>
      // Consume the challenge.
      if sid in s.db.challenges && s.db.challenges[sid].consumedAt.None? then Go(Consumed(session, w), {})
      else Fail(ChallengeConsumed)
    case _ => Wait
  }

  function IssueToken(cfg: Config, tx: Tx, session: Session, deviceId: nat): Token {
    Token(tx.Sid(), session.userId, session.licenseId, deviceId,
          match cfg.thumbprint(tx.call.request.key) case Some(p) => p case None => "")
  }

  function TakeStep(cfg: Config, s: State, t: nat): State
    requires t in s.txs
  {
    var tx := s.txs[t];
    match tx.phase
    case Consumed(session, w) =>
      State(Effects(cfg, tx.call, s.db, session, w), Release(s.locks, t),
            s.txs[t := tx.(phase := Committed(session, WrittenId(w)))])
    case Committed(session, deviceId) =>
      s.(txs := s.txs[t := tx.(phase := Issued(IssueToken(cfg, tx, session, deviceId)))])
    case _ =>
      match Advance(cfg, s, t, tx)
      case Wait => s
      case Go(phase, rows) => State(s.db, Acquire(s.locks, rows, t), s.txs[t := tx.(phase := phase)])
      case Fail(e) => State(s.db, Release(s.locks, t), s.txs[t := tx.(phase := Failed(e))])
  }

  predicate Admissible(cfg: Config, r: Request) {
    cfg.thumbprint(r.key).Some? && r.hardware.fingerprint != ""
  }

  predicate Finished(p: Phase) {
    p.Issued? || p.Failed? || p.Crashed?
  }

  predicate HasCommitted(p: Phase) {
    p.Committed? || p.Issued?
  }

  /** One action of the system; an action whose guard is false or whose lock is taken changes nothing. */
  function Apply(cfg: Config, s: State, a: Action): State {
    match a
    case Begin(t, request, now, startedAt) =>
      if t in s.txs || !Admissible(cfg, request) then s
      else s.(txs := s.txs[t := Tx(Call(request, now, startedAt, t), Begun)])
    case Step(t) => if t in s.txs then TakeStep(cfg, s, t) else s
    case Crash(t) =>
      if t !in s.txs || Finished(s.txs[t].phase) || HasCommitted(s.txs[t].phase) then s
      else State(s.db, Release(s.locks, t), s.txs[t := s.txs[t].(phase := Crashed)])
    case _ => s.(db := Administer(s, a))
  }

  /** The single-statement transactions: logins and administration. */
  function Administer(s: State, a: Action): Db {
    var db := s.db;
    match a
    case Login(sid, userId, lid, sha, expiresAt) =>
      if sid in db.sessions || sid in db.challenges || lid !in db.licenses || db.licenses[lid].userId != userId then db
      else db.(sessions := db.sessions[sid := Session(userId, lid, Pending, expiresAt)],
               challenges := db.challenges[sid := Challenge(sha, expiresAt, None)])
    case AddLicense(lid, license) =>
      if lid in db.licenses || license.maxDevices <= 0 then db
      else db.(licenses := db.licenses[lid := license])
    case ChangeLicense(lid, status, maxDevices, expiresAt) =>
      if lid !in db.licenses || !Unlocked(s, LicenseRow(lid)) || maxDevices < db.licenses[lid].maxDevices then db
      else
        var changed := db.licenses[lid].(status := status, maxDevices := maxDevices, expiresAt := expiresAt);
        db.(licenses := db.licenses[lid := changed])
    case RevokeDevice(did) =>
      var i := RowIndex(db.devices, did);
      if i == |db.devices| || !Unlocked(s, DeviceRow(did)) then db
      else db.(devices := db.devices[i := db.devices[i].(status := Revoked)])
    case ExpireSession(sid) =>
      if sid !in db.sessions || !Unlocked(s, SessionRow(sid)) || db.sessions[sid].status != Pending then db
      else db.(sessions := db.sessions[sid := db.sessions[sid].(status := Expired)])
    case _ => db
  }

  const INIT := State(Db(map[], map[], map[], []), map[], map[])

  /** A run from `s`. */
  function Run(cfg: Config, s: State, actions: seq<Action>): State
    decreases |actions|
  {
    if actions == [] then s else Run(cfg, Apply(cfg, s, actions[0]), actions[1..])
  }
}
