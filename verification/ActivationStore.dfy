/**
 The store and the device service as they are written: a transaction object that reads and writes rows one
 statement at a time, and a caller that commits or rolls back. Run alone, it computes `AtomicVerify`.
 */
module ActivationStore {
  import opened Prelude
  import opened DeviceMatch
  import opened Activation
  import opened ActivationSafety

  /** The shared tables. */
  class Database {
    var licenses: map<nat, License>
    var sessions: map<nat, Session>
    var challenges: map<nat, Challenge>
    var devices: seq<Device>

    function Tables(): Db
      reads this
    {
      Db(licenses, sessions, challenges, devices)
    }

    constructor (tables: Db)
      ensures Tables() == tables
    {
      licenses, sessions, challenges, devices := tables.licenses, tables.sessions, tables.challenges, tables.devices;
    }
  }

  /** An open transaction on one session: the tables as it sees them, its own writes included. */
  class LockedChallenge {
    const cfg: Config
    const c: Call
    const session: Session
    const challenge: Challenge
    var view: Db

    constructor (cfg: Config, c: Call, tables: Db, session: Session, challenge: Challenge)
      ensures this.cfg == cfg && this.c == c && this.session == session && this.challenge == challenge && view == tables
    {
      this.cfg, this.c, this.session, this.challenge, view := cfg, c, session, challenge, tables;
    }

    method LockLicense() returns (r: Result<License, Error>)
      ensures r == if session.licenseId in view.licenses && view.licenses[session.licenseId].userId == session.userId
                   then Ok(view.licenses[session.licenseId]) else Err(LicenseNotFound)
    {
      if session.licenseId !in view.licenses || view.licenses[session.licenseId].userId != session.userId {
        return Err(LicenseNotFound);
      }
      return Ok(view.licenses[session.licenseId]);
    }

    method ListDevices() returns (listed: seq<Device>)
      ensures listed == Ordered(RowsOf(view.devices, session.licenseId), session.userId)
    {
      listed := Ordered(RowsOf(view.devices, session.licenseId), session.userId);
    }

    method CreateDevice() returns (r: Result<nat, Error>)
      modifies this
      ensures var w := Create(NewRow(cfg, c, session));
              match WriteError(RowsOf(old(view).devices, session.licenseId), session, w)
              case Some(e) => r == Err(e) && view == old(view)
              case None =>
                && r == Ok(c.freshId)
                && view == old(view).(devices := WriteDevice(cfg, c, old(view).devices, w))
    {
      var device := NewRow(cfg, c, session);
      var rows := RowsOf(view.devices, session.licenseId);
      for i := 0 to |rows|
        invariant forall j :: 0 <= j < i ==> rows[j].keySha != device.keySha
      {
        if rows[i].keySha == device.keySha {
          return Err(DuplicateDevice);
        }
      }
      view := view.(devices := view.devices + [device]);
      return Ok(device.id);
    }

    method UpdateDevice(id: nat) returns (r: Result<nat, Error>)
      modifies this
      ensures match WriteError(RowsOf(old(view).devices, session.licenseId), session, Update(id))
              case Some(e) => r == Err(e) && view == old(view)
              case None =>
                && r == Ok(id)
                && view == old(view).(devices := WriteDevice(cfg, c, old(view).devices, Update(id)))
    {
      var rows := RowsOf(view.devices, session.licenseId);
      var affected := false;
      for i := 0 to |rows|
        invariant affected <==> exists j :: 0 <= j < i && Updatable(rows[j], id, session)
      {
        if Updatable(rows[i], id, session) {
          affected := true;
        }
      }
      if !affected {
        return Err(DeviceNotFound);
      }
      view := view.(devices := WriteDevice(cfg, c, view.devices, Update(id)));
      return Ok(id);
    }

    method MarkSessionVerified() returns (r: Option<Error>)
      modifies this
      ensures var sid := c.request.sessionId;
              var sessions := old(view).sessions;
              if sid in sessions && sessions[sid].status == Pending
              then r == None && view == old(view).(sessions := sessions[sid := sessions[sid].(status := Verified)])
              else r == Some(SessionNotPending) && view == old(view)
    {
      var sid := c.request.sessionId;
      if sid !in view.sessions || view.sessions[sid].status != Pending {
        return Some(SessionNotPending);
      }
      view := view.(sessions := view.sessions[sid := view.sessions[sid].(status := Verified)]);
      return None;
    }

    /** The callback of the device service: its checks, the license lock, the device write, the session mark. */
    method Activate() returns (r: Result<nat, Error>)
      requires c.request.sessionId in view.sessions && view.sessions[c.request.sessionId] == session
      modifies this
      ensures match CallbackPlan(cfg, c, old(view), session, challenge)
              case Err(e) => r == Err(e)
              case Ok(w) =>
                var sid := c.request.sessionId;
                && r == Ok(WrittenId(w))
                && view == old(view).(devices := WriteDevice(cfg, c, old(view).devices, w),
                                      sessions := old(view).sessions[sid := session.(status := Verified)])
    {
      hide RowsOf, Ordered, WriteDevice, MatchDevice, WriteError;
      var refused := CheckChallenge(cfg, c, session, challenge);
      if refused.Some? {
        return Err(refused.value);
      }
      var license := LockLicense();
      if license.Err? {
        return Err(license.error);
      }
      refused := CheckLicense(cfg, c, license.value);
      if refused.Some? {
        return Err(refused.value);
      }
      var listed := ListDevices();
      var match' := MatchDeviceLoop(listed, PresentedBy(cfg, c));
      if match'.DeviceRevoked? {
        return Err(RevokedDevice);
      }
      if match'.matched.Some? {
        r := UpdateDevice(match'.matched.value.id);
      } else {
        if match'.activeCount >= license.value.maxDevices {
          return Err(LimitReached);
        }
        r := CreateDevice();
      }
      if r.Err? {
        return;
      }
      var marked := MarkSessionVerified();
      match marked {
        case None =>
        case Some(e) => return Err(e);
      }
    }
  }

  /** The plan of a verification whose session and challenge rows have been read. */
  function CallbackPlan(cfg: Config, c: Call, db: Db, session: Session, challenge: Challenge): Result<Write, Error> {
    match CheckChallenge(cfg, c, session, challenge)
    case Some(e) => Err(e)
    case None =>
      match Licensed(cfg, c, db, session)
      case Err(e) => Err(e)
      case Ok(license) => Chosen(cfg, c, db, session, license)
  }

  /** `WithLockedChallenge` around the callback: on any error nothing reaches the tables. */
  method WithLockedChallenge(db: Database, cfg: Config, c: Call) returns (r: Result<nat, Error>)
    modifies db
    ensures match AtomicVerify(cfg, c, old(db.Tables()))
            case Err(e) => r == Err(e) && db.Tables() == old(db.Tables())
            case Ok((tables, deviceId)) => r == Ok(deviceId) && db.Tables() == tables
  {
    hide RowsOf, Ordered, WriteDevice, Licensed, Chosen, CheckChallenge;
    var sid := c.request.sessionId;
    if sid !in db.sessions || sid !in db.challenges {
      return Err(ChallengeNotFound);
    }
    var session, challenge := db.sessions[sid], db.challenges[sid];
    if challenge.consumedAt.Some? {
      return Err(ChallengeConsumed);
    }
    var locked := new LockedChallenge(cfg, c, db.Tables(), session, challenge);
    r := locked.Activate();
    if r.Err? {
      return;
    }
    if locked.view.challenges[sid].consumedAt.Some? {
      return Err(ChallengeConsumed);
    }
    var challenges := locked.view.challenges[sid := locked.view.challenges[sid].(consumedAt := Some(c.startedAt))];
    db.sessions, db.challenges, db.devices := locked.view.sessions, challenges, locked.view.devices;
  }
}
