/** The safety of the activation protocol over every run of any number of interleaved verifications. */
module ActivationTheorems {
  import opened Prelude
  import opened DeviceMatch
  import opened Activation
  import opened ActivationSafety
  import opened ActivationProtocol
  import opened ActivationInvariant
  import opened ActivationSteps

  lemma {:induction false} RunKeepsInv(cfg: Config, s: State, actions: seq<Action>)
    requires ConfigOk(cfg) && Inv(cfg, s)
    ensures Inv(cfg, Run(cfg, s, actions))
    decreases |actions|
  {
    hide Inv, Apply;
    if actions != [] {
      ApplyKeepsInv(cfg, s, actions[0]);
      RunKeepsInv(cfg, Apply(cfg, s, actions[0]), actions[1..]);
    }
  }

  lemma Reachable(cfg: Config, actions: seq<Action>)
    requires ConfigOk(cfg)
    ensures Inv(cfg, Run(cfg, INIT, actions))
  {
    RunKeepsInv(cfg, INIT, actions);
  }

  /** In every run no license has more committed active devices than its limit. */
  lemma DeviceLimitHolds(cfg: Config, actions: seq<Action>, licenseId: nat)
    requires ConfigOk(cfg)
    requires licenseId in Run(cfg, INIT, actions).db.licenses
    ensures var db := Run(cfg, INIT, actions).db;
            LicenseActiveCount(db.devices, licenseId) <= db.licenses[licenseId].maxDevices
  {
    hide Run, TxsOk, LicenseActiveCount;
    Reachable(cfg, actions);
  }

  /** In every run a session is verified exactly when its challenge is consumed. */
  lemma VerifiedIffConsumed(cfg: Config, actions: seq<Action>, sid: nat)
    requires ConfigOk(cfg)
    requires sid in Run(cfg, INIT, actions).db.sessions
    ensures var db := Run(cfg, INIT, actions).db;
            && sid in db.challenges
            && (db.sessions[sid].status == Verified <==> db.challenges[sid].consumedAt.Some?)
  {
    hide Run, TxsOk;
    Reachable(cfg, actions);
  }

  /** In every run two verifications never obtain tokens for the same session. */
  lemma OneTokenPerSession(cfg: Config, actions: seq<Action>, t: nat, u: nat)
    requires ConfigOk(cfg)
    requires var s := Run(cfg, INIT, actions);
             && t in s.txs && u in s.txs && s.txs[t].phase.Issued? && s.txs[u].phase.Issued?
             && s.txs[t].phase.token.sessionId == s.txs[u].phase.token.sessionId
    ensures t == u
  {
    hide Run, DbInv, Done;
    Reachable(cfg, actions);
    var s := Run(cfg, INIT, actions);
    assert TxInv(cfg, s.db, s.locks, t, s.txs[t]) && TxInv(cfg, s.db, s.locks, u, s.txs[u]);
  }

  // ---- Serializability ----

  /** The moment a verification stops being undecided: it commits, or a statement of it fails. */
  ghost predicate Decides(cfg: Config, s: State, t: nat) {
    && t in s.txs
    && (s.txs[t].phase.Consumed? || Advance(cfg, s, t, s.txs[t]).Fail?)
  }

  ghost function Outcome(s: State, t: nat): Result<nat, Error>
    requires t in s.txs && (s.txs[t].phase.Committed? || s.txs[t].phase.Failed?)
  {
    match s.txs[t].phase
    case Committed(_, deviceId) => Ok(deviceId)
    case Failed(e) => Err(e)
  }

  lemma CommitIsAtomic(cfg: Config, s: State, t: nat)
    requires Inv(cfg, s) && t in s.txs && s.txs[t].phase.Consumed?
    ensures var s' := TakeStep(cfg, s, t);
            && s'.txs[t].phase.Committed?
            && AtomicVerify(cfg, s.txs[t].call, s.db) == Ok((s'.db, Outcome(s', t).value))
  {
    hide DbInv, Plan, Effects;
    assert TxInv(cfg, s.db, s.locks, t, s.txs[t]);
  }

  lemma FailureIsAtomic(cfg: Config, s: State, t: nat, tx: Tx)
    requires DbInv(cfg, s.db) && TxInv(cfg, s.db, s.locks, t, tx)
    requires Advance(cfg, s, t, tx).Fail?
    ensures AtomicVerify(cfg, tx.call, s.db) == Err(Advance(cfg, s, t, tx).error)
  {
    hide RowsOf, Ordered, Decide, WriteError, CheckChallenge, CheckLicense, DeviceRows, HoldsDevices, Effects,
         DevicesOk, LimitsOk;
    match tx.phase
    case HasChallenge(_, _) => CheckedChallenge(cfg, s, t, tx);
    case Wrote(_, _) => PendingWhilePlanned(cfg, s, t, tx);
    case Marked(_, _) => PendingWhilePlanned(cfg, s, t, tx);
    case _ =>
  }

  /** Between the device write and the commit the session row is still pending and its challenge unconsumed. */
  lemma PendingWhilePlanned(cfg: Config, s: State, t: nat, tx: Tx)
    requires Plan(cfg, tx.call, s.db).Ok?
    ensures tx.Sid() in s.db.sessions && s.db.sessions[tx.Sid()].status == Pending
    ensures tx.Sid() in s.db.challenges && s.db.challenges[tx.Sid()].consumedAt.None?
  {
    hide Licensed, Chosen;
  }

  lemma StepDecides(cfg: Config, s: State, t: nat)
    requires Inv(cfg, s) && t in s.txs
    ensures var s' := TakeStep(cfg, s, t);
            if Decides(cfg, s, t)
            then
              && (s'.txs[t].phase.Committed? || s'.txs[t].phase.Failed?)
              && AtomicVerify(cfg, s.txs[t].call, s.db)
                 == (match Outcome(s', t) case Ok(deviceId) => Ok((s'.db, deviceId)) case Err(e) => Err(e))
              && (Outcome(s', t).Err? ==> s'.db == s.db)
            else s'.db == s.db
  {
    assert TxInv(cfg, s.db, s.locks, t, s.txs[t]);
    hide DbInv, TxInv, AtomicVerify, TxsOk, LocksOk, IdsOk, OncePerSession;
    if s.txs[t].phase.Consumed? {
      CommitIsAtomic(cfg, s, t);
    } else if Advance(cfg, s, t, s.txs[t]).Fail? {
      FailureIsAtomic(cfg, s, t, s.txs[t]);
      GoIsActive(cfg, s, t, s.txs[t]);
    }
    hide Advance, Effects;
  }

  lemma CrashDropsWrites(cfg: Config, s: State, t: nat)
    ensures Apply(cfg, s, Crash(t)).db == s.db
  {
  }

  /**
   Every verification that commits or fails, in any interleaving, has exactly the outcome and the effect on
   the tables that the whole of it would have, run alone at the instant it decides. Every other step of a
   verification, a crash included, leaves the tables as they were.
   */
  lemma Serializable(cfg: Config, actions: seq<Action>, t: nat)
    requires ConfigOk(cfg)
    requires t in Run(cfg, INIT, actions).txs
    ensures var s := Run(cfg, INIT, actions);
            var s' := TakeStep(cfg, s, t);
            if Decides(cfg, s, t)
            then
              && (s'.txs[t].phase.Committed? || s'.txs[t].phase.Failed?)
              && AtomicVerify(cfg, s.txs[t].call, s.db)
                 == (match Outcome(s', t) case Ok(deviceId) => Ok((s'.db, deviceId)) case Err(e) => Err(e))
              && (Outcome(s', t).Err? ==> s'.db == s.db)
            else s'.db == s.db
    ensures Apply(cfg, Run(cfg, INIT, actions), Crash(t)).db == Run(cfg, INIT, actions).db
  {
    hide *;
    Reachable(cfg, actions);
    StepDecides(cfg, Run(cfg, INIT, actions), t);
    CrashDropsWrites(cfg, Run(cfg, INIT, actions), t);
  }

  /** The defensive errors of the store are dead: no run ever updates no row, or finds its session taken. */
  lemma DefensiveErrorsAreDead(cfg: Config, actions: seq<Action>, t: nat)
    requires ConfigOk(cfg)
    requires t in Run(cfg, INIT, actions).txs
    ensures var s := Run(cfg, INIT, actions);
            && Advance(cfg, s, t, s.txs[t]) != Fail(DeviceNotFound)
            && Advance(cfg, s, t, s.txs[t]) != Fail(SessionNotPending)
            && (s.txs[t].phase.Marked? ==> Advance(cfg, s, t, s.txs[t]).Go?)
  {
    var s := Run(cfg, INIT, actions);
    hide Run;
    Reachable(cfg, actions);
    assert TxInv(cfg, s.db, s.locks, t, s.txs[t]);
    DeadErrors(cfg, s, t, s.txs[t]);
  }

  lemma DeadErrors(cfg: Config, s: State, t: nat, tx: Tx)
    requires DbInv(cfg, s.db) && TxInv(cfg, s.db, s.locks, t, tx)
    ensures Advance(cfg, s, t, tx) != Fail(DeviceNotFound)
    ensures Advance(cfg, s, t, tx) != Fail(SessionNotPending)
    ensures tx.phase.Marked? ==> Advance(cfg, s, t, tx).Go?
  {
    hide RowsOf, Ordered, DeviceRows, HoldsDevices, MatchDevice, DbInv;
    match tx.phase
    case HasDevices(session, license, _) => UpdateNeverMisses(cfg, tx.call, s.db, session, license);
    case Wrote(_, _) => PendingWhilePlanned(cfg, s, t, tx);
    case Marked(_, _) => PendingWhilePlanned(cfg, s, t, tx);
    case _ =>
  }

  // ---- Tokens and keys ----

  lemma ApplyGrows(cfg: Config, s: State, a: Action)
    requires Inv(cfg, s)
    ensures Grows(s.db, Apply(cfg, s, a).db)
  {
    hide Inv, Grows, Apply;
    var other := if a.Step? || a.Crash? then a.t + 1 else 0;
    ActionRespects(cfg, s, a, other);
  }

  lemma {:induction false} RunGrows(cfg: Config, s: State, actions: seq<Action>)
    requires ConfigOk(cfg) && Inv(cfg, s)
    ensures Grows(s.db, Run(cfg, s, actions).db)
    decreases |actions|
  {
    if actions != [] {
      hide Inv, Apply;
      var s' := Apply(cfg, s, actions[0]);
      ApplyKeepsInv(cfg, s, actions[0]);
      ApplyGrows(cfg, s, actions[0]);
      RunGrows(cfg, s', actions[1..]);
      GrowsTransitive(s.db, s'.db, Run(cfg, s, actions).db);
    }
  }

  /**
   Every issued token names a device row that exists, now and at any later point of the run, and whose
   stored TPM key has the token's thumbprint, unless that key and the presented one collide under SHA-256.
   */
  lemma TokenBoundToStoredKey(cfg: Config, actions: seq<Action>, t: nat) returns (i: nat)
    requires ConfigOk(cfg)
    requires t in Run(cfg, INIT, actions).txs && Run(cfg, INIT, actions).txs[t].phase.Issued?
    ensures var s := Run(cfg, INIT, actions);
            var token, presented := s.txs[t].phase.token, s.txs[t].call.request.key;
            && i < |s.db.devices| && s.db.devices[i].id == token.deviceId
               && s.db.devices[i].licenseId == token.licenseId
            && cfg.sha(s.db.devices[i].key) == cfg.sha(presented)
            && (s.db.devices[i].key == presented ==> cfg.thumbprint(s.db.devices[i].key) == Some(token.thumbprint))
  {
    var s := Run(cfg, INIT, actions);
    hide Run;
    Reachable(cfg, actions);
    assert TxInv(cfg, s.db, s.locks, t, s.txs[t]);
    i := DoneIndex(cfg, s, t, s.txs[t]);
  }

  /** No stored key collides with the presented one under SHA-256. */
  ghost predicate NoCollisionWith(cfg: Config, db: Db, presented: seq<Byte>) {
    forall i :: 0 <= i < |db.devices| && cfg.sha(db.devices[i].key) == cfg.sha(presented)
        ==> db.devices[i].key == presented
  }

  /** With a collision-free hash, an issued token carries the thumbprint of the key its device row stores, for good. */
  lemma TokenCarriesStoredThumbprint(cfg: Config, actions: seq<Action>, t: nat)
    requires ConfigOk(cfg)
    requires t in Run(cfg, INIT, actions).txs && Run(cfg, INIT, actions).txs[t].phase.Issued?
    requires NoCollisionWith(cfg, Run(cfg, INIT, actions).db, Run(cfg, INIT, actions).txs[t].call.request.key)
    ensures var s := Run(cfg, INIT, actions);
            var token := s.txs[t].phase.token;
            exists i :: 0 <= i < |s.db.devices| && s.db.devices[i].id == token.deviceId
                        && cfg.thumbprint(s.db.devices[i].key) == Some(token.thumbprint)
  {
    hide Run;
    var i := TokenBoundToStoredKey(cfg, actions, t);
    assert Run(cfg, INIT, actions).db.devices[i].id == Run(cfg, INIT, actions).txs[t].phase.token.deviceId;
  }

  lemma DoneIndex(cfg: Config, s: State, t: nat, tx: Tx) returns (i: nat)
    requires DbInv(cfg, s.db) && TxInv(cfg, s.db, s.locks, t, tx) && tx.phase.Issued?
    ensures var token, presented := tx.phase.token, tx.call.request.key;
            && i < |s.db.devices| && s.db.devices[i].id == token.deviceId
               && s.db.devices[i].licenseId == token.licenseId
            && cfg.sha(s.db.devices[i].key) == cfg.sha(presented)
            && cfg.thumbprint(presented) == Some(token.thumbprint)
  {
    var token := tx.phase.token;
    i :| i < |s.db.devices| && DoneRow(cfg, s.db.devices[i], tx, token.licenseId, token.deviceId);
    assert RowOk(cfg, s.db.licenses, s.db.devices[i]);
  }

  /**
   Once a device row holding a key is revoked, then in every continuation of the run no verification that
   presents the key for that license commits, whatever hardware it presents and however far it already was.
   */
  lemma RevokedKeyNeverCommits(cfg: Config, before: seq<Action>, after: seq<Action>, i: nat, t: nat)
    requires ConfigOk(cfg)
    requires var s := Run(cfg, INIT, before);
             var s' := Run(cfg, s, after);
             && i < |s.db.devices| && s.db.devices[i].status == Revoked
             && t in s'.txs && s'.txs[t].phase.Consumed?
             && s'.txs[t].call.request.key == s.db.devices[i].key
    ensures var s := Run(cfg, INIT, before);
            Run(cfg, s, after).txs[t].phase.session.licenseId != s.db.devices[i].licenseId
  {
    var s := Run(cfg, INIT, before);
    var s' := Run(cfg, s, after);
    Reachable(cfg, before);
    RunKeepsInv(cfg, s, after);
    RunGrows(cfg, s, after);
    hide Run;
    RevokedBlocks(cfg, s.db, s', i, t);
  }

  lemma RevokedBlocks(cfg: Config, old': Db, s: State, i: nat, t: nat)
    requires ConfigOk(cfg) && Inv(cfg, s) && Grows(old', s.db) && DbInv(cfg, old')
    requires i < |old'.devices| && old'.devices[i].status == Revoked
    requires t in s.txs && s.txs[t].phase.Consumed? && s.txs[t].call.request.key == old'.devices[i].key
    ensures s.txs[t].phase.session.licenseId != old'.devices[i].licenseId
  {
    var tx, d := s.txs[t], s.db.devices[i];
    assert TxInv(cfg, s.db, s.locks, t, tx);
    KeyDigests(cfg, old', s.db, i);
    PlanParts(cfg, tx.call, s.db, tx.phase.session, tx.phase.write);
    hide DbInv, TxsOk, Plan, Chosen, Licensed, Challenged, WriteError, Effects;
    assert AtomicVerify(cfg, tx.call, s.db).Ok?;
    if tx.phase.session.licenseId == d.licenseId {
      RevokedKeyRefused(cfg, tx.call, s.db, tx.phase.session, d);
    }
  }

  lemma KeyDigests(cfg: Config, old': Db, db: Db, i: nat)
    requires DbInv(cfg, old') && Grows(old', db) && i < |old'.devices| && old'.devices[i].status == Revoked
    ensures var d := db.devices[i];
            && d in db.devices && d.status == Revoked && d.licenseId == old'.devices[i].licenseId
            && d.keySha == cfg.sha(old'.devices[i].key)
  {
    assert SameIdentity(old'.devices[i], db.devices[i]) && RowOk(cfg, old'.licenses, old'.devices[i]);
  }

  // ---- Progress ----

  ghost predicate Blocked(cfg: Config, s: State, t: nat) {
    InProgress(s, t) && !s.txs[t].phase.Consumed? && Advance(cfg, s, t, s.txs[t]).Wait?
  }

  lemma BlockedBy(cfg: Config, s: State, t: nat) returns (r: Row)
    requires Inv(cfg, s) && Blocked(cfg, s, t)
    ensures r in s.locks && s.locks[r] != t
    ensures r.SessionRow? ==> s.txs[t].phase.Begun? && r.sessionId == s.txs[t].Sid()
    ensures r.LicenseRow? ==> s.txs[t].phase.HasChallenge? && r.licenseId == s.txs[t].phase.session.licenseId
    ensures r.DeviceRow? ==>
              && s.txs[t].phase.HasLicense?
              && r in DeviceRows(RowsOf(s.db.devices, s.txs[t].phase.session.licenseId))
  {
    hide RowsOf, Ordered, DeviceRows, Decide, WriteError, CheckChallenge, CheckLicense, Inv;
    var tx := s.txs[t];
    match tx.phase
    case Begun => r := SessionRow(tx.Sid());
    case HasChallenge(session, _) => r := LicenseRow(session.licenseId);
    case HasLicense(session, _) =>
      r :| r in DeviceRows(RowsOf(s.db.devices, session.licenseId)) && !Free(s, r, t);
      DeviceRowsAreDevices(RowsOf(s.db.devices, session.licenseId), r);
  }

  lemma DeviceRowsAreDevices(rows: seq<Device>, r: Row)
    requires r in DeviceRows(rows)
    ensures r.DeviceRow? && exists i :: 0 <= i < |rows| && rows[i].id == r.deviceId
  {
  }

  /** How many of the three kinds of lock a phase has taken. */
  function Rank(p: Phase): nat {
    match p
    case HasChallenge(_, _) => 1
    case HasLicense(_, _) => 2
    case HasDevices(_, _, _) => 3
    case Wrote(_, _) => 3
    case Marked(_, _) => 3
    case Consumed(_, _) => 3
    case _ => 0
  }

  /** A lock is held for a reason: its holder has reached the phase that takes it, for its own rows. */
  ghost predicate Explains(db: Db, tx: Tx, r: Row) {
    match r
    case SessionRow(sid) => Rank(tx.phase) >= 1 && tx.Sid() == sid
    case LicenseRow(lid) => Rank(tx.phase) >= 2 && tx.phase.session.licenseId == lid
    case DeviceRow(did) =>
      && Rank(tx.phase) == 3
      && exists i :: 0 <= i < |db.devices| && db.devices[i].id == did
                     && db.devices[i].licenseId == tx.phase.session.licenseId
  }

  ghost predicate LocksExplained(s: State) {
    forall r :: r in s.locks ==> s.locks[r] in s.txs && Explains(s.db, s.txs[s.locks[r]], r)
  }

  lemma ExplainsGrows(a: Db, b: Db, tx: Tx, r: Row)
    requires Explains(a, tx, r) && Grows(a, b)
    ensures Explains(b, tx, r)
  {
    if r.DeviceRow? {
      var i :| 0 <= i < |a.devices| && a.devices[i].id == r.deviceId
          && a.devices[i].licenseId == tx.phase.session.licenseId;
      assert SameIdentity(a.devices[i], b.devices[i]);
    }
  }

  lemma GoExplains(cfg: Config, s: State, t: nat, tx: Tx, r: Row)
    requires Advance(cfg, s, t, tx).Go?
    ensures var m := Advance(cfg, s, t, tx);
            && (Explains(s.db, tx, r) ==> Explains(s.db, tx.(phase := m.phase), r))
            && (r in m.rows ==> Explains(s.db, tx.(phase := m.phase), r))
  {
    hide RowsOf, Ordered, DeviceRows, Decide, WriteError, CheckChallenge, CheckLicense;
    var m := Advance(cfg, s, t, tx);
    if tx.phase.HasLicense? && r in m.rows {
      var lid := tx.phase.session.licenseId;
      var rows := RowsOf(s.db.devices, lid);
      DeviceRowsAreDevices(rows, r);
      var k :| 0 <= k < |rows| && rows[k].id == r.deviceId;
      RowsOfMember(s.db.devices, lid, rows[k]);
      assert rows[k] in s.db.devices;
    }
  }

  lemma StepExplains(cfg: Config, s: State, t: nat)
    requires Inv(cfg, s) && LocksExplained(s) && t in s.txs
    ensures LocksExplained(TakeStep(cfg, s, t))
  {
    var s' := TakeStep(cfg, s, t);
    ApplyGrows(cfg, s, Step(t));
    StepFrame(cfg, s, t);
    forall r | r in s'.locks ensures s'.locks[r] in s'.txs && Explains(s'.db, s'.txs[s'.locks[r]], r) {
      LockAfterStep(cfg, s, t, r);
      hide TakeStep, Explains, Grows, Inv;
      if s'.locks[r] != t {
        ExplainsGrows(s.db, s'.db, s.txs[s'.locks[r]], r);
      }
    }
  }

  lemma LockAfterStep(cfg: Config, s: State, t: nat, r: Row)
    requires Inv(cfg, s) && LocksExplained(s) && t in s.txs
    requires r in TakeStep(cfg, s, t).locks
    ensures var s' := TakeStep(cfg, s, t);
            if s'.locks[r] == t then Explains(s'.db, s'.txs[t], r) else r in s.locks && s.locks[r] == s'.locks[r]
  {
    var tx := s.txs[t];
    hide Advance, Effects, Explains, Inv, DeviceRows;
    if tx.phase.Committed? {
      CommittedHoldsNothing(cfg, s, t, r);
    } else if !tx.phase.Consumed? && Advance(cfg, s, t, tx).Go? {
      GoExplains(cfg, s, t, tx, r);
    }
  }

  lemma CommittedHoldsNothing(cfg: Config, s: State, t: nat, r: Row)
    requires Inv(cfg, s) && t in s.txs && s.txs[t].phase.Committed?
    ensures !Holds(s.locks, t, r)
  {
    hide DbInv, TxsOk;
  }

  lemma ApplyExplains(cfg: Config, s: State, a: Action)
    requires Inv(cfg, s) && LocksExplained(s)
    ensures LocksExplained(Apply(cfg, s, a))
  {
    hide Inv, TakeStep, Explains, Administer;
    match a
    case Step(t) =>
      if t in s.txs {
        StepExplains(cfg, s, t);
      }
    case Begin(_, _, _, _) =>
    case Crash(_) =>
    case _ =>
      ApplyGrows(cfg, s, a);
      var s' := Apply(cfg, s, a);
      forall r | r in s'.locks ensures Explains(s'.db, s'.txs[s'.locks[r]], r) {
        ExplainsGrows(s.db, s'.db, s.txs[s.locks[r]], r);
      }
  }

  lemma {:induction false} RunExplains(cfg: Config, s: State, actions: seq<Action>)
    requires ConfigOk(cfg) && Inv(cfg, s) && LocksExplained(s)
    ensures LocksExplained(Run(cfg, s, actions))
    decreases |actions|
  {
    hide Inv, Apply, LocksExplained;
    if actions != [] {
      ApplyKeepsInv(cfg, s, actions[0]);
      ApplyExplains(cfg, s, actions[0]);
      RunExplains(cfg, Apply(cfg, s, actions[0]), actions[1..]);
    }
  }

  /** Past the listing a transaction still holds its license lock. */
  lemma RankHolds(cfg: Config, s: State, u: nat)
    requires Inv(cfg, s) && u in s.txs && Rank(s.txs[u].phase) >= 2
    ensures Holds(s.locks, u, LicenseRow(s.txs[u].phase.session.licenseId))
  {
    assert TxInv(cfg, s.db, s.locks, u, s.txs[u]);
    hide DbInv, TxsOk, HoldsDevices, Plan, Challenged, Licensed, RowsOf, Ordered;
  }

  lemma DeviceHolder(cfg: Config, s: State, r: Row, lid: nat)
    requires Inv(cfg, s) && LocksExplained(s) && r in s.locks && r in DeviceRows(RowsOf(s.db.devices, lid))
    ensures Rank(s.txs[s.locks[r]].phase) == 3 && s.txs[s.locks[r]].phase.session.licenseId == lid
  {
    hide TxsOk, LimitsOk, SessionsOk;
    var rows := RowsOf(s.db.devices, lid);
    DeviceRowsAreDevices(rows, r);
    var k :| 0 <= k < |rows| && rows[k].id == r.deviceId;
    RowsOfMember(s.db.devices, lid, rows[k]);
    hide RowsOf;
    assert Explains(s.db, s.txs[s.locks[r]], r);
  }

  /** A transaction that holds a license lock is never blocked: no one else can hold that license's devices. */
  lemma LicenseHolderMoves(cfg: Config, s: State, u: nat)
    requires Inv(cfg, s) && LocksExplained(s) && InProgress(s, u) && Rank(s.txs[u].phase) >= 2
    ensures !Blocked(cfg, s, u)
  {
    if Blocked(cfg, s, u) {
      var r := BlockedBy(cfg, s, u);
      hide Advance, DeviceRows, RowsOf, DbInv, TxsOk;
      DeviceHolder(cfg, s, r, s.txs[u].phase.session.licenseId);
      RankHolds(cfg, s, u);
      RankHolds(cfg, s, s.locks[r]);
      assert false;
    }
  }

  /** The rows whose locks the next statement takes. */
  function Needed(s: State, tx: Tx): set<Row> {
    match tx.phase
    case Begun => {SessionRow(tx.Sid())}
    case HasChallenge(session, _) => {LicenseRow(session.licenseId)}
    case HasLicense(session, _) => DeviceRows(RowsOf(s.db.devices, session.licenseId))
    case _ => {}
  }

  /** A statement waits for nothing but a needed row that another transaction holds. */
  lemma WaitsForNeeded(cfg: Config, s: State, t: nat)
    requires Inv(cfg, s) && Blocked(cfg, s, t)
    ensures exists r :: r in Needed(s, s.txs[t]) && r in s.locks && s.locks[r] != t
  {
    hide Advance, RowsOf, Inv, DeviceRows;
    var r := BlockedBy(cfg, s, t);
    assert r in Needed(s, s.txs[t]);
  }

  /** Whoever holds a row that a transaction needs is in progress and has taken strictly more kinds of lock. */
  lemma HolderIsAhead(cfg: Config, s: State, t: nat, r: Row)
    requires Inv(cfg, s) && LocksExplained(s) && t in s.txs
    requires r in Needed(s, s.txs[t]) && r in s.locks && s.locks[r] != t
    ensures InProgress(s, s.locks[r]) && Rank(s.txs[s.locks[r]].phase) > Rank(s.txs[t].phase)
  {
    hide TxsOk, RowsOf;
    if s.txs[t].phase.HasLicense? {
      DeviceRowsAreDevices(RowsOf(s.db.devices, s.txs[t].phase.session.licenseId), r);
    }
    assert Explains(s.db, s.txs[s.locks[r]], r);
  }

  lemma Explained(cfg: Config, actions: seq<Action>)
    requires ConfigOk(cfg)
    ensures Inv(cfg, Run(cfg, INIT, actions)) && LocksExplained(Run(cfg, INIT, actions))
  {
    Reachable(cfg, []);
    assert LocksExplained(INIT);
    hide Inv, Apply, LocksExplained;
    RunKeepsInv(cfg, INIT, actions);
    RunExplains(cfg, INIT, actions);
  }

  /**
   Lock waits never form a cycle: in every run, whenever a transaction needs a row that another one holds, the holder
   has taken strictly more kinds of lock, so along any chain of waits that number grows.
   */
  lemma WaitsAreOrdered(cfg: Config, actions: seq<Action>, s: State, t: nat, r: Row)
    requires ConfigOk(cfg) && s == Run(cfg, INIT, actions)
    requires t in s.txs && r in Needed(s, s.txs[t]) && r in s.locks && s.locks[r] != t
    ensures InProgress(s, s.locks[r]) && Rank(s.txs[s.locks[r]].phase) > Rank(s.txs[t].phase)
  {
    hide *;
    Explained(cfg, actions);
    HolderIsAhead(cfg, s, t, r);
  }

  lemma NextHolder(cfg: Config, s: State, t: nat) returns (u: nat)
    requires Inv(cfg, s) && LocksExplained(s) && Blocked(cfg, s, t)
    ensures InProgress(s, u) && Rank(s.txs[u].phase) > Rank(s.txs[t].phase)
  {
    hide Inv, LocksExplained, Needed, Rank;
    WaitsForNeeded(cfg, s, t);
    var r :| r in Needed(s, s.txs[t]) && r in s.locks && s.locks[r] != t;
    HolderIsAhead(cfg, s, t, r);
    u := s.locks[r];
  }

  /** No deadlock: whenever a verification is in progress, some verification in progress can take its next step. */
  lemma NoDeadlock(cfg: Config, actions: seq<Action>, t: nat) returns (u: nat)
    requires ConfigOk(cfg)
    requires InProgress(Run(cfg, INIT, actions), t)
    ensures InProgress(Run(cfg, INIT, actions), u) && !Blocked(cfg, Run(cfg, INIT, actions), u)
  {
    var s := Run(cfg, INIT, actions);
    Explained(cfg, actions);
    hide Run, Advance;
    hide Inv, LocksExplained, Blocked;
    u := t;
    if Blocked(cfg, s, u) {
      u := NextHolder(cfg, s, u);
      if Blocked(cfg, s, u) {
        u := NextHolder(cfg, s, u);
        LicenseHolderMoves(cfg, s, u);
      }
    }
  }
}
