/** Every action keeps the protocol invariant. */
module ActivationSteps {
  import opened Prelude
  import opened DeviceMatch
  import opened Activation
  import opened ActivationSafety
  import opened ActivationProtocol
  import opened ActivationInvariant

  // ---- Transactions other than the one that acts ----

  /** From `t`'s side an action leaves alone whatever `t` has locked. */
  ghost predicate Respects(s: State, s': State, t: nat) {
    && (forall r :: Holds(s.locks, t, r) ==> Holds(s'.locks, t, r))
    && (forall sid :: Holds(s.locks, t, SessionRow(sid)) && sid in s.db.sessions && sid in s.db.challenges
                      ==> AgreeSession(s.db, s'.db, sid))
    && (forall lid :: Holds(s.locks, t, LicenseRow(lid)) && lid in s.db.licenses ==> AgreeLicense(s.db, s'.db, lid))
    && (forall lid :: Holds(s.locks, t, LicenseRow(lid)) && HoldsDevices(s.db, s.locks, t, lid)
                      ==> AgreeDevices(s.db, s'.db, lid))
    && Grows(s.db, s'.db)
  }

  lemma DevicesStayHeld(s: State, s': State, t: nat, lid: nat)
    requires Respects(s, s', t) && Holds(s.locks, t, LicenseRow(lid)) && HoldsDevices(s.db, s.locks, t, lid)
    ensures HoldsDevices(s'.db, s'.locks, t, lid)
  {
    forall i | 0 <= i < |s'.db.devices| && s'.db.devices[i].licenseId == lid
      ensures Holds(s'.locks, t, DeviceRow(s'.db.devices[i].id))
    {
      var d := s'.db.devices[i];
      RowsOfMember(s'.db.devices, lid, d);
      RowsOfMember(s.db.devices, lid, d);
      var j :| 0 <= j < |s.db.devices| && s.db.devices[j] == d;
      assert Holds(s.locks, t, DeviceRow(s.db.devices[j].id));
    }
  }

  lemma PlanAgrees(cfg: Config, c: Call, a: Db, b: Db, session: Session, w: Write)
    requires Planned(cfg, c, a, session, w)
    requires AgreeSession(a, b, c.request.sessionId) && AgreeLicense(a, b, session.licenseId)
          && AgreeDevices(a, b, session.licenseId)
    ensures Planned(cfg, c, b, session, w)
  {
    hide RowsOf, Ordered, Decide, WriteError, CheckChallenge, CheckLicense;
  }

  /** What a transaction knows stays true while others act. */
  lemma OthersKept(cfg: Config, s: State, s': State, t: nat, tx: Tx)
    requires TxInv(cfg, s.db, s.locks, t, tx) && Respects(s, s', t)
    ensures TxInv(cfg, s'.db, s'.locks, t, tx)
  {
    hide RowsOf, Ordered, Decide, WriteError, CheckChallenge, CheckLicense, HoldsDevices, Done, Plan;
    match tx.phase
    case HasDevices(session, _, _) => DevicesStayHeld(s, s', t, session.licenseId);
    case Wrote(session, w) => PlanKept(cfg, s, s', t, tx, session, w);
    case Marked(session, w) => PlanKept(cfg, s, s', t, tx, session, w);
    case Consumed(session, w) => PlanKept(cfg, s, s', t, tx, session, w);
    case Committed(session, did) => DoneSurvives(cfg, s.db, s'.db, tx, session.licenseId, did);
    case Issued(token) => DoneSurvives(cfg, s.db, s'.db, tx, token.licenseId, token.deviceId);
    case _ =>
  }

  lemma PlanKept(cfg: Config, s: State, s': State, t: nat, tx: Tx, session: Session, w: Write)
    requires HoldsAll(s.db, s.locks, t, tx, session.licenseId) && Planned(cfg, tx.call, s.db, session, w)
    requires Respects(s, s', t)
    ensures HoldsAll(s'.db, s'.locks, t, tx, session.licenseId) && Planned(cfg, tx.call, s'.db, session, w)
  {
    hide Plan, Grows, HoldsDevices;
    PlanParts(cfg, tx.call, s.db, session, w);
    DevicesStayHeld(s, s', t, session.licenseId);
    PlanAgrees(cfg, tx.call, s.db, s'.db, session, w);
  }

  // ---- Every action respects the locks of the others ----

  lemma GoRowsAreFree(cfg: Config, s: State, t: nat, tx: Tx, r: Row)
    requires Advance(cfg, s, t, tx).Go? && r in Advance(cfg, s, t, tx).rows
    ensures Free(s, r, t)
  {
    hide RowsOf, Ordered, Decide, WriteError, CheckChallenge, CheckLicense, DeviceRows;
  }

  lemma QuietStepRespects(cfg: Config, s: State, u: nat, t: nat)
    requires u in s.txs && t != u && !s.txs[u].phase.Consumed?
    ensures TakeStep(cfg, s, u).db == s.db
    ensures Respects(s, TakeStep(cfg, s, u), t)
  {
    hide Advance, RowsOf;
    var move := Advance(cfg, s, u, s.txs[u]);
    if move.Go? {
      forall r | r in move.rows ensures Free(s, r, u) {
        GoRowsAreFree(cfg, s, u, s.txs[u], r);
      }
    }
  }

  lemma CommitRespects(cfg: Config, s: State, u: nat, t: nat)
    requires Inv(cfg, s) && u in s.txs && t != u && s.txs[u].phase.Consumed?
    ensures Respects(s, TakeStep(cfg, s, u), t)
  {
    hide Plan, Effects, RowsOf, HoldsDevices, Advance, DbInv, Grows;
    var tx := s.txs[u];
    assert TxInv(cfg, s.db, s.locks, u, tx);
    CommitAgrees(cfg, tx.call, s.db, tx.phase.session, tx.phase.write);
  }

  lemma StepRespects(cfg: Config, s: State, u: nat, t: nat)
    requires Inv(cfg, s) && u in s.txs && t != u
    ensures Respects(s, TakeStep(cfg, s, u), t)
  {
    hide Inv, Respects, TakeStep;
    if s.txs[u].phase.Consumed? {
      CommitRespects(cfg, s, u, t);
    } else {
      QuietStepRespects(cfg, s, u, t);
    }
  }

  lemma RevokeRespects(s: State, did: nat, t: nat)
    ensures Respects(s, s.(db := Administer(s, RevokeDevice(did))), t)
  {
    hide RowsOf;
    var i := RowIndex(s.db.devices, did);
    if i < |s.db.devices| && Unlocked(s, DeviceRow(did)) {
      forall lid | Holds(s.locks, t, LicenseRow(lid)) && HoldsDevices(s.db, s.locks, t, lid)
        ensures AgreeDevices(s.db, Administer(s, RevokeDevice(did)), lid)
      {
        RowsOfOther(s.db.devices, i, s.db.devices[i].(status := Revoked), lid);
      }
    }
  }

  lemma AdministerRespects(cfg: Config, s: State, a: Action, t: nat)
    ensures Respects(s, s.(db := Administer(s, a)), t)
  {
    hide RowsOf;
    match a
    case RevokeDevice(did) => RevokeRespects(s, did, t);
    case _ =>
  }

  lemma ActionRespects(cfg: Config, s: State, a: Action, t: nat)
    requires Inv(cfg, s)
    requires a.Step? || a.Crash? ==> a.t != t
    ensures Respects(s, Apply(cfg, s, a), t)
  {
    hide Inv, Respects, TakeStep, Administer;
    match a
    case Step(u) =>
      if u in s.txs {
        StepRespects(cfg, s, u, t);
      } else {
        StillRespects(s, s, t);
      }
    case Crash(u) => StillRespects(s, Apply(cfg, s, a), t);
    case Begin(u, _, _, _) => StillRespects(s, Apply(cfg, s, a), t);
    case _ => AdministerRespects(cfg, s, a, t);
  }

  lemma StillRespects(s: State, s': State, t: nat)
    requires s'.db == s.db && forall r :: Holds(s.locks, t, r) ==> Holds(s'.locks, t, r)
    ensures Respects(s, s', t)
  {
  }

  // ---- The transaction that acts ----

  lemma CheckedChallenge(cfg: Config, s: State, t: nat, tx: Tx)
    requires TxInv(cfg, s.db, s.locks, t, tx) && tx.phase.HasChallenge?
    ensures Challenged(cfg, tx.call, s.db)
            == match CheckChallenge(cfg, tx.call, tx.phase.session, tx.phase.challenge)
               case Some(e) => Err(e)
               case None => Ok(tx.phase.session)
  {
    hide CheckChallenge;
  }

  /** The statement that lists the devices takes the lock of every row of the license. */
  lemma ListingLocks(s: State, t: nat, lid: nat)
    ensures HoldsDevices(s.db, Acquire(s.locks, DeviceRows(RowsOf(s.db.devices, lid)), t), t, lid)
  {
    forall i | 0 <= i < |s.db.devices| && s.db.devices[i].licenseId == lid
      ensures DeviceRow(s.db.devices[i].id) in DeviceRows(RowsOf(s.db.devices, lid))
    {
      var d := s.db.devices[i];
      RowsOfMember(s.db.devices, lid, d);
      var rows := RowsOf(s.db.devices, lid);
      var k :| 0 <= k < |rows| && rows[k] == d;
      assert DeviceRow(rows[k].id) in DeviceRows(rows);
    }
  }

  /** A statement that succeeds leaves its transaction with the knowledge of the next phase. */
  lemma GoKeepsKnowledge(cfg: Config, s: State, t: nat, tx: Tx)
    requires TxInv(cfg, s.db, s.locks, t, tx) && Advance(cfg, s, t, tx).Go?
    ensures var m := Advance(cfg, s, t, tx);
            TxInv(cfg, s.db, Acquire(s.locks, m.rows, t), t, tx.(phase := m.phase))
  {
    hide RowsOf, Ordered, Decide, WriteError, CheckChallenge, CheckLicense, DeviceRows, HoldsDevices;
    match tx.phase
    case HasChallenge(session, challenge) => CheckedChallenge(cfg, s, t, tx);
    case HasLicense(session, license) => ListingLocks(s, t, session.licenseId);
    case HasDevices(session, license, listed) =>
      assert Acquire(s.locks, {}, t) == s.locks;
    case Wrote(_, _) => assert Acquire(s.locks, {}, t) == s.locks;
    case Marked(_, _) => assert Acquire(s.locks, {}, t) == s.locks;
    case _ =>
  }

  lemma WrittenRow(cfg: Config, c: Call, db: Db, session: Session, w: Write) returns (i: nat)
    requires ConfigOk(cfg) && DbInv(cfg, db) && Fresh(c, db) && Planned(cfg, c, db, session, w)
    ensures var devices := WriteDevice(cfg, c, db.devices, w);
            && i < |devices| && devices[i].id == WrittenId(w)
            && devices[i].licenseId == session.licenseId && devices[i].keySha == cfg.sha(c.request.key)
  {
    hide Plan;
    PlanParts(cfg, c, db, session, w);
    hide Challenged, Licensed, Chosen, RowsOf, WriteError;
    match w
    case Create(d) => i := |db.devices|;
    case Update(id) =>
      i := UpdatedRow(cfg, c, db, session, id);
      var d := Refreshed(cfg, c, db.devices[i]);
      assert AtomicVerify(cfg, c, db) == Ok((Effects(cfg, c, db, session, w), id));
      assert WriteDevice(cfg, c, db.devices, w)[i] == d;
      CommittedRowHasKey(cfg, c, db, d);
  }

  /** A commit leaves its transaction with a consumed challenge and a row carrying its key. */
  lemma CommitIsDone(cfg: Config, s: State, t: nat, tx: Tx)
    requires ConfigOk(cfg) && DbInv(cfg, s.db) && Fresh(tx.call, s.db)
    requires TxInv(cfg, s.db, s.locks, t, tx) && tx.phase.Consumed?
    ensures Done(cfg, Effects(cfg, tx.call, s.db, tx.phase.session, tx.phase.write), tx,
                 tx.phase.session.licenseId, WrittenId(tx.phase.write))
  {
    var session, w := tx.phase.session, tx.phase.write;
    var i := WrittenRow(cfg, tx.call, s.db, session, w);
    assert Challenged(cfg, tx.call, s.db) == Ok(session);
    assert DoneRow(cfg, WriteDevice(cfg, tx.call, s.db.devices, w)[i], tx, session.licenseId, WrittenId(w));
  }

  // ---- The parts of the invariant ----

  lemma FreshCall(cfg: Config, s: State, t: nat)
    requires Inv(cfg, s) && t in s.txs && !HasCommitted(s.txs[t].phase)
    ensures Fresh(s.txs[t].call, s.db)
  {
    hide DbInv, TxInv;
  }

  lemma ActorIssues(cfg: Config, s: State, t: nat, tx: Tx)
    requires t in s.txs && s.txs[t] == tx && tx.phase.Committed?
    requires TxInv(cfg, s.db, s.locks, t, tx) && Admissible(cfg, tx.call.request)
    ensures var s' := TakeStep(cfg, s, t); TxInv(cfg, s'.db, s'.locks, t, s'.txs[t])
  {
    var i :| 0 <= i < |s.db.devices|
             && DoneRow(cfg, s.db.devices[i], tx, tx.phase.session.licenseId, tx.phase.deviceId);
    assert DoneRow(cfg, s.db.devices[i], TakeStep(cfg, s, t).txs[t], tx.phase.session.licenseId, tx.phase.deviceId);
  }

  lemma ActorMoves(cfg: Config, s: State, t: nat, tx: Tx)
    requires t in s.txs && s.txs[t] == tx && !tx.phase.Consumed? && !tx.phase.Committed?
    requires TxInv(cfg, s.db, s.locks, t, tx)
    ensures var s' := TakeStep(cfg, s, t); TxInv(cfg, s'.db, s'.locks, t, s'.txs[t])
  {
    if Advance(cfg, s, t, tx).Go? {
      GoKeepsKnowledge(cfg, s, t, tx);
    }
    hide Advance, TxInv;
    if Advance(cfg, s, t, tx).Fail? {
      FailedKnowsNothing(cfg, s, t, tx, Advance(cfg, s, t, tx).error);
    }
  }

  lemma FailedKnowsNothing(cfg: Config, s: State, t: nat, tx: Tx, e: Error)
    ensures TxInv(cfg, s.db, Release(s.locks, t), t, tx.(phase := Failed(e)))
  {
  }

  lemma ActorKept(cfg: Config, s: State, t: nat)
    requires ConfigOk(cfg) && Inv(cfg, s) && t in s.txs
    ensures var s' := TakeStep(cfg, s, t); TxInv(cfg, s'.db, s'.locks, t, s'.txs[t])
  {
    var tx := s.txs[t];
    if tx.phase.Consumed? {
      FreshCall(cfg, s, t);
      CommitIsDone(cfg, s, t, tx);
    } else if tx.phase.Committed? {
      ActorIssues(cfg, s, t, tx);
    } else {
      ActorMoves(cfg, s, t, tx);
    }
  }

  lemma StepKeepsTxs(cfg: Config, s: State, t: nat)
    requires ConfigOk(cfg) && Inv(cfg, s) && t in s.txs
    ensures TxsOk(cfg, TakeStep(cfg, s, t))
  {
    var s' := TakeStep(cfg, s, t);
    ActorKept(cfg, s, t);
    StepFrame(cfg, s, t);
    hide TakeStep;
    forall u | u in s'.txs
      ensures TxInv(cfg, s'.db, s'.locks, u, s'.txs[u])
              && s'.txs[u].call.freshId == u && Admissible(cfg, s'.txs[u].call.request)
    {
      if u != t {
        StepRespects(cfg, s, t, u);
        OthersKept(cfg, s, s', u, s.txs[u]);
      }
    }
  }

  /** A step rewrites only its own transaction, and of that only the phase. */
  lemma StepFrame(cfg: Config, s: State, t: nat)
    requires t in s.txs
    ensures var s' := TakeStep(cfg, s, t);
            && s'.txs.Keys == s.txs.Keys
            && (forall u :: u in s.txs ==> s'.txs[u].call == s.txs[u].call)
            && (forall u :: u in s.txs && u != t ==> s'.txs[u] == s.txs[u])
            && (HasCommitted(s.txs[t].phase) ==> HasCommitted(s'.txs[t].phase))
            && (Finished(s.txs[t].phase) ==> s' == s)
  {
    hide Advance, Effects;
    GoIsActive(cfg, s, t, s.txs[t]);
  }

  lemma GoIsActive(cfg: Config, s: State, t: nat, tx: Tx)
    ensures var m := Advance(cfg, s, t, tx);
            && (m.Go? ==> !Finished(m.phase) && !HasCommitted(m.phase))
            && (!m.Wait? ==> !Finished(tx.phase) && !HasCommitted(tx.phase))
  {
    hide RowsOf, Ordered, Decide, WriteError, CheckChallenge, CheckLicense, DeviceRows;
  }

  lemma StepKeepsLocks(cfg: Config, s: State, t: nat)
    requires LocksOk(s) && t in s.txs
    ensures LocksOk(TakeStep(cfg, s, t))
  {
    hide Advance, Effects;
    GoIsActive(cfg, s, t, s.txs[t]);
  }

  lemma CommitKeepsTables(cfg: Config, s: State, t: nat)
    requires Inv(cfg, s) && t in s.txs && s.txs[t].phase.Consumed?
    ensures DbInv(cfg, TakeStep(cfg, s, t).db)
  {
    hide DbInv, Plan, Effects, Fresh;
    FreshCall(cfg, s, t);
    VerifyKeepsInvariant(cfg, s.txs[t].call, s.db);
    assert TxInv(cfg, s.db, s.locks, t, s.txs[t]);
  }

  lemma WrittenIds(cfg: Config, c: Call, devices: seq<Device>, w: Write, i: nat)
    requires i < |WriteDevice(cfg, c, devices, w)|
    ensures var id := WriteDevice(cfg, c, devices, w)[i].id;
            (i < |devices| && id == devices[i].id) || (i == |devices| && w.Create? && id == w.device.id)
  {
  }

  /** The identifier of a row after a commit: an old one, or that of the committing transaction. */
  lemma CommittedRowId(cfg: Config, s: State, t: nat, i: nat)
    requires Inv(cfg, s) && t in s.txs && s.txs[t].phase.Consumed?
    requires i < |WriteDevice(cfg, s.txs[t].call, s.db.devices, s.txs[t].phase.write)|
    ensures var id := WriteDevice(cfg, s.txs[t].call, s.db.devices, s.txs[t].phase.write)[i].id;
            id == t || (i < |s.db.devices| && id == s.db.devices[i].id)
  {
    var tx := s.txs[t];
    assert TxInv(cfg, s.db, s.locks, t, tx) && tx.call.freshId == t;
    hide DbInv, Plan;
    PlanParts(cfg, tx.call, s.db, tx.phase.session, tx.phase.write);
    hide TxInv, Chosen, Challenged, Licensed, WriteError, WriteDevice, TxsOk, LocksOk, IdsOk, OncePerSession;
    WrittenIds(cfg, tx.call, s.db.devices, tx.phase.write, i);
  }

  lemma CommitKeepsIds(cfg: Config, s: State, t: nat)
    requires Inv(cfg, s) && t in s.txs && s.txs[t].phase.Consumed?
    ensures IdsOk(TakeStep(cfg, s, t))
  {
    var devices := WriteDevice(cfg, s.txs[t].call, s.db.devices, s.txs[t].phase.write);
    hide WriteDevice, TxsOk, LocksOk, OncePerSession, DbInv, Release, Advance;
    forall i | 0 <= i < |devices|
      ensures devices[i].id in s.txs && (devices[i].id == t || HasCommitted(s.txs[devices[i].id].phase))
    {
      CommittedRowId(cfg, s, t, i);
    }
  }

  lemma CommitIsFirst(cfg: Config, s: State, t: nat)
    requires Inv(cfg, s) && t in s.txs && s.txs[t].phase.Consumed?
    ensures OncePerSession(TakeStep(cfg, s, t))
  {
    forall u | u in s.txs && HasCommitted(s.txs[u].phase) ensures s.txs[u].Sid() != s.txs[t].Sid() {
      assert TxInv(cfg, s.db, s.locks, u, s.txs[u]) && TxInv(cfg, s.db, s.locks, t, s.txs[t]);
      ConsumedBy(cfg, s, u);
      NotYetConsumed(cfg, s, t);
    }
    hide TxInv, DbInv, Advance, Effects;
  }

  lemma NotYetConsumed(cfg: Config, s: State, t: nat)
    requires t in s.txs && s.txs[t].phase.Consumed? && TxInv(cfg, s.db, s.locks, t, s.txs[t])
    ensures s.txs[t].Sid() in s.db.challenges && s.db.challenges[s.txs[t].Sid()].consumedAt.None?
  {
    hide Licensed, Chosen;
  }

  lemma ConsumedBy(cfg: Config, s: State, u: nat)
    requires u in s.txs && HasCommitted(s.txs[u].phase) && TxInv(cfg, s.db, s.locks, u, s.txs[u])
    ensures s.txs[u].Sid() in s.db.challenges && s.db.challenges[s.txs[u].Sid()].consumedAt.Some?
  {
  }

  lemma QuietKeepsIds(cfg: Config, s: State, t: nat)
    requires t in s.txs && !s.txs[t].phase.Consumed? && IdsOk(s) && OncePerSession(s)
    ensures IdsOk(TakeStep(cfg, s, t)) && OncePerSession(TakeStep(cfg, s, t))
  {
    hide Advance;
    GoIsActive(cfg, s, t, s.txs[t]);
  }

  lemma StepKeepsInv(cfg: Config, s: State, t: nat)
    requires ConfigOk(cfg) && Inv(cfg, s) && t in s.txs
    ensures Inv(cfg, TakeStep(cfg, s, t))
  {
    hide DbInv, LocksOk, TxsOk, IdsOk, OncePerSession, TakeStep;
    StepKeepsTxs(cfg, s, t);
    StepKeepsLocks(cfg, s, t);
    if s.txs[t].phase.Consumed? {
      CommitKeepsTables(cfg, s, t);
      CommitKeepsIds(cfg, s, t);
      CommitIsFirst(cfg, s, t);
    } else {
      QuietStepRespects(cfg, s, t, t + 1);
      QuietKeepsIds(cfg, s, t);
    }
  }

  // ---- Begin, crash and administration ----

  lemma BeginOrCrashKeepsTxs(cfg: Config, s: State, a: Action)
    requires Inv(cfg, s) && (a.Begin? || a.Crash?)
    ensures TxsOk(cfg, Apply(cfg, s, a))
  {
    var s' := Apply(cfg, s, a);
    forall u | u in s'.txs
      ensures TxInv(cfg, s'.db, s'.locks, u, s'.txs[u])
              && s'.txs[u].call.freshId == u && Admissible(cfg, s'.txs[u].call.request)
    {
      if u in s.txs && s'.txs[u] == s.txs[u] {
        SameKnowledge(cfg, s, s', u, a);
      }
    }
  }

  lemma BeginOrCrashKeepsInv(cfg: Config, s: State, a: Action)
    requires Inv(cfg, s) && (a.Begin? || a.Crash?)
    ensures Inv(cfg, Apply(cfg, s, a))
  {
    BeginOrCrashKeepsTxs(cfg, s, a);
    BeginOrCrashKeepsRest(cfg, s, a);
    hide DbInv, TxsOk, LocksOk, IdsOk, OncePerSession;
  }

  lemma BeginOrCrashKeepsRest(cfg: Config, s: State, a: Action)
    requires LocksOk(s) && IdsOk(s) && OncePerSession(s) && (a.Begin? || a.Crash?)
    ensures var s' := Apply(cfg, s, a); LocksOk(s') && IdsOk(s') && OncePerSession(s')
  {
  }

  lemma SameKnowledge(cfg: Config, s: State, s': State, u: nat, a: Action)
    requires Inv(cfg, s) && (a.Begin? || a.Crash?) && s' == Apply(cfg, s, a)
    requires u in s.txs && u in s'.txs && s'.txs[u] == s.txs[u]
    ensures TxInv(cfg, s'.db, s'.locks, u, s'.txs[u])
  {
    assert TxInv(cfg, s.db, s.locks, u, s.txs[u]);
    hide TxInv, DbInv;
    if s' != s {
      StillRespects(s, s', u);
      OthersKept(cfg, s, s', u, s.txs[u]);
    }
  }

  lemma RevokeKeepsLimits(db: Db, i: nat)
    requires LimitsOk(db) && i < |db.devices|
    ensures LimitsOk(db.(devices := db.devices[i := db.devices[i].(status := Revoked)]))
  {
    hide LicenseActiveCount;
    var d := db.devices[i].(status := Revoked);
    forall l ensures LicenseActiveCount(db.devices[i := d], l) <= LicenseActiveCount(db.devices, l) {
      CountAfterRewrite(db.devices, i, d, l);
    }
  }

  lemma AdministerKeepsLimits(cfg: Config, s: State, a: Action)
    requires DbInv(cfg, s.db)
    ensures LimitsOk(Administer(s, a))
  {
    hide LicenseActiveCount;
    match a
    case RevokeDevice(did) =>
      var i := RowIndex(s.db.devices, did);
      if i < |s.db.devices| {
        RevokeKeepsLimits(s.db, i);
      }
    case AddLicense(lid, license) =>
      if lid !in s.db.licenses {
        NoRowsYet(cfg, s.db, lid, s.db.devices);
      }
    case _ =>
  }

  lemma AdministerKeepsTables(cfg: Config, s: State, a: Action)
    requires DbInv(cfg, s.db)
    ensures DbInv(cfg, Administer(s, a))
  {
    AdministerKeepsLimits(cfg, s, a);
    AdministerKeepsDevices(cfg, s, a);
    AdministerKeepsSessions(s, a);
    hide LimitsOk, DevicesOk, SessionsOk;
  }

  lemma AdministerKeepsDevices(cfg: Config, s: State, a: Action)
    requires DevicesOk(cfg, s.db.licenses, s.db.devices)
    ensures DevicesOk(cfg, Administer(s, a).licenses, Administer(s, a).devices)
  {
  }

  lemma AdministerKeepsSessions(s: State, a: Action)
    requires SessionsOk(s.db)
    ensures SessionsOk(Administer(s, a))
  {
  }

  lemma {:induction false} NoRowsYet(cfg: Config, db: Db, lid: nat, devices: seq<Device>)
    requires lid !in db.licenses
    requires forall i :: 0 <= i < |devices| ==> RowOk(cfg, db.licenses, devices[i])
    ensures LicenseActiveCount(devices, lid) == 0
  {
    if devices != [] {
      NoRowsYet(cfg, db, lid, devices[..|devices| - 1]);
      CountOneMore(devices, lid);
    }
  }

  lemma AdministerKeepsIds(s: State, a: Action)
    requires IdsOk(s)
    ensures IdsOk(s.(db := Administer(s, a)))
  {
  }

  lemma AdministerKeepsTx(cfg: Config, s: State, a: Action, u: nat)
    requires Inv(cfg, s) && u in s.txs
    ensures TxInv(cfg, Administer(s, a), s.locks, u, s.txs[u])
  {
    assert TxInv(cfg, s.db, s.locks, u, s.txs[u]);
    hide *;
    AdministerRespects(cfg, s, a, u);
    OthersKept(cfg, s, s.(db := Administer(s, a)), u, s.txs[u]);
  }

  lemma InvParts(cfg: Config, s: State)
    requires Inv(cfg, s)
    ensures DbInv(cfg, s.db) && IdsOk(s)
  {
  }

  lemma InvForTables(cfg: Config, s: State, db: Db)
    requires Inv(cfg, s) && DbInv(cfg, db) && IdsOk(s.(db := db))
    requires forall u :: u in s.txs ==> TxInv(cfg, db, s.locks, u, s.txs[u])
    ensures Inv(cfg, s.(db := db))
  {
    hide DbInv, TxInv, IdsOk;
  }

  lemma AdministerKeepsInv(cfg: Config, s: State, a: Action)
    requires Inv(cfg, s)
    ensures Inv(cfg, s.(db := Administer(s, a)))
  {
    hide *;
    InvParts(cfg, s);
    AdministerKeepsTables(cfg, s, a);
    AdministerKeepsIds(s, a);
    forall u | u in s.txs ensures TxInv(cfg, Administer(s, a), s.locks, u, s.txs[u]) {
      AdministerKeepsTx(cfg, s, a, u);
    }
    InvForTables(cfg, s, Administer(s, a));
  }

  /** The invariant is inductive. */
  lemma ApplyKeepsInv(cfg: Config, s: State, a: Action)
    requires ConfigOk(cfg) && Inv(cfg, s)
    ensures Inv(cfg, Apply(cfg, s, a))
  {
    hide Inv, TakeStep, Administer, Release;
    match a
    case Step(t) =>
      if t in s.txs {
        StepKeepsInv(cfg, s, t);
      }
    case Begin(_, _, _, _) => BeginOrCrashKeepsInv(cfg, s, a);
    case Crash(_) => BeginOrCrashKeepsInv(cfg, s, a);
    case _ => AdministerKeepsInv(cfg, s, a);
  }
}
