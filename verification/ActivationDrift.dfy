/**
 Devices whose hardware changed: a key match alone does not reach the threshold, so the service neither recognises the
 device nor can insert it a second time. What that means for one verification, for whole runs, and a run that ends so.
 */
module ActivationDrift {
  import opened Prelude
  import opened DeviceMatch
  import opened Activation
  import opened ActivationSafety
  import opened ActivationProtocol
  import opened ActivationInvariant
  import opened ActivationSteps
  import opened ActivationTheorems

  // ---- One verification ----

  /**
   With a drifted row no verification succeeds; once past the license checks the reason is the duplicate or the limit.
   */
  lemma DriftedDeviceRefused(cfg: Config, c: Call, db: Db, session: Session, d: Device)
    requires ConfigOk(cfg) && DbInv(cfg, db)
    requires Challenged(cfg, c, db) == Ok(session) && DriftedRow(cfg, c, db, session.licenseId, d)
    ensures AtomicVerify(cfg, c, db).Err?
    ensures Licensed(cfg, c, db, session).Ok? ==>
              var license := Licensed(cfg, c, db, session).value;
              AtomicVerify(cfg, c, db)
              == Err(if LicenseActiveCount(db.devices, session.licenseId) >= license.maxDevices
                     then LimitReached else DuplicateDevice)
  {
    hide DbInv, Challenged, Licensed, DriftedRow, Ordered, RowsOf, MatchDevice, WriteError, LicenseActiveCount;
    if Licensed(cfg, c, db, session).Ok? {
      DriftedRowMeansNoMatch(cfg, c, db, session, Licensed(cfg, c, db, session).value, d);
      DriftedRowBlocks(cfg, c, db, session, d);
    }
  }

  // ---- Every run ----

  /** The call presents the key of `d` with hardware that scores below the threshold against the row. */
  predicate Drifts(cfg: Config, d: Device, request: Request) {
    cfg.sha(request.key) == d.keySha ==> Score(d, Presented(cfg.sha(request.key), request.hardware)) < MATCH_THRESHOLD
  }

  /** A replaced main board is enough: it changes the SMBIOS and the board signal together. */
  lemma NewBoardDrifts(cfg: Config, d: Device, request: Request)
    requires request.hardware.smbios != d.hardware.smbios && request.hardware.motherboard != d.hardware.motherboard
    ensures Drifts(cfg, d, request)
  {
    var p := Presented(cfg.sha(request.key), request.hardware);
    ThresholdMeaning(SignalsOf(d.keySha, d.hardware), SignalsOf(p.keySha, p.hardware));
    hide ScoreDevice, Hex;
  }

  /** Every verification that has not committed yet and presents the key of `d` has drifted. */
  ghost predicate AllDrift(cfg: Config, s: State, d: Device) {
    forall t :: t in s.txs && !HasCommitted(s.txs[t].phase) ==> Drifts(cfg, d, s.txs[t].call.request)
  }

  ghost predicate BeginsDrift(cfg: Config, actions: seq<Action>, d: Device) {
    forall k :: 0 <= k < |actions| && actions[k].Begin? ==> Drifts(cfg, d, actions[k].request)
  }

  /** The two rows have the same identity and hardware, so they score alike. */
  predicate SameForScore(a: Device, b: Device) {
    a.keySha == b.keySha && a.hardware == b.hardware && a.licenseId == b.licenseId
  }

  /** A verification about to commit is a plan of the tables as they are. */
  lemma ConsumedPlan(cfg: Config, s: State, t: nat)
    requires Inv(cfg, s) && t in s.txs && s.txs[t].phase.Consumed?
    ensures Planned(cfg, s.txs[t].call, s.db, s.txs[t].phase.session, s.txs[t].phase.write)
  {
    assert TxInv(cfg, s.db, s.locks, t, s.txs[t]);
    hide DbInv, TxsOk, Plan;
  }

  lemma PlannedSucceeds(cfg: Config, c: Call, db: Db, session: Session, w: Write)
    requires Planned(cfg, c, db, session, w)
    ensures AtomicVerify(cfg, c, db).Ok? && Challenged(cfg, c, db) == Ok(session)
  {
    hide Chosen, Licensed, Challenged, Effects;
  }

  lemma IsDrifted(cfg: Config, c: Call, db: Db, licenseId: nat, d: Device)
    requires d in db.devices && d.licenseId == licenseId && cfg.sha(c.request.key) == d.keySha
    requires Drifts(cfg, d, c.request)
    ensures d.status == Active ==> DriftedRow(cfg, c, db, licenseId, d)
  {
    hide Score;
  }

  lemma DriftedPlansElsewhere(cfg: Config, c: Call, db: Db, session: Session, w: Write, d: Device)
    requires ConfigOk(cfg) && DbInv(cfg, db) && Planned(cfg, c, db, session, w)
    requires d in db.devices && cfg.sha(c.request.key) == d.keySha && Drifts(cfg, d, c.request)
    ensures session.licenseId != d.licenseId
  {
    hide *;
    PlannedSucceeds(cfg, c, db, session, w);
    if session.licenseId == d.licenseId {
      IsDrifted(cfg, c, db, session.licenseId, d);
      if d.status == Active {
        DriftedDeviceRefused(cfg, c, db, session, d);
      } else {
        RevokedKeyRefused(cfg, c, db, session, d);
      }
    }
  }

  /** An update rewrites a row of the session's license with the presented key. */
  lemma UpdatedKey(cfg: Config, c: Call, db: Db, session: Session, id: nat)
    requires ConfigOk(cfg) && DbInv(cfg, db) && Planned(cfg, c, db, session, Update(id))
    ensures var i := RowIndex(db.devices, id);
            i < |db.devices| && db.devices[i].keySha == cfg.sha(c.request.key)
            && db.devices[i].licenseId == session.licenseId
  {
    hide *;
    PlanParts(cfg, c, db, session, Update(id));
    var i := UpdatedRow(cfg, c, db, session, id);
    var license := Licensed(cfg, c, db, session).value;
    ChosenIsDecided(cfg, c, db, session, license, id);
    var m := MatchedRow(cfg, c, db, session, license);
    MatchedKey(cfg, c, m);
    SameRow(cfg, db, db.devices[i], m);
  }

  lemma ChosenIsDecided(cfg: Config, c: Call, db: Db, session: Session, license: License, id: nat)
    requires Chosen(cfg, c, db, session, license) == Ok(Update(id))
    ensures Decide(cfg, c, session, license, Ordered(RowsOf(db.devices, session.licenseId), session.userId))
          == Ok(Update(id))
  {
    hide Decide, WriteError, RowsOf, Ordered;
  }

  lemma MatchedKey(cfg: Config, c: Call, m: Device)
    requires ConfigOk(cfg) && Candidate(m, PresentedBy(cfg, c))
    ensures m.keySha == cfg.sha(c.request.key)
  {
    hide Score;
    ThresholdNeedsKey(m, PresentedBy(cfg, c));
  }

  lemma SameRow(cfg: Config, db: Db, a: Device, b: Device)
    requires DbInv(cfg, db) && a in db.devices && b in db.devices && a.id == b.id
    ensures a == b
  {
    hide LimitsOk, SessionsOk, RowOk;
  }

  /** A commit of another key or license leaves the row's identity and hardware alone. */
  lemma WriteSparesRow(cfg: Config, c: Call, db: Db, session: Session, w: Write, i: nat)
    requires ConfigOk(cfg) && DbInv(cfg, db) && Planned(cfg, c, db, session, w) && i < |db.devices|
    requires cfg.sha(c.request.key) != db.devices[i].keySha || session.licenseId != db.devices[i].licenseId
    ensures var devices := WriteDevice(cfg, c, db.devices, w);
            i < |devices| && SameForScore(db.devices[i], devices[i])
  {
    hide DbInv, Planned, RowIndex, ConfigOk;
    match w
    case Create(_) =>
    case Update(id) => UpdatedKey(cfg, c, db, session, id);
  }

  lemma CommittedDevices(cfg: Config, s: State, t: nat)
    requires t in s.txs && s.txs[t].phase.Consumed?
    ensures TakeStep(cfg, s, t).db.devices == WriteDevice(cfg, s.txs[t].call, s.db.devices, s.txs[t].phase.write)
  {
    hide WriteDevice, Release;
  }

  lemma QuietDevices(cfg: Config, s: State, t: nat)
    requires t in s.txs && !s.txs[t].phase.Consumed?
    ensures TakeStep(cfg, s, t).db == s.db
  {
    hide Advance, Release, Acquire;
  }

  lemma InvTables(cfg: Config, s: State)
    requires Inv(cfg, s)
    ensures DbInv(cfg, s.db)
  {
  }

  lemma DriftOf(cfg: Config, s: State, t: nat, d: Device)
    requires AllDrift(cfg, s, d) && t in s.txs && s.txs[t].phase.Consumed?
    ensures Drifts(cfg, d, s.txs[t].call.request)
  {
    hide Drifts;
  }

  lemma StepSparesRow(cfg: Config, s: State, t: nat, i: nat)
    requires ConfigOk(cfg) && Inv(cfg, s) && t in s.txs && i < |s.db.devices| && AllDrift(cfg, s, s.db.devices[i])
    ensures var devices := TakeStep(cfg, s, t).db.devices;
            i < |devices| && SameForScore(s.db.devices[i], devices[i])
  {
    var tx, d := s.txs[t], s.db.devices[i];
    assert SameForScore(d, d);
    hide *;
    if tx.phase.Consumed? {
      var session, w := tx.phase.session, tx.phase.write;
      ConsumedPlan(cfg, s, t);
      InvTables(cfg, s);
      DriftOf(cfg, s, t, d);
      CommittedDevices(cfg, s, t);
      if cfg.sha(tx.call.request.key) == d.keySha {
        DriftedPlansElsewhere(cfg, tx.call, s.db, session, w, d);
      }
      WriteSparesRow(cfg, tx.call, s.db, session, w, i);
    } else {
      QuietDevices(cfg, s, t);
    }
  }

  lemma AdministerSparesRow(cfg: Config, s: State, a: Action, i: nat)
    requires i < |s.db.devices| && !a.Step? && !a.Begin? && !a.Crash?
    ensures var devices := Administer(s, a).devices;
            i < |devices| && SameForScore(s.db.devices[i], devices[i])
  {
  }

  lemma StepKeepsDrift(cfg: Config, s: State, t: nat, i: nat)
    requires ConfigOk(cfg) && Inv(cfg, s) && t in s.txs && i < |s.db.devices| && AllDrift(cfg, s, s.db.devices[i])
    ensures var s' := TakeStep(cfg, s, t);
            && i < |s'.db.devices| && SameForScore(s.db.devices[i], s'.db.devices[i])
            && AllDrift(cfg, s', s'.db.devices[i])
  {
    hide *;
    StepSparesRow(cfg, s, t, i);
    StepFrame(cfg, s, t);
    DriftCarries(cfg, s, TakeStep(cfg, s, t), s.db.devices[i], TakeStep(cfg, s, t).db.devices[i]);
  }

  lemma BeginOrCrashKeepsDrift(cfg: Config, s: State, a: Action, d: Device)
    requires (a.Begin? || a.Crash?) && AllDrift(cfg, s, d) && (a.Begin? ==> Drifts(cfg, d, a.request))
    ensures Apply(cfg, s, a).db == s.db && AllDrift(cfg, Apply(cfg, s, a), d)
  {
    hide Drifts, Release, Administer;
  }

  lemma AdministerKeepsTxs(cfg: Config, s: State, a: Action)
    requires !a.Step? && !a.Begin? && !a.Crash?
    ensures Apply(cfg, s, a) == s.(db := Administer(s, a))
  {
    hide Administer;
  }

  /** One action keeps the row's identity and hardware, and everyone with its key drifted. */
  lemma ActionKeepsDrift(cfg: Config, s: State, a: Action, i: nat)
    requires ConfigOk(cfg) && Inv(cfg, s) && i < |s.db.devices| && AllDrift(cfg, s, s.db.devices[i])
    requires a.Begin? ==> Drifts(cfg, s.db.devices[i], a.request)
    ensures var s' := Apply(cfg, s, a);
            && i < |s'.db.devices| && SameForScore(s.db.devices[i], s'.db.devices[i])
            && AllDrift(cfg, s', s'.db.devices[i])
  {
    var d := s.db.devices[i];
    assert SameForScore(d, d);
    StepIs(cfg, s, a);
    hide *;
    match a
    case Step(t) =>
      if t in s.txs {
        StepKeepsDrift(cfg, s, t, i);
      }
    case Begin(_, _, _, _) => BeginOrCrashKeepsDrift(cfg, s, a, d);
    case Crash(_) => BeginOrCrashKeepsDrift(cfg, s, a, d);
    case _ => AdministerKeepsDrift(cfg, s, a, i);
  }

  lemma AdministerKeepsDrift(cfg: Config, s: State, a: Action, i: nat)
    requires i < |s.db.devices| && AllDrift(cfg, s, s.db.devices[i]) && !a.Step? && !a.Begin? && !a.Crash?
    ensures var s' := Apply(cfg, s, a);
            && i < |s'.db.devices| && SameForScore(s.db.devices[i], s'.db.devices[i])
            && AllDrift(cfg, s', s'.db.devices[i])
  {
    hide *;
    AdministerSparesRow(cfg, s, a, i);
    AdministerKeepsTxs(cfg, s, a);
    DriftCarries(cfg, s, Apply(cfg, s, a), s.db.devices[i], Apply(cfg, s, a).db.devices[i]);
  }

  lemma StepIs(cfg: Config, s: State, a: Action)
    ensures a.Step? ==> Apply(cfg, s, a) == if a.t in s.txs then TakeStep(cfg, s, a.t) else s
  {
    hide TakeStep;
  }

  lemma DriftCarries(cfg: Config, s: State, s': State, d: Device, d': Device)
    requires AllDrift(cfg, s, d) && SameForScore(d, d') && s'.txs.Keys == s.txs.Keys
    requires forall u :: u in s.txs ==> s'.txs[u].call == s.txs[u].call
                                        && (HasCommitted(s.txs[u].phase) ==> HasCommitted(s'.txs[u].phase))
    ensures AllDrift(cfg, s', d')
  {
    hide ScoreDevice;
  }

  lemma {:induction false} DriftedKeyStaysOut(cfg: Config, s: State, after: seq<Action>, i: nat)
    requires ConfigOk(cfg) && Inv(cfg, s) && i < |s.db.devices|
    requires AllDrift(cfg, s, s.db.devices[i]) && BeginsDrift(cfg, after, s.db.devices[i])
    ensures var d, s' := s.db.devices[i], Run(cfg, s, after);
            && i < |s'.db.devices| && SameForScore(d, s'.db.devices[i])
            && forall t :: t in s'.txs && s'.txs[t].phase.Consumed? && cfg.sha(s'.txs[t].call.request.key) == d.keySha
                           ==> s'.txs[t].phase.session.licenseId != d.licenseId
    decreases |after|
  {
    hide Inv, Apply, Drifts, AllDrift;
    if after == [] {
      forall t | t in s.txs && s.txs[t].phase.Consumed? && cfg.sha(s.txs[t].call.request.key) == s.db.devices[i].keySha
        ensures s.txs[t].phase.session.licenseId != s.db.devices[i].licenseId
      {
        ConsumedElsewhere(cfg, s, t, i);
      }
    } else {
      var s1 := Apply(cfg, s, after[0]);
      ActionKeepsDrift(cfg, s, after[0], i);
      ApplyKeepsInv(cfg, s, after[0]);
      BeginsDriftLater(cfg, after, s.db.devices[i], s1.db.devices[i]);
      DriftedKeyStaysOut(cfg, s1, after[1..], i);
    }
  }

  lemma ConsumedElsewhere(cfg: Config, s: State, t: nat, i: nat)
    requires ConfigOk(cfg) && Inv(cfg, s) && t in s.txs && s.txs[t].phase.Consumed? && i < |s.db.devices|
    requires AllDrift(cfg, s, s.db.devices[i]) && cfg.sha(s.txs[t].call.request.key) == s.db.devices[i].keySha
    ensures s.txs[t].phase.session.licenseId != s.db.devices[i].licenseId
  {
    hide *;
    ConsumedPlan(cfg, s, t);
    InvTables(cfg, s);
    DriftOf(cfg, s, t, s.db.devices[i]);
    DriftedPlansElsewhere(cfg, s.txs[t].call, s.db, s.txs[t].phase.session, s.txs[t].phase.write, s.db.devices[i]);
  }

  lemma BeginsDriftLater(cfg: Config, after: seq<Action>, d: Device, d': Device)
    requires after != [] && BeginsDrift(cfg, after, d) && SameForScore(d, d')
    ensures BeginsDrift(cfg, after[1..], d')
  {
    hide ScoreDevice;
  }

  /**
   The finding for every run: once a license holds a device, then in every continuation in which whoever presents its
   key presents drifted hardware, no such verification commits for that license, whether or not the device is revoked
   meanwhile, and the hardware stored for it never catches up.
   */
  lemma DriftedKeyNeverCommits(cfg: Config, before: seq<Action>, after: seq<Action>, i: nat, t: nat)
    requires ConfigOk(cfg)
    requires var s := Run(cfg, INIT, before);
             && i < |s.db.devices|
             && AllDrift(cfg, s, s.db.devices[i]) && BeginsDrift(cfg, after, s.db.devices[i])
             && var s' := Run(cfg, s, after);
             && t in s'.txs && s'.txs[t].phase.Consumed?
             && cfg.sha(s'.txs[t].call.request.key) == s.db.devices[i].keySha
    ensures var s := Run(cfg, INIT, before);
            var s' := Run(cfg, s, after);
            && s'.txs[t].phase.session.licenseId != s.db.devices[i].licenseId
            && i < |s'.db.devices| && s'.db.devices[i].hardware == s.db.devices[i].hardware
  {
    Reachable(cfg, before);
    hide Run, Inv, AllDrift, BeginsDrift;
    DriftedKeyStaysOut(cfg, Run(cfg, INIT, before), after, i);
  }

  // ---- A verification that nobody disturbs ----

  predicate Alone(s: State, t: nat) {
    forall r :: r in s.locks ==> s.locks[r] == t
  }

  /** How many statements are left up to the commit. */
  function Ahead(p: Phase): nat {
    match p
    case Begun => 7
    case HasChallenge(_, _) => 6
    case HasLicense(_, _) => 5
    case HasDevices(_, _, _) => 4
    case Wrote(_, _) => 3
    case Marked(_, _) => 2
    case Consumed(_, _) => 1
    case _ => 0
  }

  function Steps(t: nat, n: nat): seq<Action> {
    if n == 0 then [] else [Step(t)] + Steps(t, n - 1)
  }

  /** The verification has ended with the outcome and effect it has as one atomic step on `db`. */
  ghost predicate Ended(cfg: Config, s: State, t: nat, db: Db) {
    && t in s.txs && s.locks == map[]
    && match AtomicVerify(cfg, s.txs[t].call, db)
       case Ok((tables, deviceId)) => s.db == tables && s.txs[t].phase.Committed? && s.txs[t].phase.deviceId == deviceId
       case Err(e) => s.db == db && s.txs[t].phase == Failed(e)
  }

  lemma AloneNeverWaits(cfg: Config, s: State, t: nat)
    requires Inv(cfg, s) && InProgress(s, t) && Alone(s, t) && !s.txs[t].phase.Consumed?
    ensures !Advance(cfg, s, t, s.txs[t]).Wait?
  {
    hide Advance, Inv;
    if Blocked(cfg, s, t) {
      var r := BlockedBy(cfg, s, t);
      assert false;
    }
  }

  lemma GoesOn(cfg: Config, s: State, t: nat, tx: Tx)
    requires Advance(cfg, s, t, tx).Go?
    ensures Ahead(Advance(cfg, s, t, tx).phase) == Ahead(tx.phase) - 1
  {
    hide RowsOf, Ordered, Decide, WriteError, CheckChallenge, CheckLicense, DeviceRows;
  }

  lemma SoloCommit(cfg: Config, s: State, t: nat)
    requires Inv(cfg, s) && Alone(s, t) && t in s.txs && s.txs[t].phase.Consumed?
    ensures Ended(cfg, TakeStep(cfg, s, t), t, s.db)
  {
    CommitIsAtomic(cfg, s, t);
    hide Inv, AtomicVerify, Effects, Advance;
  }

  lemma SoloFailure(cfg: Config, s: State, t: nat)
    requires Inv(cfg, s) && Alone(s, t) && InProgress(s, t) && Advance(cfg, s, t, s.txs[t]).Fail?
    ensures Ended(cfg, TakeStep(cfg, s, t), t, s.db)
  {
    assert TxInv(cfg, s.db, s.locks, t, s.txs[t]);
    FailureIsAtomic(cfg, s, t, s.txs[t]);
    hide Inv, AtomicVerify, Effects, Advance, TxInv;
  }

  lemma SoloStep(cfg: Config, s: State, t: nat)
    requires Inv(cfg, s) && Alone(s, t) && InProgress(s, t)
    ensures var s' := TakeStep(cfg, s, t);
            || Ended(cfg, s', t, s.db)
            || (&& t in s'.txs && s'.txs[t].call == s.txs[t].call && s'.db == s.db && Alone(s', t) && InProgress(s', t)
                && Ahead(s'.txs[t].phase) == Ahead(s.txs[t].phase) - 1)
  {
    if s.txs[t].phase.Consumed? {
      SoloCommit(cfg, s, t);
    } else {
      AloneNeverWaits(cfg, s, t);
      hide Inv, Advance, Ended;
      if Advance(cfg, s, t, s.txs[t]).Fail? {
        SoloFailure(cfg, s, t);
      } else {
        GoesOn(cfg, s, t, s.txs[t]);
        GoIsActive(cfg, s, t, s.txs[t]);
      }
    }
  }

  lemma {:induction false} FailedStays(cfg: Config, s: State, t: nat, n: nat)
    requires t in s.txs && s.txs[t].phase.Failed?
    ensures Run(cfg, s, Steps(t, n)) == s
  {
    if n > 0 {
      StepFrame(cfg, s, t);
      FailedStays(cfg, s, t, n - 1);
      assert Steps(t, n)[1..] == Steps(t, n - 1);
    }
  }

  lemma {:induction false} SoloRun(cfg: Config, s: State, t: nat, n: nat)
    requires ConfigOk(cfg) && Inv(cfg, s) && Alone(s, t) && InProgress(s, t) && n == Ahead(s.txs[t].phase)
    ensures var s' := Run(cfg, s, Steps(t, n));
            Ended(cfg, s', t, s.db) && s'.txs[t].call == s.txs[t].call
            && s'.txs.Keys == s.txs.Keys && forall u :: u in s.txs && u != t ==> s'.txs[u] == s.txs[u]
    decreases n
  {
    hide Inv, TakeStep, Ended, Alone;
    AheadWhileInProgress(s.txs[t].phase);
    var s1 := TakeStep(cfg, s, t);
    assert Steps(t, n)[1..] == Steps(t, n - 1) && Apply(cfg, s, Step(t)) == s1;
    SoloStep(cfg, s, t);
    StepFrame(cfg, s, t);
    if Ended(cfg, s1, t, s.db) {
      EndedPhase(cfg, s1, t, s.db);
      if s1.txs[t].phase.Failed? {
        FailedStays(cfg, s1, t, n - 1);
      } else {
        CommittedLast(cfg, s, t);
      }
    } else {
      ApplyKeepsInv(cfg, s, Step(t));
      SoloRun(cfg, s1, t, n - 1);
    }
  }

  lemma AheadWhileInProgress(p: Phase)
    ensures !Finished(p) && !HasCommitted(p) ==> Ahead(p) > 0
  {
  }

  lemma EndedPhase(cfg: Config, s: State, t: nat, db: Db)
    requires Ended(cfg, s, t, db)
    ensures t in s.txs && (s.txs[t].phase.Failed? || s.txs[t].phase.Committed?)
  {
    hide AtomicVerify;
  }

  lemma CommittedLast(cfg: Config, s: State, t: nat)
    requires InProgress(s, t) && TakeStep(cfg, s, t).txs[t].phase.Committed?
    ensures Ahead(s.txs[t].phase) == 1
  {
    GoIsActive(cfg, s, t, s.txs[t]);
    hide Advance;
  }

  /**
   Progress: a verification begun while no locks are held, and then left undisturbed for its seven statements, ends with
   exactly the outcome and effect of the whole of it as one atomic step, and leaves no lock behind.
   */
  lemma UndisturbedVerify(cfg: Config, s: State, t: nat, request: Request, now: int, startedAt: int)
    requires ConfigOk(cfg) && Inv(cfg, s) && s.locks == map[] && t !in s.txs && Admissible(cfg, request)
    ensures var s' := Run(cfg, s, [Begin(t, request, now, startedAt)] + Steps(t, 7));
            && Ended(cfg, s', t, s.db) && s'.txs[t].call == Call(request, now, startedAt, t)
            && s'.txs.Keys == s.txs.Keys + {t} && forall u :: u in s.txs ==> s'.txs[u] == s.txs[u]
  {
    var begin := Begin(t, request, now, startedAt);
    var s1 := Apply(cfg, s, begin);
    Begins(cfg, s, t, request, now, startedAt);
    hide *;
    ApplyKeepsInv(cfg, s, begin);
    SoloRun(cfg, s1, t, 7);
  }

  lemma Begins(cfg: Config, s: State, t: nat, request: Request, now: int, startedAt: int)
    requires s.locks == map[] && t !in s.txs && Admissible(cfg, request)
    ensures var begin := Begin(t, request, now, startedAt);
            var s1 := Apply(cfg, s, begin);
            && s1.db == s.db && Alone(s1, t) && s1.txs == s.txs[t := Tx(Call(request, now, startedAt, t), Begun)]
            && InProgress(s1, t) && Ahead(s1.txs[t].phase) == 7
            && Run(cfg, s, [begin] + Steps(t, 7)) == Run(cfg, s1, Steps(t, 7))
  {
    assert ([Begin(t, request, now, startedAt)] + Steps(t, 7))[1..] == Steps(t, 7);
  }

  // ---- A run that ends in the duplicate ----

  lemma {:induction false} RunConcat(cfg: Config, s: State, a: seq<Action>, b: seq<Action>)
    ensures Run(cfg, s, a + b) == Run(cfg, Run(cfg, s, a), b)
    decreases |a|
  {
    hide Apply;
    if a == [] {
      assert a + b == b;
    } else {
      assert (a + b)[1..] == a[1..] + b;
      RunConcat(cfg, Apply(cfg, s, a[0]), a[1..], b);
    }
  }

  /** What a user presents at one login: the challenge with its signature, and the hardware. */
  datatype Attempt = Attempt(challenge: seq<Byte>, signature: seq<Byte>, hardware: Hardware)

  predicate AttemptOk(cfg: Config, key: seq<Byte>, a: Attempt) {
    cfg.validSignature(key, a.challenge, a.signature) && a.hardware.fingerprint != ""
  }

  /** One login and the whole of its verification, at time `now`. */
  function LoginAndVerify(cfg: Config, key: seq<Byte>, sid: nat, now: int, a: Attempt): seq<Action> {
    [Login(sid, 0, 0, cfg.sha(a.challenge), 100)]
    + ([Begin(sid, Request(sid, a.challenge, key, a.signature, a.hardware), now, now)] + Steps(sid, 7))
  }

  function Setup(cfg: Config): seq<Action> {
    [AddLicense(0, License(0, cfg.product, LicenseActive, 2, 100))]
  }

  /** The tables after a login of the one user. */
  function LoggedIn(cfg: Config, db: Db, sid: nat, a: Attempt): Db {
    db.(sessions := db.sessions[sid := Session(0, 0, Pending, 100)],
        challenges := db.challenges[sid := Challenge(cfg.sha(a.challenge), 100, None)])
  }

  function CallOf(key: seq<Byte>, sid: nat, now: int, a: Attempt): Call {
    Call(Request(sid, a.challenge, key, a.signature, a.hardware), now, now, sid)
  }

  /** The one license, and nothing under `sid` yet. */
  predicate Ready(cfg: Config, s: State, sid: nat) {
    && s.db.licenses == map[0 := License(0, cfg.product, LicenseActive, 2, 100)]
    && s.locks == map[] && sid !in s.txs && sid !in s.db.sessions && sid !in s.db.challenges
  }

  lemma LoginThenVerify(cfg: Config, s: State, key: seq<Byte>, sid: nat, now: int, a: Attempt)
    requires ConfigOk(cfg) && Inv(cfg, s) && Ready(cfg, s, sid) && AttemptOk(cfg, key, a) && cfg.thumbprint(key).Some?
    ensures var s', db := Run(cfg, s, LoginAndVerify(cfg, key, sid, now, a)), LoggedIn(cfg, s.db, sid, a);
            && Inv(cfg, s') && Ended(cfg, s', sid, db) && s'.txs[sid].call == CallOf(key, sid, now, a)
            && s'.txs.Keys == s.txs.Keys + {sid}
    ensures DbInv(cfg, LoggedIn(cfg, s.db, sid, a))
  {
    var login := Login(sid, 0, 0, cfg.sha(a.challenge), 100);
    var request := Request(sid, a.challenge, key, a.signature, a.hardware);
    var s1 := Apply(cfg, s, login);
    var rest := [Begin(sid, request, now, now)] + Steps(sid, 7);
    assert s1.db == LoggedIn(cfg, s.db, sid, a) && s1.locks == map[] && sid !in s1.txs;
    assert LoginAndVerify(cfg, key, sid, now, a)[1..] == rest;
    ApplyKeepsInv(cfg, s, login);
    InvTables(cfg, s1);
    hide Inv, Ended, Steps;
    UndisturbedVerify(cfg, s1, sid, request, now, now);
    RunKeepsInv(cfg, s1, rest);
  }

  /** Up to the choice of the device nothing refuses an attempt of the one user. */
  lemma AttemptPasses(cfg: Config, db: Db, key: seq<Byte>, sid: nat, now: int, a: Attempt)
    requires ConfigOk(cfg) && AttemptOk(cfg, key, a) && now < 100
    requires db.licenses == map[0 := License(0, cfg.product, LicenseActive, 2, 100)]
    ensures var c := CallOf(key, sid, now, a);
            && Challenged(cfg, c, LoggedIn(cfg, db, sid, a)) == Ok(Session(0, 0, Pending, 100))
            && Licensed(cfg, c, LoggedIn(cfg, db, sid, a), Session(0, 0, Pending, 100))
               == Ok(License(0, cfg.product, LicenseActive, 2, 100))
  {
  }

  /** The first device of a license is inserted. */
  lemma FirstDevice(cfg: Config, c: Call, db: Db, session: Session, license: License)
    requires Challenged(cfg, c, db) == Ok(session) && Licensed(cfg, c, db, session) == Ok(license)
    requires db.devices == [] && license.maxDevices > 0
    ensures AtomicVerify(cfg, c, db)
         == Ok((Effects(cfg, c, db, session, Create(NewRow(cfg, c, session))), c.freshId))
  {
    hide Challenged, Licensed, Effects;
    assert RowsOf(db.devices, session.licenseId) == [];
  }

  lemma RunOne(cfg: Config, s: State, a: Action)
    ensures Run(cfg, s, [a]) == Apply(cfg, s, a)
  {
    hide Apply;
    assert [a][1..] == [];
  }

  lemma AfterSetup(cfg: Config)
    requires ConfigOk(cfg)
    ensures var s := Run(cfg, INIT, Setup(cfg));
            && Inv(cfg, s) && Ready(cfg, s, 0) && s.txs == map[]
            && s.db.devices == [] && s.db.sessions == map[] && s.db.challenges == map[]
  {
    Reachable(cfg, Setup(cfg));
    RunOne(cfg, INIT, Setup(cfg)[0]);
    hide Run, Inv;
  }

  lemma FirstVerdict(cfg: Config, db: Db, key: seq<Byte>, a: Attempt)
    requires ConfigOk(cfg) && AttemptOk(cfg, key, a) && db.devices == []
    requires db.licenses == map[0 := License(0, cfg.product, LicenseActive, 2, 100)]
    ensures var c, session, db1 := CallOf(key, 0, 10, a), Session(0, 0, Pending, 100), LoggedIn(cfg, db, 0, a);
            AtomicVerify(cfg, c, db1) == Ok((Effects(cfg, c, db1, session, Create(NewRow(cfg, c, session))), 0))
  {
    AttemptPasses(cfg, db, key, 0, 10, a);
    hide Challenged, Licensed, AtomicVerify, Effects, NewRow, AttemptOk, ConfigOk;
    FirstDevice(cfg, CallOf(key, 0, 10, a), LoggedIn(cfg, db, 0, a), Session(0, 0, Pending, 100),
                License(0, cfg.product, LicenseActive, 2, 100));
  }

  lemma EndedInFirst(cfg: Config, s: State, db: Db, c: Call, session: Session)
    requires Ended(cfg, s, 0, db) && s.txs[0].call == c && s.txs.Keys == {0} && c.request.sessionId == 0
    requires AtomicVerify(cfg, c, db) == Ok((Effects(cfg, c, db, session, Create(NewRow(cfg, c, session))), 0))
    requires db.devices == [] && db.sessions.Keys == {0} && db.challenges.Keys == {0}
    requires db.licenses == map[0 := License(0, cfg.product, LicenseActive, 2, 100)]
    ensures Ready(cfg, s, 1) && s.db.devices == [NewRow(cfg, c, session)]
  {
    hide AtomicVerify, NewRow;
  }

  lemma LoginOnEmpty(cfg: Config, db: Db, a: Attempt)
    requires db.sessions == map[] && db.challenges == map[]
    ensures var db1 := LoggedIn(cfg, db, 0, a);
            && db1.sessions.Keys == {0} && db1.challenges.Keys == {0}
            && db1.devices == db.devices && db1.licenses == db.licenses
  {
  }

  lemma ReadyLicense(cfg: Config, s: State, sid: nat)
    requires Ready(cfg, s, sid)
    ensures s.db.licenses == map[0 := License(0, cfg.product, LicenseActive, 2, 100)]
  {
  }

  lemma CallOfSession(key: seq<Byte>, sid: nat, now: int, a: Attempt)
    ensures CallOf(key, sid, now, a).request.sessionId == sid
  {
  }

  /** After the first login: the one row, and room for one more. */
  lemma AfterFirst(cfg: Config, s: State, key: seq<Byte>, a: Attempt)
    requires ConfigOk(cfg) && AttemptOk(cfg, key, a) && cfg.thumbprint(key).Some?
    requires s == Run(cfg, INIT, Setup(cfg) + LoginAndVerify(cfg, key, 0, 10, a))
    ensures Inv(cfg, s) && Ready(cfg, s, 1)
    ensures s.db.devices == [NewRow(cfg, CallOf(key, 0, 10, a), Session(0, 0, Pending, 100))]
  {
    hide *;
    var s1 := Run(cfg, INIT, Setup(cfg));
    AfterSetup(cfg);
    RunConcat(cfg, INIT, Setup(cfg), LoginAndVerify(cfg, key, 0, 10, a));
    LoginThenVerify(cfg, s1, key, 0, 10, a);
    ReadyLicense(cfg, s1, 0);
    LoginOnEmpty(cfg, s1.db, a);
    FirstVerdict(cfg, s1.db, key, a);
    CallOfSession(key, 0, 10, a);
    EndedInFirst(cfg, s, LoggedIn(cfg, s1.db, 0, a), CallOf(key, 0, 10, a), Session(0, 0, Pending, 100));
  }

  /**
   A run that ends in the duplicate, for every key, hardware and drifted hardware: a license for two devices, a login
   and a verification that activates the device, a second login, and a verification from the same device with drifted
   hardware. It fails because the insert violates the unique key.
   */
  lemma DriftEndsInDuplicate(cfg: Config, key: seq<Byte>, first: Attempt, second: Attempt)
    requires ConfigOk(cfg) && AttemptOk(cfg, key, first) && AttemptOk(cfg, key, second) && cfg.thumbprint(key).Some?
    requires Drifts(cfg, NewRow(cfg, CallOf(key, 0, 10, first), Session(0, 0, Pending, 100)),
                    CallOf(key, 1, 20, second).request)
    ensures var run := Setup(cfg) + LoginAndVerify(cfg, key, 0, 10, first) + LoginAndVerify(cfg, key, 1, 20, second);
            var s := Run(cfg, INIT, run);
            1 in s.txs && s.txs[1].phase == Failed(DuplicateDevice)
  {
    var before := Setup(cfg) + LoginAndVerify(cfg, key, 0, 10, first);
    var s, c, session := Run(cfg, INIT, before), CallOf(key, 1, 20, second), Session(0, 0, Pending, 100);
    var row := NewRow(cfg, CallOf(key, 0, 10, first), session);
    AfterFirst(cfg, s, key, first);
    LoginThenVerify(cfg, s, key, 1, 20, second);
    AttemptPasses(cfg, s.db, key, 1, 20, second);
    RunConcat(cfg, INIT, before, LoginAndVerify(cfg, key, 1, 20, second));
    OneActive(row);
    var db := LoggedIn(cfg, s.db, 1, second);
    assert row in db.devices;
    IsDrifted(cfg, c, db, 0, row);
    hide Run, Inv, DbInv, AtomicVerify, Challenged, Licensed, LoginAndVerify, AttemptOk, Setup, DriftedRow, Drifts,
         LicenseActiveCount;
    DriftedDeviceRefused(cfg, c, db, session, row);
  }

  lemma OneActive(row: Device)
    requires row.status == Active
    ensures LicenseActiveCount([row], row.licenseId) == 1
  {
    assert RowsOf([row][..0], row.licenseId) == [];
    assert RowsOf([row], row.licenseId) == [row];
    assert CountActive([row][..0]) == 0;
  }
}
