/**
 The activation transaction run alone: `Verify` of the device service inside `WithLockedChallenge`
 of the store, as a function from the committed tables to new tables or an error. Each stage is a
 function of the rows that the corresponding statement reads, so the interleaved protocol of
 `ActivationProtocol` can take the same stages one at a time.
 */
module Activation {
  import opened Prelude
  import opened DeviceMatch

  datatype LicenseStatus = LicenseActive | LicenseRevoked | LicenseExpired

  datatype License = License(userId: nat, product: string, status: LicenseStatus, maxDevices: int, expiresAt: int)

  datatype SessionStatus = Pending | Verified | Expired

  datatype Session = Session(userId: nat, licenseId: nat, status: SessionStatus, expiresAt: int)

  datatype Challenge = Challenge(sha: seq<Byte>, expiresAt: int, consumedAt: Option<int>)

  /** The committed tables; sessions, challenges (one per session) and licenses by key, devices as rows. */
  datatype Db = Db(
    licenses: map<nat, License>, sessions: map<nat, Session>, challenges: map<nat, Challenge>, devices: seq<Device>)

  /** Cryptography and configuration are inputs; `thumbprint` is absent for a key off the curve. */
  datatype Config = Config(
    sha: seq<Byte> -> seq<Byte>,
    validSignature: (seq<Byte>, seq<Byte>, seq<Byte>) -> bool,
    thumbprint: seq<Byte> -> Option<string>,
    product: string)

  /** A decoded verification request with the hardware already keyed and hashed. */
  datatype Request = Request(
    sessionId: nat, challenge: seq<Byte>, key: seq<Byte>, signature: seq<Byte>, hardware: Hardware)

  /** One call of `Verify`: its request, policy clock, transaction start, and the id a new device row would get. */
  datatype Call = Call(request: Request, now: int, startedAt: int, freshId: nat)

  datatype Error =
    | ChallengeNotFound | ChallengeConsumed | ChallengeExpired | InvalidSignature
    | LicenseNotFound | InvalidCredentials | RevokedLicense | ExpiredLicense
    | RevokedDevice | LimitReached | DuplicateDevice | DeviceNotFound | SessionNotPending

  // ---- Rows ----

  /** The device rows of one license, in table order. */
  function RowsOf(devices: seq<Device>, licenseId: nat): seq<Device> {
    if devices == [] then []
    else
      var last := devices[|devices| - 1];
      RowsOf(devices[..|devices| - 1], licenseId) + if last.licenseId == licenseId then [last] else []
  }

  predicate Precedes(a: Device, b: Device) {
    a.createdAt < b.createdAt || (a.createdAt == b.createdAt && a.id <= b.id)
  }

  function InsertRow(d: Device, sorted: seq<Device>): seq<Device> {
    if sorted == [] then [d]
    else if Precedes(d, sorted[0]) then [d] + sorted
    else [sorted[0]] + InsertRow(d, sorted[1..])
  }

  /** `where user_id = ... order by created_at, id` over the rows of a license. */
  function Ordered(rows: seq<Device>, userId: nat): seq<Device> {
    if rows == [] then []
    else
      var rest := Ordered(rows[..|rows| - 1], userId);
      var last := rows[|rows| - 1];
      if last.userId == userId then InsertRow(last, rest) else rest
  }

  // ---- Stages ----

  /** Checks made on the locked session and challenge, in the order of the callback. */
  function CheckChallenge(cfg: Config, c: Call, session: Session, challenge: Challenge): Option<Error> {
    if session.status == Expired then Some(ChallengeExpired)
    else if session.status != Pending then Some(ChallengeConsumed)
    else if session.expiresAt <= c.now || challenge.expiresAt <= c.now then Some(ChallengeExpired)
    else if |challenge.sha| != DIGEST_BYTES || cfg.sha(c.request.challenge) != challenge.sha then Some(InvalidSignature)
    else if !cfg.validSignature(c.request.key, c.request.challenge, c.request.signature) then Some(InvalidSignature)
    else None
  }

  function CheckLicense(cfg: Config, c: Call, license: License): Option<Error> {
    if license.product != cfg.product then Some(InvalidCredentials)
    else if license.status == LicenseRevoked then Some(RevokedLicense)
    else if license.status == LicenseExpired || license.expiresAt <= c.now then Some(ExpiredLicense)
    else None
  }

  function PresentedBy(cfg: Config, c: Call): Presented {
    Presented(cfg.sha(c.request.key), c.request.hardware)
  }

  datatype Write = Create(device: Device) | Update(id: nat)

  function NewRow(cfg: Config, c: Call, session: Session): Device {
    Device(c.freshId, session.userId, session.licenseId, c.request.key, cfg.sha(c.request.key), c.request.hardware,
           Active, c.now, c.now, c.now)
  }

  /** Match the listed devices; reuse the match or create a row below the limit. */
  function Decide(cfg: Config, c: Call, session: Session, license: License, listed: seq<Device>): Result<Write, Error> {
    match MatchDevice(listed, PresentedBy(cfg, c))
    case DeviceRevoked => Err(RevokedDevice)
    case Verdict(Some(matched), _) => Ok(Update(matched.id))
    case Verdict(None, activeCount) =>
      if activeCount >= license.maxDevices then Err(LimitReached) else Ok(Create(NewRow(cfg, c, session)))
  }

  predicate Updatable(d: Device, id: nat, session: Session) {
    d.id == id && d.userId == session.userId && d.status == Active
  }

  /** The error of the write itself: the unique key on insert, or no row updated. */
  function WriteError(rows: seq<Device>, session: Session, w: Write): Option<Error> {
    match w
    case Create(device) =>
      if exists i :: 0 <= i < |rows| && rows[i].keySha == device.keySha then Some(DuplicateDevice) else None
    case Update(id) =>
      if exists i :: 0 <= i < |rows| && Updatable(rows[i], id, session) then None else Some(DeviceNotFound)
  }

  function Refreshed(cfg: Config, c: Call, d: Device): Device {
    d.(hardware := c.request.hardware, updatedAt := c.now, lastSeenAt := c.now)
  }

  /** Position of the row with this id, or the table length. */
  function RowIndex(devices: seq<Device>, id: nat): (i: nat)
    ensures i <= |devices|
    ensures i < |devices| ==> devices[i].id == id
    ensures i == |devices| ==> forall j :: 0 <= j < |devices| ==> devices[j].id != id
  {
    if devices == [] then 0
    else if devices[0].id == id then 0
    else 1 + RowIndex(devices[1..], id)
  }

  function WriteDevice(cfg: Config, c: Call, devices: seq<Device>, w: Write): seq<Device> {
    match w
    case Create(device) => devices + [device]
    case Update(id) =>
      var i := RowIndex(devices, id);
      if i == |devices| then devices else devices[i := Refreshed(cfg, c, devices[i])]
  }

  function WrittenId(w: Write): nat {
    match w
    case Create(device) => device.id
    case Update(id) => id
  }

  /** All effects of a committed verification. */
  function Effects(cfg: Config, c: Call, db: Db, session: Session, w: Write): Db {
    var sid := c.request.sessionId;
    Db(db.licenses,
       db.sessions[sid := session.(status := Verified)],
       if sid in db.challenges
       then db.challenges[sid := db.challenges[sid].(consumedAt := Some(c.startedAt))]
       else db.challenges,
       WriteDevice(cfg, c, db.devices, w))
  }

  // ---- The transaction run alone ----

  function Challenged(cfg: Config, c: Call, db: Db): Result<Session, Error> {
    var sid := c.request.sessionId;
    if sid !in db.sessions || sid !in db.challenges then Err(ChallengeNotFound)
    else if db.challenges[sid].consumedAt.Some? then Err(ChallengeConsumed)
    else
      match CheckChallenge(cfg, c, db.sessions[sid], db.challenges[sid])
      case Some(e) => Err(e)
      case None => Ok(db.sessions[sid])
  }

  function Licensed(cfg: Config, c: Call, db: Db, session: Session): Result<License, Error> {
    if session.licenseId !in db.licenses || db.licenses[session.licenseId].userId != session.userId
        then Err(LicenseNotFound)
    else
      match CheckLicense(cfg, c, db.licenses[session.licenseId])
      case Some(e) => Err(e)
      case None => Ok(db.licenses[session.licenseId])
  }

  function Chosen(cfg: Config, c: Call, db: Db, session: Session, license: License): Result<Write, Error> {
    var rows := RowsOf(db.devices, session.licenseId);
    match Decide(cfg, c, session, license, Ordered(rows, session.userId))
    case Err(e) => Err(e)
    case Ok(w) =>
      match WriteError(rows, session, w)
      case Some(e) => Err(e)
      case None => Ok(w)
  }

  /** The write a verification makes when it runs alone on `db`, or its error. */
  function Plan(cfg: Config, c: Call, db: Db): Result<(Session, Write), Error> {
    match Challenged(cfg, c, db)
    case Err(e) => Err(e)
    case Ok(session) =>
      match Licensed(cfg, c, db, session)
      case Err(e) => Err(e)
      case Ok(license) =>
        match Chosen(cfg, c, db, session, license)
        case Err(e) => Err(e)
        case Ok(w) => Ok((session, w))
  }

  /** The verification as one atomic step: new tables and the device id, or an error and no change. */
  function AtomicVerify(cfg: Config, c: Call, db: Db): (r: Result<(Db, nat), Error>) {
    match Plan(cfg, c, db)
    case Err(e) => Err(e)
    case Ok((session, w)) => Ok((Effects(cfg, c, db, session, w), WrittenId(w)))
  }

  // ---- Table invariant ----

  function LicenseActiveCount(devices: seq<Device>, licenseId: nat): nat {
    CountActive(RowsOf(devices, licenseId))
  }

  ghost predicate DevicesOk(cfg: Config, licenses: map<nat, License>, devices: seq<Device>) {
    && (forall i, j :: 0 <= i < j < |devices| ==> devices[i].id != devices[j].id)
    && (forall i, j :: 0 <= i < j < |devices| && devices[i].licenseId == devices[j].licenseId
                       ==> devices[i].keySha != devices[j].keySha)
    && (forall i :: 0 <= i < |devices| ==> RowOk(cfg, licenses, devices[i]))
  }

  /** The stored digest is that of the stored key; the owner is the license's owner. */
  ghost predicate RowOk(cfg: Config, licenses: map<nat, License>, d: Device) {
    && d.keySha == cfg.sha(d.key)
    && d.licenseId in licenses && licenses[d.licenseId].userId == d.userId
  }

  ghost predicate SessionsOk(db: Db) {
    && db.sessions.Keys == db.challenges.Keys
    && (forall s :: s in db.sessions ==> (db.sessions[s].status == Verified <==> db.challenges[s].consumedAt.Some?))
  }

  ghost predicate LimitsOk(db: Db) {
    forall l :: l in db.licenses ==> LicenseActiveCount(db.devices, l) <= db.licenses[l].maxDevices
  }

  ghost predicate DbInv(cfg: Config, db: Db) {
    && DevicesOk(cfg, db.licenses, db.devices)
    && SessionsOk(db)
    && LimitsOk(db)
  }

  ghost predicate ConfigOk(cfg: Config) {
    forall b :: |cfg.sha(b)| == DIGEST_BYTES
  }

  // ---- Rows of a license under table changes ----

  lemma RowsOfAppend(devices: seq<Device>, d: Device, l: nat)
    ensures RowsOf(devices + [d], l) == RowsOf(devices, l) + if d.licenseId == l then [d] else []
  {
    assert (devices + [d])[..|devices|] == devices;
  }

  lemma {:induction false} RowsOfMember(devices: seq<Device>, l: nat, d: Device)
    ensures d in RowsOf(devices, l) <==> d in devices && d.licenseId == l
  {
    if devices != [] {
      RowsOfMember(devices[..|devices| - 1], l, d);
      assert devices == devices[..|devices| - 1] + [devices[|devices| - 1]];
    }
  }

  /** Rewriting a row of another license leaves the rows of `l` alone. */
  lemma {:induction false} RowsOfOther(devices: seq<Device>, i: nat, d: Device, l: nat)
    requires i < |devices| && devices[i].licenseId == d.licenseId != l
    ensures RowsOf(devices[i := d], l) == RowsOf(devices, l)
  {
    var n := |devices| - 1;
    if i < n {
      RowsOfOther(devices[..n], i, d, l);
      assert devices[i := d][..n] == devices[..n][i := d];
    } else {
      assert devices[i := d][..n] == devices[..n];
    }
  }

  /** A row rewritten without becoming active never raises a license's active count. */
  lemma {:induction false} CountAfterRewrite(devices: seq<Device>, i: nat, d: Device, l: nat)
    requires i < |devices| && devices[i].licenseId == d.licenseId
    requires d.status == Active ==> devices[i].status == Active
    ensures LicenseActiveCount(devices[i := d], l) <= LicenseActiveCount(devices, l)
  {
    hide LicenseActiveCount;
    var n := |devices| - 1;
    CountOneMore(devices, l);
    CountOneMore(devices[i := d], l);
    if i < n {
      assert devices[i := d][..n] == devices[..n][i := d];
      CountAfterRewrite(devices[..n], i, d, l);
    } else {
      assert devices[i := d][..n] == devices[..n];
    }
  }

  /** The active count of a license, row by row. */
  lemma CountOneMore(devices: seq<Device>, l: nat)
    requires devices != []
    ensures var n := |devices| - 1;
            LicenseActiveCount(devices, l)
            == LicenseActiveCount(devices[..n], l)
               + if devices[n].licenseId == l && devices[n].status == Active then 1 else 0
  {
    var n := |devices| - 1;
    var rows := RowsOf(devices[..n], l);
    if devices[n].licenseId == l {
      assert RowsOf(devices, l)[..|rows|] == rows;
    } else {
      assert RowsOf(devices, l) == rows;
    }
  }

  // ---- Listing ----

  lemma {:induction false} InsertRowPermutes(d: Device, s: seq<Device>)
    ensures multiset(InsertRow(d, s)) == multiset(s) + multiset{d}
  {
    if s != [] {
      assert s == [s[0]] + s[1..];
      if !Precedes(d, s[0]) {
        InsertRowPermutes(d, s[1..]);
      }
    }
  }

  /** Sorting loses and adds nothing when every row has the listed owner. */
  lemma {:induction false} OrderedPermutes(rows: seq<Device>, userId: nat)
    requires forall i :: 0 <= i < |rows| ==> rows[i].userId == userId
    ensures multiset(Ordered(rows, userId)) == multiset(rows)
  {
    if rows != [] {
      var n := |rows| - 1;
      OrderedPermutes(rows[..n], userId);
      InsertRowPermutes(rows[n], Ordered(rows[..n], userId));
      assert rows == rows[..n] + [rows[n]];
    }
  }

  /** Row `a` may stand before row `b` in a listing: it is older, or as old with a smaller or the same id. */
  ghost predicate InOrder(a: Device, b: Device) {
    a.createdAt < b.createdAt || (a.createdAt == b.createdAt && a.id <= b.id)
  }

  ghost predicate Sorted(rows: seq<Device>) {
    forall i, j :: 0 <= i < j < |rows| ==> InOrder(rows[i], rows[j])
  }

  lemma {:induction false} InsertRowSorts(d: Device, s: seq<Device>)
    requires Sorted(s)
    ensures Sorted(InsertRow(d, s))
    ensures forall x :: x in InsertRow(d, s) ==> x == d || x in s
  {
    if s == [] || Precedes(d, s[0]) {
      assert forall k :: 0 <= k < |s| ==> InOrder(d, s[k]);
    } else {
      InsertRowSorts(d, s[1..]);
      var rest := InsertRow(d, s[1..]);
      forall k | 0 <= k < |rest| ensures InOrder(s[0], rest[k]) {
        assert rest[k] == d || rest[k] in s[1..];
      }
    }
  }

  /** A listing is ordered by creation, ties by id. */
  lemma {:induction false} OrderedIsSorted(rows: seq<Device>, userId: nat)
    ensures Sorted(Ordered(rows, userId))
  {
    hide InsertRow;
    if rows != [] {
      var n := |rows| - 1;
      OrderedIsSorted(rows[..n], userId);
      InsertRowSorts(rows[n], Ordered(rows[..n], userId));
    }
  }

  /** What the listing statement returns: exactly the license's rows. */
  lemma ListingIsComplete(cfg: Config, db: Db, session: Session)
    requires DbInv(cfg, db)
    requires session.licenseId in db.licenses && db.licenses[session.licenseId].userId == session.userId
    ensures var rows := RowsOf(db.devices, session.licenseId);
            multiset(Ordered(rows, session.userId)) == multiset(rows)
  {
    var rows := RowsOf(db.devices, session.licenseId);
    forall i | 0 <= i < |rows| ensures rows[i].userId == session.userId {
      RowsOfMember(db.devices, session.licenseId, rows[i]);
    }
    OrderedPermutes(rows, session.userId);
  }
}
