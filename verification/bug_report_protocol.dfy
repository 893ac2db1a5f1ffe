/**
 Screenshot retention and storage migration as a protocol: any number of
 cleanup and migration workers run the transactions of BugReportStore,
 interleaved with submissions, status changes, remote deletes and crashes.
 */
module BugReportProtocol {
  import opened Wrappers
  import opened BugReportStore

  // ------------------------------------------------------------ the machine

  /** Where a worker stands between two transactions. */
  datatype Task =
    | Holding(id: ReportId, claimed: Option<Locator>)
    | Deleting(id: ReportId, url: Locator)
    | Deleted(id: ReportId, url: Locator)
    | Migrating(source: Locator)
    | SourceDeleted(source: Locator)

  /**
   `begun` collects the locators whose remote delete was ever authorised and
   `erased` those whose object is gone. `accepted` and `acceptedKeys` collect
   the objects reports were stored with, `clearedKeys` the private objects
   reported deleted; `issued` and `submitted` record which report each public
   id and submission id was given to. None of these is read by a step.
   */
  datatype System = System(
    db: Db,
    tasks: map<nat, Task>,
    begun: set<Locator>,
    erased: set<Locator>,
    accepted: set<Locator>,
    acceptedKeys: set<ObjectKey>,
    clearedKeys: set<ObjectKey>,
    issued: map<string, ReportId>,
    submitted: map<string, ReportId>)

  datatype Event =
    | Insert(input: NewReport)
    | UpdateStatus(publicId: string, status: Status, now: int)
    | Claim(w: nat, id: ReportId, now: int)
    | Prepare(w: nat, now: int)
    | RemoteDelete(w: nat, confirmed: bool)
    | Finish(w: nat, now: int)
    | Migrate(w: nat, source: Locator, call: MigrationTarget)
    | MarkScreenshotDeleted(id: ReportId)
    | LateErase(u: Locator)
    | Crash(w: nat)

  const START := System(Db(map[], map[], map[]), map[], {}, {}, {}, {}, {}, map[], map[])

  /** A fresh migration target: it is not the source and no delete of it is on record. */
  predicate FreshTarget(s: System, source: Locator, target: Locator) {
    target != source && !Retired(s.db, target)
  }

  /** The environment's promises: random ids never repeat and a copy gets a fresh target. */
  predicate Allowed(s: System, e: Event) {
    match e
    case Insert(input) => input.id !in s.db.backups
    case Migrate(w, source, call) => source in s.db.migrations || FreshTarget(s, source, call.target)
    case _ => true
  }

  ghost function AfterInsert(s: System, input: NewReport): System {
    var (db, outcome) := InsertTx(s.db, input);
    if outcome != Stored then s.(db := db)
    else Recorded(s, input, db)
  }

  ghost function Recorded(s: System, input: NewReport, db: Db): System {
    s.(db := db,
       accepted := s.accepted + SetOf(input.url),
       acceptedKeys := s.acceptedKeys + SetOf(input.objectKey),
       issued := s.issued[input.publicId := input.id],
       submitted := if input.submissionId.Some? then s.submitted[input.submissionId.value := input.id] else s.submitted)
  }

  function AfterClaim(s: System, w: nat, id: ReportId, now: int): System {
    var (db, outcome) := ClaimTx(s.db, id, now);
    s.(db := db, tasks := if outcome.Claimed? then s.tasks[w := Holding(id, outcome.url)] else s.tasks)
  }

  /** The delete callback uses the claim's locator and refuses without one. */
  function AfterPrepare(s: System, w: nat, now: int): System
    requires w in s.tasks && s.tasks[w].Holding?
  {
    var t := s.tasks[w];
    var (db, outcome) := PrepareTx(s.db, t.id, now);
    if outcome.Delete? && t.claimed.Some? then
      s.(db := db, tasks := s.tasks[w := Deleting(t.id, t.claimed.value)], begun := s.begun + {t.claimed.value})
    else
      s.(db := db, tasks := s.tasks - {w})
  }

  /** Unmanaged locators are retired without a remote call; an unconfirmed delete ends the attempt. */
  function AfterRemoteDelete(s: System, w: nat, confirmed: bool): System
    requires w in s.tasks && (s.tasks[w].Deleting? || s.tasks[w].Migrating?)
  {
    var t := s.tasks[w];
    if !confirmed then s.(tasks := s.tasks - {w})
    else if t.Deleting? then
      s.(tasks := s.tasks[w := Deleted(t.id, t.url)], erased := s.erased + (if t.url.managed then {t.url} else {}))
    else
      s.(tasks := s.tasks[w := SourceDeleted(t.source)], erased := s.erased + {t.source})
  }

  function AfterMigrate(s: System, w: nat, source: Locator, call: MigrationTarget): System {
    var (db, outcome) := MigratePrepareTx(s.db, source, call);
    if outcome != Prepared then s.(db := db)
    else
      s.(db := db, tasks := s.tasks[w := Migrating(source)], begun := s.begun + {source},
         accepted := s.accepted + (if source in s.db.migrations then {} else {call.target}))
  }

  ghost function Next(s: System, e: Event): System {
    if !Allowed(s, e) then s
    else
      match e
      case Insert(input) => AfterInsert(s, input)
      case UpdateStatus(p, status, now) => s.(db := UpdateStatusTx(s.db, p, status, now).0)
      case Claim(w, id, now) => if w in s.tasks then s else AfterClaim(s, w, id, now)
      case Prepare(w, now) => if w in s.tasks && s.tasks[w].Holding? then AfterPrepare(s, w, now) else s
      case RemoteDelete(w, confirmed) =>
        if w in s.tasks && (s.tasks[w].Deleting? || s.tasks[w].Migrating?) then AfterRemoteDelete(s, w, confirmed)
          else s
      case Finish(w, now) =>
        if w in s.tasks && s.tasks[w].Deleted? then
          s.(db := CompleteTx(s.db, s.tasks[w].id, now).0, tasks := s.tasks - {w})
        else if w in s.tasks && s.tasks[w].SourceDeleted? then
          s.(db := MigrateFinishTx(s.db, s.tasks[w].source), tasks := s.tasks - {w})
        else s
      case Migrate(w, source, call) => if w in s.tasks then s else AfterMigrate(s, w, source, call)
      case MarkScreenshotDeleted(id) =>
        s.(db := MarkScreenshotDeletedTx(s.db, id), clearedKeys := s.clearedKeys + KeysOf(s.db, id))
      case LateErase(u) => if u in s.begun then s.(erased := s.erased + {u}) else s
      case Crash(w) => s.(tasks := s.tasks - {w})
  }

  function SetOf<T>(x: Option<T>): set<T> {
    if x.Some? then {x.value} else {}
  }

  function KeysOf(db: Db, id: ReportId): set<ObjectKey> {
    (if id in db.reports then SetOf(db.reports[id].objectKey) else {})
    + (if id in db.backups then SetOf(db.backups[id].objectKey) else {})
  }

  ghost function Run(s: System, events: seq<Event>): System
    decreases |events|
  {
    if events == [] then s else Run(Next(s, events[0]), events[1..])
  }

  // ---------------------------------------------------- the table invariant

  /** Something still leads to the object at `u`: a report, a retention claim or an unfinished migration. */
  ghost predicate Held(db: Db, u: Locator) {
    || (exists i :: Names(db, i, u))
    || (exists i :: Claims(db, i, u))
    || (u in db.migrations && !db.migrations[u].deleted)
  }

  ghost predicate KeyHeld(db: Db, key: ObjectKey) {
    (exists i :: HasKey(db, i, key)) || (exists i :: KeepsKey(db, i, key))
  }

  predicate OwnsPublicId(db: Db, id: ReportId, p: string) {
    HasPublicId(db, id, p) || KeepsPublicId(db, id, p)
  }

  predicate OwnsSubmission(db: Db, id: ReportId, submission: string) {
    HasSubmission(db, id, submission) || KeepsSubmission(db, id, submission)
  }

  ghost predicate RowOk(db: Db, id: ReportId)
    requires id in db.reports
  {
    var row := db.reports[id];
    && (row.url.Some? ==> !Retired(db, row.url.value) && row.objectKey.None? && id !in db.backups)
    && (row.objectKey.Some? ==> row.submissionId.Some? && !row.objectDeleted && id !in db.backups)
    && (row.scrubbed ==> row.content == SCRUBBED_CONTENT)
    && (row.scrubbed ==> id in db.backups)
  }

  predicate BackupOk(db: Db, id: ReportId)
    requires id in db.backups
  {
    var b := db.backups[id];
    && (b.snapshot.UrlOf? ==> id in db.reports && db.reports[id].scrubbed && !b.deleted)
    && (id in db.reports ==>
      && (b.snapshot.Empty? || b.snapshot.UrlOf?)
      && b.objectKey.None?
      && b.publicId == db.reports[id].publicId
      && b.submissionId == db.reports[id].submissionId)
    && (b.objectKey.Some? <==> b.snapshot.KeyOf?)
    && (b.objectKey.Some? ==>
      && b.snapshot == KeyOf(b.objectKey.value) && b.objectCreatedAt.Some?
      && !b.deleteStarted && !b.deleted)
  }

  /** One report per public id and per submission id, counting retired reports. */
  ghost predicate OneOwner(db: Db) {
    && (forall i, j, p :: OwnsPublicId(db, i, p) && OwnsPublicId(db, j, p) ==> i == j)
    && (forall i, j, x :: OwnsSubmission(db, i, x) && OwnsSubmission(db, j, x) ==> i == j)
  }

  ghost predicate DbInv(db: Db) {
    && (forall id | id in db.reports :: RowOk(db, id))
    && (forall id | id in db.backups :: BackupOk(db, id))
    && (forall u | u in db.migrations :: db.migrations[u].deleteStarted)
    && OneOwner(db)
  }

  /** What every transaction keeps, apart from the objects it releases. */
  ghost predicate Keeps(db: Db, db': Db, released: set<Locator>, releasedKeys: set<ObjectKey>) {
    && (forall u | Retired(db, u) :: Retired(db', u))
    && (forall u | Held(db, u) && u !in released :: Held(db', u))
    && (forall k | KeyHeld(db, k) && k !in releasedKeys :: KeyHeld(db', k))
    && (forall i, p | OwnsPublicId(db, i, p) :: OwnsPublicId(db', i, p))
    && (forall i, x | OwnsSubmission(db, i, x) :: OwnsSubmission(db', i, x))
    && (forall i | i in db.backups ::
          i in db'.backups && (db'.backups[i].snapshot == db.backups[i].snapshot || !db'.backups[i].snapshot.UrlOf?))
    && (forall u | u in db.migrations :: u in db'.migrations)
  }

  lemma NothingChanges(db: Db)
    ensures Keeps(db, db, {}, {})
  {
  }

  lemma InsertKeeps(db: Db, input: NewReport)
    requires DbInv(db) && input.id !in db.backups
    ensures DbInv(InsertTx(db, input).0) && Keeps(db, InsertTx(db, input).0, {}, {})
  {
    var (db', outcome) := InsertTx(db, input);
    if outcome == Stored {
      assert input.id !in db.reports;
      assert db'.reports == db.reports[input.id := RowOf(input)] && db'.backups == db.backups
        && db'.migrations == db.migrations;
      assert forall u :: Retired(db', u) <==> Retired(db, u);
      forall u | Held(db, u) ensures Held(db', u) {
        if i :| Names(db, i, u) { assert Names(db', i, u); }
        else if i :| Claims(db, i, u) { assert Claims(db', i, u); }
      }
      forall k | KeyHeld(db, k) ensures KeyHeld(db', k) {
        if i :| HasKey(db, i, k) { assert HasKey(db', i, k); }
        else { var i :| KeepsKey(db, i, k); assert KeepsKey(db', i, k); }
      }
      assert forall i, p ::
        OwnsPublicId(db', i, p) <==> OwnsPublicId(db, i, p) || (i == input.id && p == input.publicId);
      assert forall i, x ::
        OwnsSubmission(db', i, x) <==> OwnsSubmission(db, i, x) || (i == input.id && Some(x) == input.submissionId);
      assert forall i :: !OwnsPublicId(db, i, input.publicId);
      assert input.submissionId.Some? ==> forall i :: !OwnsSubmission(db, i, input.submissionId.value);
      assert OneOwner(db');
      forall id | id in db'.reports ensures RowOk(db', id) {
        if id != input.id { assert RowOk(db, id); }
      }
      forall id | id in db'.backups ensures BackupOk(db', id) { assert BackupOk(db, id); }
    }
  }

  lemma UpdateStatusKeeps(db: Db, publicId: string, status: Status, now: int)
    requires DbInv(db)
    ensures DbInv(UpdateStatusTx(db, publicId, status, now).0)
    ensures Keeps(db, UpdateStatusTx(db, publicId, status, now).0, {}, {})
    ensures
      var db' := UpdateStatusTx(db, publicId, status, now).0;
      && db'.backups == db.backups && db'.migrations == db.migrations && db'.reports.Keys == db.reports.Keys
      && forall i | i in db.reports :: db'.reports[i].url == db.reports[i].url
  {
    var (db', outcome) := UpdateStatusTx(db, publicId, status, now);
    if outcome == Updated {
      var id := PublicIdOwner(db, publicId);
      assert RowOk(db, id);
      // An unscrubbed report has no claimed locator, so its claim and URL stay as they are.
      assert ClaimedLocator(db, id) == None by {
        if id in db.backups { assert BackupOk(db, id); }
      }
      assert db'.backups == db.backups && db'.migrations == db.migrations;
      SameFootprint(db, db');
    }
  }

  /** Rows may change freely as long as ids, URLs, keys and scrub marks stay. */
  lemma SameFootprint(db: Db, db': Db)
    requires DbInv(db)
    requires db'.backups == db.backups && db'.migrations == db.migrations && db'.reports.Keys == db.reports.Keys
    requires forall i | i in db.reports :: SameRow(db.reports[i], db'.reports[i])
    ensures DbInv(db') && Keeps(db, db', {}, {})
  {
    assert forall i, u :: Names(db', i, u) == Names(db, i, u) && Claims(db', i, u) == Claims(db, i, u);
    assert forall i, k :: HasKey(db', i, k) == HasKey(db, i, k) && KeepsKey(db', i, k) == KeepsKey(db, i, k);
    assert forall i, p :: OwnsPublicId(db', i, p) == OwnsPublicId(db, i, p);
    assert forall i, x :: OwnsSubmission(db', i, x) == OwnsSubmission(db, i, x);
    assert forall u :: Retired(db', u) == Retired(db, u);
    forall id | id in db'.reports ensures RowOk(db', id) { assert RowOk(db, id); }
    forall id | id in db'.backups ensures BackupOk(db', id) { assert BackupOk(db, id); }
  }

  predicate SameRow(a: Report, b: Report) {
    && a.publicId == b.publicId && a.submissionId == b.submissionId && a.url == b.url
    && a.objectKey == b.objectKey && a.objectDeleted == b.objectDeleted
    && a.scrubbed == b.scrubbed && a.content == b.content
  }

  lemma ClaimKeeps(db: Db, id: ReportId, now: int)
    requires DbInv(db)
    ensures DbInv(ClaimTx(db, id, now).0) && Keeps(db, ClaimTx(db, id, now).0, {}, {})
  {
    var (db', outcome) := ClaimTx(db, id, now);
    if outcome == NotClaimable || outcome == BackupConflict {
      NothingChanges(db);
    } else {
      assert RowOk(db, id);
      if id in db.backups { assert BackupOk(db, id); }
      NoBackupCollides(db, id);
      if outcome == Retained { ClaimPrivateKeeps(db, id); } else { ClaimUrlKeeps(db, id); }
    }
  }

  /** The unique indexes never silently swallow a claim's backup. */
  lemma NoBackupCollides(db: Db, id: ReportId)
    requires DbInv(db) && id in db.reports
    ensures !BackupCollides(db, id, db.reports[id].publicId, db.reports[id].submissionId)
  {
    var row := db.reports[id];
    assert OwnsPublicId(db, id, row.publicId);
    if row.submissionId.Some? { assert OwnsSubmission(db, id, row.submissionId.value); }
    forall i | KeepsPublicId(db, i, row.publicId) ensures i == id { assert OwnsPublicId(db, i, row.publicId); }
    forall i | row.submissionId.Some? && KeepsSubmission(db, i, row.submissionId.value) ensures i == id {
      assert OwnsSubmission(db, i, row.submissionId.value);
    }
  }

  lemma ClaimPrivateKeeps(db: Db, id: ReportId)
    requires DbInv(db) && id in db.reports && db.reports[id].objectKey.Some?
    ensures DbInv(ClaimPrivateTx(db, id).0) && Keeps(db, ClaimPrivateTx(db, id).0, {}, {})
  {
    var db' := ClaimPrivateTx(db, id).0;
    var row := db.reports[id];
    assert RowOk(db, id) && id !in db.backups;
    NoBackupCollides(db, id);
    var b := Backup(row.publicId, row.submissionId, KeyOf(row.objectKey.value), false, false, row.objectKey,
      Some(row.createdAt));
    assert db'.reports == db.reports - {id} && db'.backups == db.backups[id := b] && db'.migrations == db.migrations;
    ReportRetired(db, db', id, b);
    assert forall i, k :: HasKey(db, i, k) && i != id ==> HasKey(db', i, k);
    assert forall i, k :: KeepsKey(db, i, k) ==> KeepsKey(db', i, k);
    assert KeepsKey(db', id, row.objectKey.value);
  }

  /** Replacing a report without URL by its first backup, which claims no locator. */
  lemma ReportRetired(db: Db, db': Db, id: ReportId, b: Backup)
    requires DbInv(db) && id in db.reports && id !in db.backups && db.reports[id].url.None?
    requires db'.reports == db.reports - {id} && db'.backups == db.backups[id := b] && db'.migrations == db.migrations
    requires b.publicId == db.reports[id].publicId && b.submissionId == db.reports[id].submissionId
    requires b.snapshot.KeyOf? && b.objectKey == Some(b.snapshot.key) && b.objectCreatedAt.Some?
    requires !b.deleteStarted && !b.deleted
    ensures DbInv(db')
    ensures forall u | Retired(db, u) :: Retired(db', u)
    ensures forall u | Held(db, u) :: Held(db', u)
    ensures forall i, p :: OwnsPublicId(db', i, p) == OwnsPublicId(db, i, p)
    ensures forall i, x :: OwnsSubmission(db', i, x) == OwnsSubmission(db, i, x)
  {
    forall i, p ensures OwnsPublicId(db', i, p) == OwnsPublicId(db, i, p) {}
    forall i, x ensures OwnsSubmission(db', i, x) == OwnsSubmission(db, i, x) {}
    assert forall u :: !Tombstone(b, u);
    assert forall u :: Retired(db', u) == Retired(db, u) by {
      forall u ensures Retired(db', u) == Retired(db, u) {
        if i :| i in db.backups && Tombstone(db.backups[i], u) {
          assert i in db'.backups && Tombstone(db'.backups[i], u);
        }
      }
    }
    forall u | Held(db, u) ensures Held(db', u) {
      if i :| Names(db, i, u) { assert Names(db', i, u); }
      else if i :| Claims(db, i, u) { assert Claims(db', i, u); }
    }
    forall i | i in db'.reports ensures RowOk(db', i) { assert RowOk(db, i); }
    forall i | i in db'.backups ensures BackupOk(db', i) { if i != id { assert BackupOk(db, i); } }
  }

  lemma ClaimUrlKeeps(db: Db, id: ReportId)
    requires DbInv(db) && id in db.reports && db.reports[id].objectKey.None?
    ensures DbInv(ClaimUrlTx(db, id).0) && Keeps(db, ClaimUrlTx(db, id).0, {}, {})
  {
    assert RowOk(db, id);
    if id in db.backups { assert BackupOk(db, id); }
    NoBackupCollides(db, id);
    ClaimedUrlMoves(db, ClaimUrlTx(db, id).0, id);
    ClaimedUrlIsClean(db, ClaimUrlTx(db, id).0, id);
  }

  /** The tables after a report without a private object was claimed. */
  predicate ClaimedUrlTables(db: Db, db': Db, id: ReportId) {
    && id in db.reports && db.reports[id].objectKey.None?
    && db'.reports == db.reports[id := ScrubbedIfNamed(db.reports[id])]
    && db'.backups == db.backups[id := ClaimedBackup(db, id)]
    && db'.migrations == db.migrations
  }

  lemma ClaimedUrlMoves(db: Db, db': Db, id: ReportId)
    requires DbInv(db) && ClaimedUrlTables(db, db', id)
    ensures Keeps(db, db', {}, {})
    ensures forall u :: Retired(db', u) == Retired(db, u)
    ensures forall i, p :: OwnsPublicId(db', i, p) == OwnsPublicId(db, i, p)
    ensures forall i, x :: OwnsSubmission(db', i, x) == OwnsSubmission(db, i, x)
  {
    assert RowOk(db, id);
    if id in db.backups { assert BackupOk(db, id); }
    forall i, p ensures OwnsPublicId(db', i, p) == OwnsPublicId(db, i, p) {}
    forall i, x ensures OwnsSubmission(db', i, x) == OwnsSubmission(db, i, x) {}
    forall u ensures Retired(db', u) == Retired(db, u) {
      if i :| i in db.backups && Tombstone(db.backups[i], u) {
        assert i in db'.backups && Tombstone(db'.backups[i], u);
      }
    }
    forall u | Held(db, u) ensures Held(db', u) {
      if i :| Names(db, i, u) { assert if i == id then Claims(db', i, u) else Names(db', i, u); }
      else if i :| Claims(db, i, u) { assert Claims(db', i, u); }
    }
    assert forall i, k :: HasKey(db', i, k) == HasKey(db, i, k) && KeepsKey(db', i, k) == KeepsKey(db, i, k);
  }

  lemma ClaimedUrlIsClean(db: Db, db': Db, id: ReportId)
    requires DbInv(db) && ClaimedUrlTables(db, db', id)
    requires forall u :: Retired(db', u) == Retired(db, u)
    requires forall i, p :: OwnsPublicId(db', i, p) == OwnsPublicId(db, i, p)
    requires forall i, x :: OwnsSubmission(db', i, x) == OwnsSubmission(db, i, x)
    ensures DbInv(db')
  {
    assert RowOk(db, id);
    if id in db.backups { assert BackupOk(db, id); }
    forall i | i in db'.reports ensures RowOk(db', i) { assert RowOk(db, i); }
    forall i | i in db'.backups ensures BackupOk(db', i) { if i != id { assert BackupOk(db, i); } }
  }

  /** Deleting a claimed report and scrubbing its backup, possibly releasing the claimed object. */
  lemma ScrubKeeps(db: Db, id: ReportId, url: Option<Locator>, finished: bool, released: set<Locator>)
    requires DbInv(db) && id in db.reports && id in db.backups
    requires url.Some? ==> finished && Claims(db, id, url.value) && db.backups[id].deleteStarted
    requires url.None? ==> !finished && !(exists u :: Tombstone(db.backups[id], u))
    requires forall u | Claims(db, id, u) :: u in released || IsNamed(db, u)
    ensures
      var db0 := if finished then db.(backups := db.backups[id := db.backups[id].(deleted := true)]) else db;
      DbInv(Scrubbed(db0, id, url)) && Keeps(db, Scrubbed(db0, id, url), released, {})
  {
    assert RowOk(db, id) && BackupOk(db, id);
    var db0 := if finished then db.(backups := db.backups[id := db.backups[id].(deleted := true)]) else db;
    var db' := Scrubbed(db0, id, url);
    var b := db'.backups[id];
    assert db'.reports == db.reports - {id} && db'.backups == db.backups[id := b] && db'.migrations == db.migrations;
    forall i, p ensures OwnsPublicId(db', i, p) == OwnsPublicId(db, i, p) {}
    forall i, x ensures OwnsSubmission(db', i, x) == OwnsSubmission(db, i, x) {}
    forall u | Retired(db, u) ensures Retired(db', u) {
      if i :| i in db.backups && Tombstone(db.backups[i], u) {
        assert i in db'.backups && Tombstone(db'.backups[i], u);
      }
    }
    forall u | Retired(db', u) ensures Retired(db, u) {
      if i :| i in db'.backups && Tombstone(db'.backups[i], u) {
        assert i in db.backups && Tombstone(db.backups[i], u);
      }
    }
    forall u | Held(db, u) && u !in released ensures Held(db', u) {
      if i :| Names(db, i, u) { assert Names(db', i, u); }
      else if i :| Claims(db, i, u) {
        if i != id { assert Claims(db', i, u); }
      }
    }
    forall k | KeyHeld(db, k) ensures KeyHeld(db', k) {
      if i :| HasKey(db, i, k) { assert HasKey(db', i, k); }
      else { var i :| KeepsKey(db, i, k); assert KeepsKey(db', i, k); }
    }
    forall i | i in db'.reports ensures RowOk(db', i) { assert RowOk(db, i); }
    forall i | i in db'.backups ensures BackupOk(db', i) { if i != id { assert BackupOk(db, i); } }
  }

  /** The first delete of a claimed locator: its tombstone appears while no report names it. */
  lemma FenceKeeps(db: Db, id: ReportId, url: Locator)
    requires DbInv(db) && id in db.reports && Claims(db, id, url) && !IsNamed(db, url)
    ensures
      var db' := db.(backups := db.backups[id := db.backups[id].(deleteStarted := true)]);
      DbInv(db') && Keeps(db, db', {}, {}) && Retired(db', url)
  {
    assert BackupOk(db, id);
    var db' := db.(backups := db.backups[id := db.backups[id].(deleteStarted := true)]);
    assert id in db'.backups && Tombstone(db'.backups[id], url);
    forall i, p ensures OwnsPublicId(db', i, p) == OwnsPublicId(db, i, p) {}
    forall i, x ensures OwnsSubmission(db', i, x) == OwnsSubmission(db, i, x) {}
    assert forall i, u :: Names(db', i, u) == Names(db, i, u) && Claims(db', i, u) == Claims(db, i, u);
    assert forall i, k :: HasKey(db', i, k) == HasKey(db, i, k) && KeepsKey(db', i, k) == KeepsKey(db, i, k);
    forall u ensures Retired(db', u) == (Retired(db, u) || u == url) {
      if i :| i in db.backups && Tombstone(db.backups[i], u) {
        assert i in db'.backups && Tombstone(db'.backups[i], u);
      }
      if i :| i in db'.backups && Tombstone(db'.backups[i], u) {
        if i != id { assert i in db.backups && Tombstone(db.backups[i], u); }
      }
    }
    forall i | i in db'.reports ensures RowOk(db', i) {
      assert RowOk(db, i);
      assert !Names(db, i, url);
    }
    forall i | i in db'.backups ensures BackupOk(db', i) { if i != id { assert BackupOk(db, i); } }
  }

  lemma PrepareKeeps(db: Db, id: ReportId, now: int)
    requires DbInv(db)
    ensures
      var (db', outcome) := PrepareTx(db, id, now);
      && DbInv(db') && Keeps(db, db', {}, {})
      && (outcome.Delete? ==> Claims(db', id, outcome.url) && Retired(db', outcome.url))
  {
    var (db', outcome) := PrepareTx(db, id, now);
    if outcome == NotPreparable || outcome == Pending {
      NothingChanges(db);
    } else {
      assert RowOk(db, id) && BackupOk(db, id);
      var url := ClaimedLocator(db, id);
      if outcome == Complete {
        ScrubKeeps(db, id, None, false, {});
      } else if db.backups[id].deleteStarted {
        assert Tombstone(db.backups[id], url.value);
        NothingChanges(db);
      } else {
        FenceKeeps(db, id, url.value);
      }
    }
  }

  /** Completion releases only the locator the claim held. */
  lemma CompleteKeeps(db: Db, id: ReportId, now: int)
    requires DbInv(db)
    ensures DbInv(CompleteTx(db, id, now).0)
    ensures Keeps(db, CompleteTx(db, id, now).0,
      if CompleteTx(db, id, now).1 then SetOf(ClaimedLocator(db, id)) else {}, {})
  {
    var (db', done) := CompleteTx(db, id, now);
    if done {
      assert RowOk(db, id) && BackupOk(db, id);
      var url := ClaimedLocator(db, id);
      ScrubKeeps(db, id, url, url.Some?, SetOf(url));
    } else {
      NothingChanges(db);
    }
  }

  /** Committing a migration: every report naming the source now names the target. */
  lemma RenameKeeps(db: Db, source: Locator, target: Locator)
    requires DbInv(db)
    requires IsNamed(db, source) ==> target != source && !Retired(db, target)
    requires source in db.migrations ==> !db.migrations[source].deleted
    ensures
      var db' := db.(reports := Renamed(db.reports, source, target),
                     migrations := db.migrations[source := Migration(target, true, false)]);
      && DbInv(db') && Keeps(db, db', {}, {})
      && (IsNamed(db, source) ==> Held(db', target))
  {
    var db' := db.(reports := Renamed(db.reports, source, target),
                   migrations := db.migrations[source := Migration(target, true, false)]);
    forall i, p ensures OwnsPublicId(db', i, p) == OwnsPublicId(db, i, p) {}
    forall i, x ensures OwnsSubmission(db', i, x) == OwnsSubmission(db, i, x) {}
    assert forall i, k :: HasKey(db', i, k) == HasKey(db, i, k) && KeepsKey(db', i, k) == KeepsKey(db, i, k);
    forall u ensures Retired(db', u) == (Retired(db, u) || u == source) {
      assert RetiredByRetention(db', u) == RetiredByRetention(db, u);
    }
    forall u | Held(db, u) ensures Held(db', u) {
      if u != source {
        if i :| Names(db, i, u) { assert Names(db', i, u); }
        else if i :| Claims(db, i, u) { assert Claims(db', i, u); }
      }
    }
    if i :| i in db.reports && Names(db, i, source) { assert Names(db', i, target); }
    forall i | i in db'.reports ensures RowOk(db', i) {
      assert RowOk(db, i);
      if Names(db, i, source) { assert IsNamed(db, source); }
    }
    forall i | i in db'.backups ensures BackupOk(db', i) { assert BackupOk(db, i); }
  }

  lemma MigratePrepareKeeps(db: Db, source: Locator, call: MigrationTarget)
    requires DbInv(db) && (source in db.migrations || (call.target != source && !Retired(db, call.target)))
    ensures
      var (db', outcome) := MigratePrepareTx(db, source, call);
      && DbInv(db') && Keeps(db, db', {}, {})
      && (outcome == Prepared ==> Retired(db', source) && source in db'.migrations)
      && (outcome == Prepared && source !in db.migrations ==> Held(db', call.target))
  {
    var (db', outcome) := MigratePrepareTx(db, source, call);
    if outcome != Prepared {
      NothingChanges(db);
    } else {
      // Reports can still name the source only on the first attempt.
      forall i | i in db.reports ensures source in db.migrations ==> !Names(db, i, source) {
        assert RowOk(db, i);
      }
      RenameKeeps(db, source, db'.migrations[source].target);
    }
  }

  lemma MigrateFinishKeeps(db: Db, source: Locator)
    requires DbInv(db)
    ensures DbInv(MigrateFinishTx(db, source)) && Keeps(db, MigrateFinishTx(db, source), {source}, {})
  {
    var db' := MigrateFinishTx(db, source);
    assert db'.reports == db.reports && db'.backups == db.backups;
    assert forall i, u :: Names(db', i, u) == Names(db, i, u) && Claims(db', i, u) == Claims(db, i, u);
    assert forall i, k :: HasKey(db', i, k) == HasKey(db, i, k) && KeepsKey(db', i, k) == KeepsKey(db, i, k);
    forall i, p ensures OwnsPublicId(db', i, p) == OwnsPublicId(db, i, p) {}
    forall i, x ensures OwnsSubmission(db', i, x) == OwnsSubmission(db, i, x) {}
    assert forall u :: Retired(db', u) == Retired(db, u);
    forall i | i in db'.reports ensures RowOk(db', i) { assert RowOk(db, i); }
    forall i | i in db'.backups ensures BackupOk(db', i) { assert BackupOk(db, i); }
  }

  lemma MarkScreenshotDeletedKeeps(db: Db, id: ReportId)
    requires DbInv(db)
    ensures DbInv(MarkScreenshotDeletedTx(db, id))
    ensures Keeps(db, MarkScreenshotDeletedTx(db, id), {}, KeysOf(db, id))
  {
    var db' := MarkScreenshotDeletedTx(db, id);
    if id in db.backups { assert BackupOk(db, id); }
    forall i, p ensures OwnsPublicId(db', i, p) == OwnsPublicId(db, i, p) {}
    forall i, x ensures OwnsSubmission(db', i, x) == OwnsSubmission(db, i, x) {}
    assert forall i, u :: Names(db', i, u) == Names(db, i, u) && Claims(db', i, u) == Claims(db, i, u);
    forall u ensures Retired(db', u) == Retired(db, u) {
      if i :| i in db.backups && Tombstone(db.backups[i], u) {
        assert i in db'.backups && Tombstone(db'.backups[i], u);
      }
      if i :| i in db'.backups && Tombstone(db'.backups[i], u) {
        assert i in db.backups && Tombstone(db.backups[i], u);
      }
    }
    forall k | KeyHeld(db, k) && k !in KeysOf(db, id) ensures KeyHeld(db', k) {
      if i :| HasKey(db, i, k) { assert HasKey(db', i, k); }
      else { var i :| KeepsKey(db, i, k); assert KeepsKey(db', i, k); }
    }
    forall i | i in db'.reports ensures RowOk(db', i) { assert RowOk(db, i); }
    forall i | i in db'.backups ensures BackupOk(db', i) { assert BackupOk(db, i); }
  }

  // ---------------------------------------------------- the system invariant

  /** A worker's locator is still the claim's own, or the claim holds no locator any more. */
  predicate ClaimAgrees(db: Db, id: ReportId, url: Option<Locator>) {
    id in db.backups && (db.backups[id].snapshot.UrlOf? ==> Some(db.backups[id].snapshot.url) == url)
  }

  ghost predicate TaskOk(s: System, t: Task) {
    match t
    case Holding(id, claimed) => ClaimAgrees(s.db, id, claimed)
    case Deleting(id, url) => ClaimAgrees(s.db, id, Some(url)) && url in s.begun
    case Deleted(id, url) => ClaimAgrees(s.db, id, Some(url)) && (url.managed ==> url in s.erased)
    case Migrating(source) => source in s.db.migrations && source in s.begun
    case SourceDeleted(source) => source in s.db.migrations && source in s.erased
  }

  ghost predicate SystemInv(s: System) {
    && DbInv(s.db)
    && (forall w | w in s.tasks :: TaskOk(s, s.tasks[w]))
    && (forall u | u in s.begun :: Retired(s.db, u))
    && s.erased <= s.begun
    && (forall u | u in s.accepted && u.managed && u !in s.erased :: Held(s.db, u))
    && (forall k | k in s.acceptedKeys && k !in s.clearedKeys :: KeyHeld(s.db, k))
    && (forall p | p in s.issued :: OwnsPublicId(s.db, s.issued[p], p))
    && (forall x | x in s.submitted :: OwnsSubmission(s.db, s.submitted[x], x))
  }

  /** Carrying the tables' step over to the system when the histories stay put. */
  lemma Lift(s: System, s': System, released: set<Locator>, releasedKeys: set<ObjectKey>)
    requires SystemInv(s) && DbInv(s'.db) && Keeps(s.db, s'.db, released, releasedKeys)
    requires s'.begun >= s.begun && s'.erased >= s.erased && s'.clearedKeys >= s.clearedKeys + releasedKeys
    requires s'.accepted >= s.accepted
    requires forall u | u in released && u.managed :: u in s'.erased
    ensures forall t | TaskOk(s, t) :: TaskOk(s', t)
    ensures forall u | u in s.begun :: Retired(s'.db, u)
    ensures forall u | u in s.accepted && u.managed && u !in s'.erased :: Held(s'.db, u)
    ensures forall k | k in s.acceptedKeys && k !in s'.clearedKeys :: KeyHeld(s'.db, k)
    ensures forall p | p in s.issued :: OwnsPublicId(s'.db, s.issued[p], p)
    ensures forall x | x in s.submitted :: OwnsSubmission(s'.db, s.submitted[x], x)
  {
  }

  lemma InsertStep(s: System, input: NewReport)
    requires SystemInv(s) && input.id !in s.db.backups
    ensures SystemInv(AfterInsert(s, input))
  {
    var (db, outcome) := InsertTx(s.db, input);
    InsertKeeps(s.db, input);
    if outcome == Stored {
      StoredIsRecorded(s.db, input);
      RecordStored(s, input, db);
    } else {
      Lift(s, AfterInsert(s, input), {}, {});
    }
  }

  lemma StoredIsRecorded(db: Db, input: NewReport)
    requires InsertTx(db, input).1 == Stored
    ensures
      var db' := InsertTx(db, input).0;
      && OwnsPublicId(db', input.id, input.publicId)
      && (input.submissionId.Some? ==> OwnsSubmission(db', input.id, input.submissionId.value))
      && (input.url.Some? ==> Held(db', input.url.value))
      && (input.objectKey.Some? ==> KeyHeld(db', input.objectKey.value))
  {
    var db' := InsertTx(db, input).0;
    assert input.url.Some? ==> Names(db', input.id, input.url.value);
    assert input.objectKey.Some? ==> HasKey(db', input.id, input.objectKey.value);
  }

  /** Entering an accepted report into the histories. */
  lemma RecordStored(s: System, input: NewReport, db: Db)
    requires SystemInv(s) && DbInv(db) && Keeps(s.db, db, {}, {})
    requires OwnsPublicId(db, input.id, input.publicId)
    requires input.submissionId.Some? ==> OwnsSubmission(db, input.id, input.submissionId.value)
    requires input.url.Some? ==> Held(db, input.url.value)
    requires input.objectKey.Some? ==> KeyHeld(db, input.objectKey.value)
    ensures SystemInv(Recorded(s, input, db))
  {
    Lift(s, Recorded(s, input, db), {}, {});
  }

  lemma ClaimStep(s: System, w: nat, id: ReportId, now: int)
    requires SystemInv(s)
    ensures SystemInv(AfterClaim(s, w, id, now))
  {
    var (db, outcome) := ClaimTx(s.db, id, now);
    ClaimKeeps(s.db, id, now);
    Lift(s, AfterClaim(s, w, id, now), {}, {});
    if outcome.Claimed? {
      NoBackupCollides(s.db, id);
      if id in s.db.backups { assert BackupOk(s.db, id); }
      assert ClaimAgrees(db, id, outcome.url);
    }
  }

  lemma PrepareStep(s: System, w: nat, now: int)
    requires SystemInv(s) && w in s.tasks && s.tasks[w].Holding?
    ensures SystemInv(AfterPrepare(s, w, now))
  {
    assert TaskOk(s, s.tasks[w]);
    PrepareKeeps(s.db, s.tasks[w].id, now);
    Lift(s, AfterPrepare(s, w, now), {}, {});
  }

  lemma RemoteDeleteStep(s: System, w: nat, confirmed: bool)
    requires SystemInv(s) && w in s.tasks && (s.tasks[w].Deleting? || s.tasks[w].Migrating?)
    ensures SystemInv(AfterRemoteDelete(s, w, confirmed))
  {
    assert TaskOk(s, s.tasks[w]);
    NothingChanges(s.db);
    Lift(s, AfterRemoteDelete(s, w, confirmed), {}, {});
  }

  lemma FinishStep(s: System, w: nat, now: int)
    requires SystemInv(s)
    ensures SystemInv(Next(s, Finish(w, now)))
  {
    if w in s.tasks && s.tasks[w].Deleted? {
      RetentionEnds(s, w, s.tasks[w].id, s.tasks[w].url, now);
    } else if w in s.tasks && s.tasks[w].SourceDeleted? {
      assert TaskOk(s, s.tasks[w]);
      MigrateFinishKeeps(s.db, s.tasks[w].source);
      TaskEnds(s, w, MigrateFinishTx(s.db, s.tasks[w].source), {s.tasks[w].source});
    }
  }

  lemma RetentionEnds(s: System, w: nat, id: ReportId, url: Locator, now: int)
    requires SystemInv(s) && w in s.tasks && s.tasks[w] == Deleted(id, url)
    ensures SystemInv(s.(db := CompleteTx(s.db, id, now).0, tasks := s.tasks - {w}))
  {
    assert TaskOk(s, s.tasks[w]);
    CompleteKeeps(s.db, id, now);
    TaskEnds(s, w, CompleteTx(s.db, id, now).0,
      if CompleteTx(s.db, id, now).1 then SetOf(ClaimedLocator(s.db, id)) else {});
  }

  /** A task's last transaction, which may release objects that are gone. */
  lemma TaskEnds(s: System, w: nat, db: Db, released: set<Locator>)
    requires SystemInv(s) && DbInv(db) && Keeps(s.db, db, released, {})
    requires forall u | u in released && u.managed :: u in s.erased
    ensures SystemInv(s.(db := db, tasks := s.tasks - {w}))
  {
    Lift(s, s.(db := db, tasks := s.tasks - {w}), released, {});
  }

  lemma MigrateStep(s: System, w: nat, source: Locator, call: MigrationTarget)
    requires SystemInv(s) && (source in s.db.migrations || FreshTarget(s, source, call.target))
    ensures SystemInv(AfterMigrate(s, w, source, call))
  {
    MigratePrepareKeeps(s.db, source, call);
    if MigratePrepareTx(s.db, source, call).1 == Prepared {
      RecordMigration(s, w, source, MigratePrepareTx(s.db, source, call).0,
                      if source in s.db.migrations then {} else {call.target});
    } else {
      Lift(s, AfterMigrate(s, w, source, call), {}, {});
    }
  }

  /** Entering a prepared migration into the histories. */
  lemma RecordMigration(s: System, w: nat, source: Locator, db: Db, accepted: set<Locator>)
    requires SystemInv(s) && DbInv(db) && Keeps(s.db, db, {}, {})
    requires Retired(db, source) && source in db.migrations && forall u | u in accepted :: Held(db, u)
    ensures SystemInv(s.(db := db, tasks := s.tasks[w := Migrating(source)], begun := s.begun + {source},
                         accepted := s.accepted + accepted))
  {
    Lift(s, s.(db := db, tasks := s.tasks[w := Migrating(source)], begun := s.begun + {source},
               accepted := s.accepted + accepted), {}, {});
  }

  lemma NextKeepsInv(s: System, e: Event)
    requires SystemInv(s)
    ensures SystemInv(Next(s, e))
  {
    if Allowed(s, e) {
      match e
      case Insert(input) => InsertStep(s, input);
      case UpdateStatus(p, status, now) =>
        UpdateStatusKeeps(s.db, p, status, now);
        Lift(s, Next(s, e), {}, {});
      case Claim(w, id, now) => ClaimStep(s, w, id, now);
      case Prepare(w, now) => if w in s.tasks && s.tasks[w].Holding? { PrepareStep(s, w, now); }
      case RemoteDelete(w, confirmed) =>
        if w in s.tasks && (s.tasks[w].Deleting? || s.tasks[w].Migrating?) { RemoteDeleteStep(s, w, confirmed); }
      case Finish(w, now) => FinishStep(s, w, now);
      case Migrate(w, source, call) => MigrateStep(s, w, source, call);
      case MarkScreenshotDeleted(id) =>
        MarkScreenshotDeletedKeeps(s.db, id);
        Lift(s, Next(s, e), {}, KeysOf(s.db, id));
      case LateErase(u) =>
        NothingChanges(s.db);
        Lift(s, Next(s, e), {}, {});
      case Crash(w) =>
        NothingChanges(s.db);
        Lift(s, Next(s, e), {}, {});
    }
  }

  lemma {:induction false} RunKeepsInv(s: System, events: seq<Event>)
    requires SystemInv(s)
    ensures SystemInv(Run(s, events))
    decreases |events|
  {
    if events != [] {
      NextKeepsInv(s, events[0]);
      RunKeepsInv(Next(s, events[0]), events[1..]);
    }
  }

  // ------------------------------------------------------------ the theorems

  /** In every reachable state no live report shows a locator whose remote delete was ever authorised. */
  lemma NoReportNamesABegunDelete(events: seq<Event>, id: ReportId)
    ensures
      var s := Run(START, events);
      id in s.db.reports && s.db.reports[id].url.Some? ==> s.db.reports[id].url.value !in s.begun + s.erased
  {
    RunKeepsInv(START, events);
    var s := Run(START, events);
    if id in s.db.reports { assert RowOk(s.db, id); }
  }

  /** In every reachable state something still leads to each accepted object that was not deleted. */
  lemma NoScreenshotIsOrphaned(events: seq<Event>, u: Locator)
    ensures
      var s := Run(START, events);
      u in s.accepted && u.managed && u !in s.erased ==>
        || (exists i :: Names(s.db, i, u))
        || (exists i :: Claims(s.db, i, u) && i in s.db.reports && s.db.reports[i].scrubbed)
        || (u in s.db.migrations && !s.db.migrations[u].deleted)
  {
    RunKeepsInv(START, events);
    var s := Run(START, events);
    if i :| Claims(s.db, i, u) { assert BackupOk(s.db, i); }
  }

  /** The same for private object keys: a live report or the retention inventory keeps the exact key. */
  lemma NoPrivateScreenshotIsOrphaned(events: seq<Event>, key: ObjectKey)
    ensures
      var s := Run(START, events);
      key in s.acceptedKeys && key !in s.clearedKeys ==>
        (exists i :: HasKey(s.db, i, key)) || (exists i :: KeepsKey(s.db, i, key) && !s.db.backups[i].deleted)
  {
    RunKeepsInv(START, events);
    var s := Run(START, events);
    if i :| KeepsKey(s.db, i, key) { assert BackupOk(s.db, i); }
  }

  /** A claim that holds a locator can always be retried: preparing it deletes the object or retires the report. */
  lemma ClaimedScreenshotCanBeRetried(events: seq<Event>, id: ReportId, u: Locator, now: int)
    ensures
      var s := Run(START, events);
      Claims(s.db, id, u) ==>
        id in s.db.reports
        && (s.db.reports[id].expiresAt <= now ==>
             PrepareTx(s.db, id, now).1 == (if IsNamed(s.db, u) && !s.db.backups[id].deleteStarted then Complete
               else Delete(u)))
  {
    RunKeepsInv(START, events);
    var s := Run(START, events);
    if Claims(s.db, id, u) { assert BackupOk(s.db, id); }
  }

  /**
   From any reachable state with a claimed locator one worker's attempt retires the report: the object is erased, or
   another report still shows it.
   */
  lemma ClaimedScreenshotCanBeDeleted(events: seq<Event>, id: ReportId, u: Locator, w: nat)
    returns (attempt: seq<Event>)
    requires Claims(Run(START, events).db, id, u) && w !in Run(START, events).tasks
    ensures forall e | e in attempt :: (e.Claim? || e.Prepare? || e.RemoteDelete? || e.Finish?) && e.w == w
    ensures
      var t := Run(Run(START, events), attempt);
      && id !in t.db.reports && !Claims(t.db, id, u)
      && ((u.managed ==> u in t.erased) || IsNamed(t.db, u))
  {
    var s := Run(START, events);
    RunKeepsInv(START, events);
    assert BackupOk(s.db, id) && RowOk(s.db, id);
    var now := s.db.reports[id].expiresAt;
    attempt := [Claim(w, id, now), Prepare(w, now), RemoteDelete(w, true), Finish(w, now)];
    var s1 := Next(s, Claim(w, id, now));
    ReclaimHolds(s, id, u, w, now);
    PreparedAttemptRetires(s1, id, u, w, now);
    FourSteps(s, attempt);
  }

  /**
   From any reachable state with an unfinished migration one worker's retry erases the source, which no report names by
   then.
   */
  lemma UnfinishedMigrationCanBeFinished(events: seq<Event>, source: Locator, w: nat) returns (attempt: seq<Event>)
    requires var s := Run(START, events);
      source in s.db.migrations && !s.db.migrations[source].deleted && w !in s.tasks
    ensures forall e | e in attempt :: (e.Migrate? || e.RemoteDelete? || e.Finish?) && e.w == w
    ensures
      var t := Run(Run(START, events), attempt);
      source in t.erased && source in t.db.migrations && t.db.migrations[source].deleted && !IsNamed(t.db, source)
  {
    var s := Run(START, events);
    RunKeepsInv(START, events);
    var call := Durable(s.db.migrations[source].target);
    attempt := [Migrate(w, source, call), RemoteDelete(w, true), Finish(w, 0)];
    RetriedMigrationIsPrepared(s, source, w);
    PreparedMigrationFinishes(Next(s, Migrate(w, source, call)), source, w);
    ThreeSteps(s, attempt);
  }

  lemma PreparedMigrationFinishes(s: System, source: Locator, w: nat)
    requires w in s.tasks && s.tasks[w] == Migrating(source) && !IsNamed(s.db, source)
    requires source in s.db.migrations && s.db.migrations[source].deleteStarted && !s.db.migrations[source].deleted
    ensures
      var t := Next(Next(s, RemoteDelete(w, true)), Finish(w, 0));
      source in t.erased && source in t.db.migrations && t.db.migrations[source].deleted && !IsNamed(t.db, source)
  {
    var s1 := Next(s, RemoteDelete(w, true));
    assert s1.tasks[w] == SourceDeleted(source) && s1.db == s.db;
    var t := Next(s1, Finish(w, 0));
    forall i | i in t.db.reports ensures !Names(t.db, i, source) { assert !Names(s.db, i, source); }
  }

  lemma ThreeSteps(s: System, events: seq<Event>)
    requires |events| == 3
    ensures Run(s, events) == Next(Next(Next(s, events[0]), events[1]), events[2])
  {
    var s1 := Next(s, events[0]);
    var s2 := Next(s1, events[1]);
    assert events[1..][1..] == events[2..] && events[2..][1..] == [];
    assert Run(s2, events[2..]) == Run(Next(s2, events[2]), []);
    assert Run(s1, events[1..]) == Run(s2, events[2..]);
  }

  lemma RetriedMigrationIsPrepared(s: System, source: Locator, w: nat)
    requires SystemInv(s) && w !in s.tasks
    requires source in s.db.migrations && !s.db.migrations[source].deleted
    ensures
      var s1 := Next(s, Migrate(w, source, Durable(s.db.migrations[source].target)));
      && w in s1.tasks && s1.tasks[w] == Migrating(source) && !IsNamed(s1.db, source)
      && s1.db.migrations == s.db.migrations && s.db.migrations[source].deleteStarted
  {
    // The fence of the first attempt keeps every report off the source.
    assert Retired(s.db, source);
    forall i | i in s.db.reports ensures !Names(s.db, i, source) { assert RowOk(s.db, i); }
    var db := MigratePrepareTx(s.db, source, Durable(s.db.migrations[source].target)).0;
    assert db.reports == s.db.reports && db.migrations == s.db.migrations;
  }

  /** Claiming a claimed report again hands out the same locator and changes no table. */
  lemma ReclaimHolds(s: System, id: ReportId, u: Locator, w: nat, now: int)
    requires SystemInv(s) && Claims(s.db, id, u) && w !in s.tasks
    requires id in s.db.reports && s.db.reports[id].expiresAt <= now
    ensures Next(s, Claim(w, id, now)) == s.(tasks := s.tasks[w := Holding(id, Some(u))])
  {
    assert BackupOk(s.db, id) && RowOk(s.db, id);
    var (db, outcome) := ClaimTx(s.db, id, now);
    assert outcome == Claimed(Some(u));
    assert db.reports == s.db.reports && db.backups == s.db.backups && db.migrations == s.db.migrations;
  }

  lemma PreparedAttemptRetires(s: System, id: ReportId, u: Locator, w: nat, now: int)
    requires DbInv(s.db) && Claims(s.db, id, u) && w in s.tasks && s.tasks[w] == Holding(id, Some(u))
    requires id in s.db.reports && s.db.reports[id].expiresAt <= now
    ensures
      var t := Next(Next(Next(s, Prepare(w, now)), RemoteDelete(w, true)), Finish(w, now));
      && id !in t.db.reports && !Claims(t.db, id, u)
      && ((u.managed ==> u in t.erased) || IsNamed(t.db, u))
  {
    assert BackupOk(s.db, id);
    var s1 := Next(s, Prepare(w, now));
    if PrepareTx(s.db, id, now).1 == Complete {
      var i :| i in s.db.reports && Names(s.db, i, u);
      assert RowOk(s.db, id);
      assert Names(s1.db, i, u);
    } else {
      assert s1.tasks[w] == Deleting(id, u) && s1.db.backups[id].deleteStarted && Claims(s1.db, id, u);
      FencedAttemptErases(s1, id, u, w, now);
    }
  }

  lemma FencedAttemptErases(s: System, id: ReportId, u: Locator, w: nat, now: int)
    requires Claims(s.db, id, u) && s.db.backups[id].deleteStarted && w in s.tasks && s.tasks[w] == Deleting(id, u)
    requires id in s.db.reports && s.db.reports[id].expiresAt <= now
    ensures
      var t := Next(Next(s, RemoteDelete(w, true)), Finish(w, now));
      id !in t.db.reports && !Claims(t.db, id, u) && (u.managed ==> u in t.erased)
  {
    var s1 := Next(s, RemoteDelete(w, true));
    assert s1.tasks[w] == Deleted(id, u) && s1.db == s.db;
  }

  /** Once its delete was authorised, a locator is refused for every new submission. */
  lemma BegunLocatorIsNeverAccepted(events: seq<Event>, input: NewReport)
    requires input.url.Some? && input.url.value in Run(START, events).begun
    ensures InsertTx(Run(START, events).db, input).1 != Stored
  {
    RunKeepsInv(START, events);
  }

  /** A public id or submission id is given to at most one report, ever. */
  lemma IdsAreNeverReissued(events: seq<Event>, input: NewReport)
    ensures
      var s := Run(START, events);
      InsertTx(s.db, input).1 == Stored ==>
        input.publicId !in s.issued && (input.submissionId.Some? ==> input.submissionId.value !in s.submitted)
  {
    RunKeepsInv(START, events);
    var s := Run(START, events);
    if input.publicId in s.issued { assert OwnsPublicId(s.db, s.issued[input.publicId], input.publicId); }
    if input.submissionId.Some? && input.submissionId.value in s.submitted {
      assert OwnsSubmission(s.db, s.submitted[input.submissionId.value], input.submissionId.value);
    }
  }

  /** What the tables remember of an accepted submission: its row as it was sent, or a retired id. */
  predicate Remembers(s: System, input: NewReport) {
    && input.submissionId.Some? && input.submissionId.value in s.submitted
    && s.submitted[input.submissionId.value] == input.id
    && (input.id in s.db.reports ==>
          s.db.reports[input.id].submissionId == input.submissionId
            && s.db.reports[input.id].requestHash == input.requestHash)
  }

  /** No transaction but an insert adds a report, and none changes a report's submission id or request hash. */
  predicate SameSubmissions(db: Db, db': Db) {
    forall i | i in db'.reports ::
      i in db.reports && db'.reports[i].submissionId == db.reports[i].submissionId
      && db'.reports[i].requestHash == db.reports[i].requestHash
  }

  lemma InsertRemembers(s: System, other: NewReport, input: NewReport)
    requires SystemInv(s) && Remembers(s, input) && other.id !in s.db.backups
    ensures Remembers(AfterInsert(s, other), input)
  {
    var x := input.submissionId.value;
    assert OwnsSubmission(s.db, input.id, x);
    if InsertTx(s.db, other).1 == Stored {
      // The submission id is taken, and a retired report's id is in the backups.
      assert other.submissionId != Some(x);
      assert input.id in s.db.reports || KeepsSubmission(s.db, input.id, x);
    }
  }

  lemma ClaimSameSubmissions(db: Db, id: ReportId, now: int)
    ensures SameSubmissions(db, ClaimTx(db, id, now).0)
  {
  }

  lemma DeleteSameSubmissions(db: Db, id: ReportId, now: int)
    ensures SameSubmissions(db, PrepareTx(db, id, now).0) && SameSubmissions(db, CompleteTx(db, id, now).0)
  {
  }

  lemma MigrateSameSubmissions(db: Db, source: Locator, call: MigrationTarget)
    ensures SameSubmissions(db, MigratePrepareTx(db, source, call).0)
      && SameSubmissions(db, MigrateFinishTx(db, source))
  {
  }

  lemma StatusSameSubmissions(db: Db, p: string, status: Status, now: int)
    ensures SameSubmissions(db, UpdateStatusTx(db, p, status, now).0)
  {
  }

  lemma CleanupSameSubmissions(s: System, e: Event)
    requires e.Claim? || e.Prepare? || e.Finish?
    ensures SameSubmissions(s.db, Next(s, e).db) && Next(s, e).submitted == s.submitted
  {
    match e
    case Claim(w, id, now) => ClaimSameSubmissions(s.db, id, now);
    case Prepare(w, now) => if w in s.tasks && s.tasks[w].Holding? { DeleteSameSubmissions(s.db, s.tasks[w].id, now); }
    case Finish(w, now) =>
      if w in s.tasks && s.tasks[w].Deleted? { DeleteSameSubmissions(s.db, s.tasks[w].id, now); }
      else if w in s.tasks && s.tasks[w].SourceDeleted? {
        MigrateSameSubmissions(s.db, s.tasks[w].source, Durable(s.tasks[w].source));
      }
  }

  lemma OtherSameSubmissions(s: System, e: Event)
    requires !e.Insert? && !e.Claim? && !e.Prepare? && !e.Finish?
    ensures SameSubmissions(s.db, Next(s, e).db) && Next(s, e).submitted == s.submitted
  {
    match e
    case UpdateStatus(p, status, now) => StatusSameSubmissions(s.db, p, status, now);
    case Migrate(w, source, call) => MigrateSameSubmissions(s.db, source, call);
    case _ =>
  }

  lemma SameSubmissionsRemember(s: System, s': System, input: NewReport)
    requires Remembers(s, input) && SameSubmissions(s.db, s'.db) && s'.submitted == s.submitted
    ensures Remembers(s', input)
  {
  }

  lemma NextRemembers(s: System, e: Event, input: NewReport)
    requires SystemInv(s) && Remembers(s, input)
    ensures Remembers(Next(s, e), input)
  {
    if e.Insert? {
      if Allowed(s, e) { InsertRemembers(s, e.input, input); }
    } else {
      if e.Claim? || e.Prepare? || e.Finish? { CleanupSameSubmissions(s, e); } else { OtherSameSubmissions(s, e); }
      SameSubmissionsRemember(s, Next(s, e), input);
    }
  }

  lemma {:induction false} RunRemembers(s: System, events: seq<Event>, input: NewReport)
    requires SystemInv(s) && Remembers(s, input)
    ensures SystemInv(Run(s, events)) && Remembers(Run(s, events), input)
    decreases |events|
  {
    if events != [] {
      NextKeepsInv(s, events[0]);
      NextRemembers(s, events[0], input);
      RunRemembers(Next(s, events[0]), events[1..], input);
    }
  }

  /**
   A remembered submission changes no table and is answered by its own report, or refused once that report is retired.
   */
  lemma RetryIsAnswered(s: System, input: NewReport, retry: NewReport)
    requires SystemInv(s) && Remembers(s, input) && retry.submissionId == input.submissionId
    ensures InsertTx(s.db, retry).0 == s.db
    ensures
      if input.id in s.db.reports then
        InsertTx(s.db, retry).1 == (if retry.requestHash == input.requestHash then Repeated(input.id)
          else SubmissionIdReused)
      else InsertTx(s.db, retry).1 in {PublicIdRetired, SubmissionRetired}
  {
    var x := input.submissionId.value;
    assert OwnsSubmission(s.db, input.id, x);
    forall i | HasSubmission(s.db, i, x) ensures i == input.id && i in s.db.reports {
      assert OwnsSubmission(s.db, i, x);
    }
    if input.id in s.db.reports {
      assert HasSubmission(s.db, input.id, x);
    } else {
      assert input.id in s.db.backups && KeepsSubmission(s.db, input.id, x);
    }
  }

  /**
   Whatever happened since the submission was stored, a retry changes nothing and is answered for that very report.
   */
  lemma RetriedSubmissionIsIdempotent(events: seq<Event>, input: NewReport, later: seq<Event>, retry: NewReport)
    requires var s := Run(START, events); Allowed(s, Insert(input)) && InsertTx(s.db, input).1 == Stored
    requires input.submissionId.Some? && retry.submissionId == input.submissionId
    ensures
      var t := Run(Next(Run(START, events), Insert(input)), later);
      && InsertTx(t.db, retry).0 == t.db
      && (if input.id in t.db.reports then
            InsertTx(t.db, retry).1 == (if retry.requestHash == input.requestHash then Repeated(input.id)
              else SubmissionIdReused)
          else InsertTx(t.db, retry).1 in {PublicIdRetired, SubmissionRetired})
  {
    var s := Run(START, events);
    RunKeepsInv(START, events);
    NextKeepsInv(s, Insert(input));
    RunRemembers(Next(s, Insert(input)), later, input);
    RetryIsAnswered(Run(Next(s, Insert(input)), later), input, retry);
  }

  /** A report whose locator was claimed keeps no text, identity, entry or diagnostics. */
  lemma ClaimedReportIsScrubbed(events: seq<Event>, id: ReportId, u: Locator)
    ensures
      var s := Run(START, events);
      Claims(s.db, id, u) ==>
        id in s.db.reports && s.db.reports[id].content == SCRUBBED_CONTENT && s.db.reports[id].url == None
  {
    RunKeepsInv(START, events);
    var s := Run(START, events);
    if Claims(s.db, id, u) { assert BackupOk(s.db, id) && RowOk(s.db, id); }
  }

  /** A first migration is safe exactly when its target carries no delete record: the freshness every run assumes. */
  lemma MigrationIsSafeIffTargetIsFresh(events: seq<Event>, source: Locator, call: MigrationTarget)
    requires source !in Run(START, events).db.migrations
    requires MigratePrepareTx(Run(START, events).db, source, call).1 == Prepared
    ensures
      var db := Run(START, events).db;
      var db' := MigratePrepareTx(db, source, call).0;
      (forall i, u :: Names(db', i, u) ==> !Retired(db', u)) <==> !Retired(db, call.target)
  {
    RunKeepsInv(START, events);
    var db := Run(START, events).db;
    if Retired(db, call.target) {
      RetiredTargetIsNamed(db, source, call);
    } else {
      MigratePrepareKeeps(db, source, call);
      NamedIsNotRetired(MigratePrepareTx(db, source, call).0);
    }
  }

  lemma RetiredTargetIsNamed(db: Db, source: Locator, call: MigrationTarget)
    requires source !in db.migrations && MigratePrepareTx(db, source, call).1 == Prepared && Retired(db, call.target)
    ensures var db' := MigratePrepareTx(db, source, call).0;
      Retired(db', call.target) && exists i :: Names(db', i, call.target)
  {
    var db' := MigratePrepareTx(db, source, call).0;
    var i :| i in db.reports && Names(db, i, source);
    assert Names(db', i, call.target);
    if j :| j in db.backups && Tombstone(db.backups[j], call.target) {
      assert j in db'.backups && Tombstone(db'.backups[j], call.target);
    }
  }

  lemma NamedIsNotRetired(db: Db)
    requires DbInv(db)
    ensures forall i, u :: Names(db, i, u) ==> !Retired(db, u)
  {
    forall i, u | Names(db, i, u) ensures !Retired(db, u) { assert RowOk(db, i); }
  }

  const OLD_SHOT := Locator("old", true, true)
  const NEW_SHOT := Locator("new", true, true)

  function PlainReport(id: ReportId, publicId: string, url: Locator): NewReport {
    NewReport(id, publicId, None, "", Content("", None, None, ""), 0, 0, Some(url), None)
  }

  const FIRST := PlainReport(0, "a", OLD_SHOT)
  const SECOND := PlainReport(1, "b", NEW_SHOT)
  const OLD_CLAIM := Backup("a", None, UrlOf(OLD_SHOT), false, false, None, None)

  lemma FirstIsStored()
    ensures Next(START, Insert(FIRST)).db == Db(map[0 := RowOf(FIRST)], map[], map[])
    ensures Next(START, Insert(FIRST)).tasks == map[]
  {
    assert NewReportOutcome(START.db, FIRST) == Stored;
  }

  lemma FirstIsClaimed(s: System)
    requires s.db == Db(map[0 := RowOf(FIRST)], map[], map[]) && s.tasks == map[]
    ensures Next(s, Claim(7, 0, 0)).db == Db(map[0 := ScrubbedIfNamed(RowOf(FIRST))], map[0 := OLD_CLAIM], map[])
    ensures Next(s, Claim(7, 0, 0)).tasks == map[7 := Holding(0, Some(OLD_SHOT))]
  {
  }

  lemma FirstIsFenced(s: System)
    requires s.db == Db(map[0 := ScrubbedIfNamed(RowOf(FIRST))], map[0 := OLD_CLAIM], map[])
    requires s.tasks == map[7 := Holding(0, Some(OLD_SHOT))]
    ensures Next(s, Prepare(7, 0)).db == s.db.(backups := map[0 := OLD_CLAIM.(deleteStarted := true)])
    ensures OLD_SHOT in Next(s, Prepare(7, 0)).begun
  {
    assert PrepareTx(s.db, 0, 0).1 == Delete(OLD_SHOT);
  }

  lemma SecondIsStored(s: System)
    requires s.db == Db(map[0 := ScrubbedIfNamed(RowOf(FIRST))], map[0 := OLD_CLAIM.(deleteStarted := true)], map[])
    ensures Next(s, Insert(SECOND)).db == s.db.(reports := s.db.reports[1 := RowOf(SECOND)])
    ensures Next(s, Insert(SECOND)).begun == s.begun
  {
    assert NEW_SHOT.url[0] != OLD_SHOT.url[0];
    assert !Retired(s.db, NEW_SHOT);
    assert NewReportOutcome(s.db, SECOND) == Stored;
  }

  lemma SecondMovesToTheOldShot(db: Db)
    requires db.reports == map[0 := ScrubbedIfNamed(RowOf(FIRST))][1 := RowOf(SECOND)]
    requires db.backups == map[0 := OLD_CLAIM.(deleteStarted := true)] && db.migrations == map[]
    ensures
      var (db', outcome) := MigratePrepareTx(db, NEW_SHOT, Copy(OLD_SHOT, false));
      outcome == Prepared && Names(db', 1, OLD_SHOT) && Retired(db', OLD_SHOT)
  {
    assert NEW_SHOT.url[0] != OLD_SHOT.url[0];
    assert Names(db, 1, NEW_SHOT);
    var db' := MigratePrepareTx(db, NEW_SHOT, Copy(OLD_SHOT, false)).0;
    assert 0 in db'.backups && Tombstone(db'.backups[0], OLD_SHOT);
  }

  /**
   A reachable state in which the repository accepts a retired target: a cleanup fenced it, then another report's
   screenshot moves there.
   */
  lemma RetiredTargetIsAccepted()
    ensures
      var s := Run(START, [Insert(FIRST), Claim(7, 0, 0), Prepare(7, 0), Insert(SECOND)]);
      var (db, outcome) := MigratePrepareTx(s.db, NEW_SHOT, Copy(OLD_SHOT, false));
      && OLD_SHOT in s.begun && NEW_SHOT !in s.db.migrations
      && outcome == Prepared && Names(db, 1, OLD_SHOT) && Retired(db, OLD_SHOT)
  {
    var events := [Insert(FIRST), Claim(7, 0, 0), Prepare(7, 0), Insert(SECOND)];
    var s1 := Next(START, events[0]);
    var s2 := Next(s1, events[1]);
    var s3 := Next(s2, events[2]);
    var s4 := Next(s3, events[3]);
    FirstIsStored();
    FirstIsClaimed(s1);
    FirstIsFenced(s2);
    SecondIsStored(s3);
    SecondMovesToTheOldShot(s4.db);
    FourSteps(START, events);
  }

  lemma FourSteps(s: System, events: seq<Event>)
    requires |events| == 4
    ensures Run(s, events) == Next(Next(Next(Next(s, events[0]), events[1]), events[2]), events[3])
  {
    var s1 := Next(s, events[0]);
    var s2 := Next(s1, events[1]);
    var s3 := Next(s2, events[2]);
    assert events[1..][1..] == events[2..] && events[2..][1..] == events[3..] && events[3..][1..] == [];
    assert Run(s3, events[3..]) == Run(Next(s3, events[3]), []);
    assert Run(s2, events[2..]) == Run(s3, events[3..]);
    assert Run(s1, events[1..]) == Run(s2, events[2..]);
  }
}
