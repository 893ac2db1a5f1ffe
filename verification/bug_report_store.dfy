/**
 The three tables behind bug-report screenshots and the transactions of
 src/repositories/bug-reports.ts over them. Every transaction is one atomic
 step: the public-id and locator advisory locks serialise the ones that touch
 the same rows. Each `...Tx` function gives a transaction's outcome and next
 tables; class BugReportRepository runs it in place.
 */
module BugReportStore {
  import opened Wrappers

  type ReportId = nat

  /**
   An object URL; `managed` tells whether the storage endpoint can delete the object, `https` whether its scheme is
   https.
   */
  datatype Locator = Locator(url: string, managed: bool, https: bool)

  /** SHA-256 of a locator, taken as injective. */
  datatype Digest = Sha256(preimage: Locator)

  /** A private object key with the submission id its name carries. */
  datatype ObjectKey = ObjectKey(name: string, submission: Option<string>)

  datatype Status = Open | Ack | Closed

  /** The parts of a report that must not outlive its retention deadline. */
  datatype Content = Content(body: string, userId: Option<string>, entryId: Option<int>, clientMeta: string)

  const SCRUBBED_CONTENT := Content("Screenshot cleanup pending.", None, None, "{}")
  const DAY_MS := 24 * 60 * 60 * 1000
  const RETENTION_DAYS := 180
  const CLOSED_RETENTION_DAYS := 30

  datatype Report = Report(
    publicId: string,
    submissionId: Option<string>,
    requestHash: string,
    content: Content,
    createdAt: int,
    status: Status,
    closedAt: Option<int>,
    expiresAt: int,
    url: Option<Locator>,
    objectKey: Option<ObjectKey>,
    objectDeleted: bool,
    scrubbed: bool)

  /** The JSON snapshot of a retention backup; only these shapes are ever written. */
  datatype Snapshot = Empty | UrlOf(url: Locator) | UrlHash(digest: Digest) | KeyOf(key: ObjectKey)

  datatype Backup = Backup(
    publicId: string,
    submissionId: Option<string>,
    snapshot: Snapshot,
    deleteStarted: bool,
    deleted: bool,
    objectKey: Option<ObjectKey>,
    objectCreatedAt: Option<int>)

  datatype Migration = Migration(target: Locator, deleteStarted: bool, deleted: bool)

  datatype Db = Db(
    reports: map<ReportId, Report>,
    backups: map<ReportId, Backup>,
    migrations: map<Locator, Migration>)

  // ---------------------------------------------------------------- lookups

  predicate Names(db: Db, id: ReportId, u: Locator) {
    id in db.reports && db.reports[id].url == Some(u)
  }

  predicate Claims(db: Db, id: ReportId, u: Locator) {
    id in db.backups && db.backups[id].snapshot == UrlOf(u)
  }

  /** A retention tombstone for `u`: its delete was fenced or finished under this backup. */
  predicate Tombstone(b: Backup, u: Locator) {
    && (b.snapshot == UrlOf(u) || b.snapshot == UrlHash(Sha256(u)))
    && (b.deleteStarted || b.deleted)
  }

  predicate RetiredByRetention(db: Db, u: Locator) {
    exists id | id in db.backups :: Tombstone(db.backups[id], u)
  }

  predicate RetiredByMigration(db: Db, u: Locator) {
    u in db.migrations && (db.migrations[u].deleteStarted || db.migrations[u].deleted)
  }

  predicate Retired(db: Db, u: Locator) {
    RetiredByRetention(db, u) || RetiredByMigration(db, u)
  }

  predicate HasSubmission(db: Db, id: ReportId, submission: string) {
    id in db.reports && db.reports[id].submissionId == Some(submission)
  }

  predicate HasPublicId(db: Db, id: ReportId, publicId: string) {
    id in db.reports && db.reports[id].publicId == publicId
  }

  predicate HasKey(db: Db, id: ReportId, key: ObjectKey) {
    id in db.reports && db.reports[id].objectKey == Some(key)
  }

  predicate KeepsPublicId(db: Db, id: ReportId, publicId: string) {
    id in db.backups && db.backups[id].publicId == publicId
  }

  predicate KeepsSubmission(db: Db, id: ReportId, submission: string) {
    id in db.backups && db.backups[id].submissionId == Some(submission)
  }

  predicate KeepsKey(db: Db, id: ReportId, key: ObjectKey) {
    id in db.backups && db.backups[id].objectKey == Some(key)
  }

  /** The unique indexes on live reports. */
  ghost predicate UniqueReports(db: Db) {
    && (forall i, j, p :: HasPublicId(db, i, p) && HasPublicId(db, j, p) ==> i == j)
    && (forall i, j, s :: HasSubmission(db, i, s) && HasSubmission(db, j, s) ==> i == j)
  }

  ghost function SubmissionOwner(db: Db, submission: string): (id: ReportId)
    requires exists i :: HasSubmission(db, i, submission)
    ensures HasSubmission(db, id, submission)
  {
    var id :| HasSubmission(db, id, submission);
    id
  }

  ghost function PublicIdOwner(db: Db, publicId: string): (id: ReportId)
    requires exists i :: HasPublicId(db, i, publicId)
    ensures HasPublicId(db, id, publicId)
  {
    var id :| HasPublicId(db, id, publicId);
    id
  }

  // ----------------------------------------------------------------- insert

  datatype NewReport = NewReport(
    id: ReportId,
    publicId: string,
    submissionId: Option<string>,
    requestHash: string,
    content: Content,
    createdAt: int,
    expiresAt: int,
    url: Option<Locator>,
    objectKey: Option<ObjectKey>)

  datatype InsertOutcome =
    | Stored
    | Repeated(existing: ReportId)
    | SubmissionIdReused
    | PublicIdRetired
    | SubmissionRetired
    | ScreenshotKeyRetired
    | LocatorRetired
    | ConstraintViolated

  function RowOf(input: NewReport): Report {
    Report(input.publicId, input.submissionId, input.requestHash, input.content, input.createdAt,
           Open, None, input.expiresAt, input.url, input.objectKey, false, false)
  }

  /** The unique indexes and check constraints an inserted row must satisfy. */
  predicate ViolatesConstraints(db: Db, input: NewReport) {
    || input.id in db.reports
    || (exists i | i in db.reports :: HasPublicId(db, i, input.publicId))
    || (input.url.Some? && input.objectKey.Some?)
    || (input.objectKey.Some? && (input.submissionId.None? || input.objectKey.value.submission != input.submissionId))
    || (input.objectKey.Some? && exists i | i in db.reports :: HasKey(db, i, input.objectKey.value))
  }

  /** The checks on a genuinely new submission, in source order; Stored when all pass. */
  function NewReportOutcome(db: Db, input: NewReport): InsertOutcome {
    if exists i | i in db.backups :: KeepsPublicId(db, i, input.publicId) then
      PublicIdRetired
    else if input.submissionId.Some?
      && exists i | i in db.backups :: KeepsSubmission(db, i, input.submissionId.value) then
      SubmissionRetired
    else if input.objectKey.Some? && exists i | i in db.backups ::
        KeepsKey(db, i, input.objectKey.value) && !db.backups[i].deleted then
      ScreenshotKeyRetired
    else if input.url.Some? && Retired(db, input.url.value) then
      LocatorRetired
    else if ViolatesConstraints(db, input) then
      ConstraintViolated
    else
      Stored
  }

  ghost function InsertTx(db: Db, input: NewReport): (Db, InsertOutcome) {
    if input.submissionId.Some? && exists i :: HasSubmission(db, i, input.submissionId.value) then
      var owner := SubmissionOwner(db, input.submissionId.value);
      (db, if db.reports[owner].requestHash == input.requestHash then Repeated(owner) else SubmissionIdReused)
    else
      var outcome := NewReportOutcome(db, input);
      (if outcome == Stored then db.(reports := db.reports[input.id := RowOf(input)]) else db, outcome)
  }

  // ----------------------------------------------------------- updateStatus

  datatype StatusOutcome = NoReport | RetentionFinalized | Unchanged | Updated

  function RetentionDeadline(createdAt: int, status: Status, closedAt: Option<int>): (deadline: int)
    ensures deadline <= createdAt + RETENTION_DAYS * DAY_MS
  {
    var hard := createdAt + RETENTION_DAYS * DAY_MS;
    if status != Closed || closedAt.None? then hard
    else
      var closed := closedAt.value + CLOSED_RETENTION_DAYS * DAY_MS;
      if closed < hard then closed else hard
  }

  function ClaimedLocator(db: Db, id: ReportId): Option<Locator> {
    if id in db.backups && db.backups[id].snapshot.UrlOf? then Some(db.backups[id].snapshot.url) else None
  }

  /** The URL an unscrubbed report carries after a status change. */
  function RestoredUrl(db: Db, id: ReportId): Option<Locator>
    requires id in db.reports
  {
    var claimed := ClaimedLocator(db, id);
    if claimed.None? then db.reports[id].url
    else
      var claim := db.backups[id];
      if claim.deleteStarted && !claim.deleted then None
      else if RetiredByMigration(db, claimed.value) then Some(db.migrations[claimed.value].target)
      else if claim.deleted then None
      else claimed
  }

  /** Whether a status change drops the retention claim. */
  predicate DropsClaim(db: Db, id: ReportId) {
    var claimed := ClaimedLocator(db, id);
    && claimed.Some?
    && !(db.backups[id].deleteStarted && !db.backups[id].deleted)
    && (!db.backups[id].deleted || RetiredByMigration(db, claimed.value))
  }

  function WithStatus(row: Report, status: Status, url: Option<Locator>, now: int): Report {
    var closedAt :=
      if status == Closed then
        if row.status == Closed then Some(row.closedAt.GetOr(now)) else Some(now)
      else None;
    row.(status := status, closedAt := closedAt, url := url,
         expiresAt := RetentionDeadline(row.createdAt, status, closedAt))
  }

  ghost function UpdateStatusTx(db: Db, publicId: string, status: Status, now: int): (Db, StatusOutcome) {
    if !exists i :: HasPublicId(db, i, publicId) then (db, NoReport)
    else
      var id := PublicIdOwner(db, publicId);
      var row := db.reports[id];
      if row.scrubbed then
        (db, if status != row.status then RetentionFinalized else Unchanged)
      else
        (db.(reports := db.reports[id := WithStatus(row, status, RestoredUrl(db, id), now)],
             backups := if DropsClaim(db, id) then db.backups - {id} else db.backups), Updated)
  }

  // ------------------------------------------------------- claimForDeletion

  datatype ClaimOutcome = NotClaimable | Claimed(url: Option<Locator>) | Retained | BackupConflict

  /** Another backup already holds the unique public id or submission id. */
  predicate BackupCollides(db: Db, id: ReportId, publicId: string, submission: Option<string>) {
    || (exists i | i in db.backups :: i != id && KeepsPublicId(db, i, publicId))
    || (submission.Some? && exists i | i in db.backups :: i != id && KeepsSubmission(db, i, submission.value))
  }

  /** Move the exact private key into a durable inventory row, then delete the report. */
  function ClaimPrivateTx(db: Db, id: ReportId): (Db, ClaimOutcome)
    requires id in db.reports && db.reports[id].objectKey.Some?
  {
    var row := db.reports[id];
    var rest := db.reports - {id};
    if id in db.backups then
      var prior := db.backups[id];
      var key := prior.objectKey.GetOr(row.objectKey.value);
      if prior.objectKey.None? || prior.objectCreatedAt.None? then
        var submission :=
          if prior.submissionId.Some? then prior.submissionId
          else if row.submissionId.Some? then row.submissionId
          else key.submission;
        if submission.Some? && exists i | i in db.backups :: i != id && KeepsSubmission(db, i, submission.value) then
          (db, BackupConflict)
        else
          (db.(reports := rest,
               backups := db.backups[id := prior.(snapshot := KeyOf(key), submissionId := submission,
                                                objectKey := Some(key), objectCreatedAt := Some(row.createdAt))]),
           Retained)
      else
        (db.(reports := rest), Retained)
    else
      var key := row.objectKey.value;
      var submission := if row.submissionId.Some? then row.submissionId else key.submission;
      (db.(reports := rest,
           backups :=
             if BackupCollides(db, id, row.publicId, submission) then db.backups
             else db.backups[id := Backup(row.publicId, submission, KeyOf(key), false, false,
                                          Some(key), Some(row.createdAt))]),
       Retained)
  }

  /** The backup of a report without a private object after the claim. */
  function ClaimedBackup(db: Db, id: ReportId): Backup
    requires id in db.reports
  {
    var row := db.reports[id];
    if id in db.backups then
      var prior := db.backups[id];
      if prior.submissionId.None? then prior.(submissionId := row.submissionId) else prior
    else
      Backup(row.publicId, row.submissionId,
             if row.url.Some? then UrlOf(row.url.value) else Empty,
             false, false, None, None)
  }

  function ScrubbedIfNamed(row: Report): Report {
    if row.url.Some? then row.(content := SCRUBBED_CONTENT, url := None, scrubbed := true) else row
  }

  function ClaimUrlTx(db: Db, id: ReportId): (Db, ClaimOutcome)
    requires id in db.reports
  {
    var row := db.reports[id];
    if id in db.backups then
      var prior := db.backups[id];
      if && prior.submissionId.None? && row.submissionId.Some?
         && exists i | i in db.backups :: i != id && KeepsSubmission(db, i, row.submissionId.value)
      then (db, BackupConflict)
      else
        (db.(reports := db.reports[id := ScrubbedIfNamed(row)],
             backups := db.backups[id := ClaimedBackup(db, id)]),
         Claimed(if prior.deleted then None else ClaimedLocator(db, id)))
    else
      (db.(reports := db.reports[id := ScrubbedIfNamed(row)],
           backups :=
             if BackupCollides(db, id, row.publicId, row.submissionId) then db.backups
             else db.backups[id := ClaimedBackup(db, id)]),
       Claimed(row.url))
  }

  function ClaimTx(db: Db, id: ReportId, now: int): (Db, ClaimOutcome) {
    if id !in db.reports || now < db.reports[id].expiresAt then (db, NotClaimable)
    else if db.reports[id].objectKey.Some? && !db.reports[id].objectDeleted then ClaimPrivateTx(db, id)
    else ClaimUrlTx(db, id)
  }

  // -------------------------------- prepareClaimedDeletion, completeClaimed..

  datatype PrepareOutcome = NotPreparable | Pending | Delete(url: Locator) | Complete

  function Scrubbed(db: Db, id: ReportId, url: Option<Locator>): Db
    requires id in db.backups
  {
    db.(reports := db.reports - {id},
        backups := db.backups[id := db.backups[id].(
          snapshot := if url.Some? then UrlHash(Sha256(url.value)) else Empty)])
  }

  function PrepareTx(db: Db, id: ReportId, now: int): (Db, PrepareOutcome) {
    if id !in db.reports || now < db.reports[id].expiresAt || id !in db.backups then (db, NotPreparable)
    else
      var claim := db.backups[id];
      var url := ClaimedLocator(db, id);
      if claim.snapshot.KeyOf? then (db, Pending)
      else if claim.deleted || url.None? then (Scrubbed(db, id, url), Complete)
      else if claim.deleteStarted then (db, Delete(url.value))
      else if exists i | i in db.reports :: Names(db, i, url.value) then (Scrubbed(db, id, None), Complete)
      else (db.(backups := db.backups[id := claim.(deleteStarted := true)]), Delete(url.value))
  }

  function CompleteTx(db: Db, id: ReportId, now: int): (Db, bool) {
    if id !in db.reports || now < db.reports[id].expiresAt || id !in db.backups then (db, false)
    else
      var claim := db.backups[id];
      var url := ClaimedLocator(db, id);
      if claim.snapshot.KeyOf? then (db, false)
      else if url.Some? && !claim.deleted && !claim.deleteStarted then (db, false)
      else if url.Some? then
        (Scrubbed(db.(backups := db.backups[id := claim.(deleted := true)]), id, url), true)
      else (Scrubbed(db, id, None), true)
  }

  // ------------------------------------------ migrateAndDeleteStorageLocator

  /** How the caller names the target: a durable string on retries, or a copy made under the fences. */
  datatype MigrationTarget = Durable(target: Locator) | Copy(target: Locator, lateReport: bool)

  datatype MigrateOutcome = Prepared | NotPrepared | MissingRecord | InvalidTarget | TargetConflict | SwapLost

  predicate IsNamed(db: Db, u: Locator) {
    exists i | i in db.reports :: Names(db, i, u)
  }

  function Renamed(reports: map<ReportId, Report>, source: Locator, target: Locator): (r: map<ReportId, Report>)
    ensures r.Keys == reports.Keys
  {
    map i | i in reports :: if reports[i].url == Some(source) then reports[i].(url := Some(target)) else reports[i]
  }

  function MigratePrepareTx(db: Db, source: Locator, call: MigrationTarget): (Db, MigrateOutcome) {
    var known := source in db.migrations;
    if call.Copy? && (!IsNamed(db, source) || call.lateReport) then (db, NotPrepared)
    else if known && db.migrations[source].deleted then (db, NotPrepared)
    else if !known && !IsNamed(db, source) then (db, MissingRecord)
    else if !known && !call.target.https then (db, InvalidTarget)
    else if known && call.Durable? && db.migrations[source].target != call.target then (db, TargetConflict)
    else
      var target := if known then db.migrations[source].target else call.target;
      if target == source && IsNamed(db, source) then (db, SwapLost)
      else
        (db.(reports := Renamed(db.reports, source, target),
             migrations := db.migrations[source := Migration(target, true, false)]), Prepared)
  }

  datatype FinishOutcome = Finished | NothingToFinish | MarkerLost

  function MigrateFinishOutcome(db: Db, source: Locator): FinishOutcome {
    if source !in db.migrations || db.migrations[source].deleted then NothingToFinish
    else if db.migrations[source].deleteStarted then Finished
    else MarkerLost
  }

  function MigrateFinishTx(db: Db, source: Locator): Db {
    if source in db.migrations && !db.migrations[source].deleted && db.migrations[source].deleteStarted then
      db.(migrations := db.migrations[source := db.migrations[source].(deleted := true)])
    else db
  }

  // ---------------------------------------------------- markScreenshotDeleted

  function MarkScreenshotDeletedTx(db: Db, id: ReportId): Db {
    db.(reports :=
          if id in db.reports then
            db.reports[id := db.reports[id].(objectKey := None, objectDeleted := true)]
          else db.reports,
        backups :=
          if id in db.backups && db.backups[id].objectKey.Some? then
            db.backups[id := db.backups[id].(objectKey := None, objectCreatedAt := None, deleted := true,
                                             snapshot := Empty)]
          else db.backups)
  }

  // ------------------------------------------------------------- the tables

  /** The repository over its three tables. Each method is one committed transaction. */
  class BugReportRepository {
    var reports: map<ReportId, Report>
    var backups: map<ReportId, Backup>
    var migrations: map<Locator, Migration>

    ghost function Contents(): Db
      reads this
    {
      Db(reports, backups, migrations)
    }

    /** The database's unique indexes hold. */
    ghost predicate Valid()
      reads this
    {
      UniqueReports(Contents())
    }

    constructor ()
      ensures Valid() && Contents() == Db(map[], map[], map[])
    {
      reports, backups, migrations := map[], map[], map[];
    }

    method Insert(input: NewReport) returns (outcome: InsertOutcome)
      requires Valid()
      modifies this
      ensures Valid() && (Contents(), outcome) == InsertTx(old(Contents()), input)
    {
      if input.submissionId.Some? {
        if i :| i in reports && reports[i].submissionId == input.submissionId {
          assert HasSubmission(Contents(), i, input.submissionId.value);
          return if reports[i].requestHash == input.requestHash then Repeated(i) else SubmissionIdReused;
        }
        assert !exists i :: HasSubmission(Contents(), i, input.submissionId.value);
      }
      outcome := NewReportOutcome(Db(reports, backups, migrations), input);
      if outcome == Stored {
        reports := reports[input.id := RowOf(input)];
        assert forall i, p :: HasPublicId(Contents(), i, p) <==>
          HasPublicId(old(Contents()), i, p) || (i == input.id && p == input.publicId);
        assert forall i, x :: HasSubmission(Contents(), i, x) <==>
          HasSubmission(old(Contents()), i, x) || (i == input.id && Some(x) == input.submissionId);
      }
    }

    method UpdateStatus(publicId: string, status: Status, now: int) returns (outcome: StatusOutcome)
      requires Valid()
      modifies this
      ensures Valid() && (Contents(), outcome) == UpdateStatusTx(old(Contents()), publicId, status, now)
    {
      if id :| id in reports && reports[id].publicId == publicId {
        assert HasPublicId(Contents(), id, publicId);
        var current := reports[id];
        if current.scrubbed {
          return if status != current.status then RetentionFinalized else Unchanged;
        }
        var url := current.url;
        var removeClaim := false;
        if id in backups && backups[id].snapshot.UrlOf? {
          var claim := backups[id];
          var locator := claim.snapshot.url;
          var migrated :=
            locator in migrations && (migrations[locator].deleteStarted || migrations[locator].deleted);
          if claim.deleteStarted && !claim.deleted {
            url := None;
          } else {
            url := if migrated then Some(migrations[locator].target) else if claim.deleted then None else Some(locator);
            removeClaim := !claim.deleted || migrated;
          }
        }
        if removeClaim {
          backups := backups - {id};
        }
        reports := reports[id := WithStatus(current, status, url, now)];
        SameIds(old(Contents()), Contents());
        return Updated;
      }
      assert !exists i :: HasPublicId(Contents(), i, publicId);
      return NoReport;
    }

    method ClaimForDeletion(id: ReportId, now: int) returns (outcome: ClaimOutcome)
      requires Valid()
      modifies this
      ensures Valid() && (Contents(), outcome) == ClaimTx(old(Contents()), id, now)
    {
      if id !in reports || now < reports[id].expiresAt {
        return NotClaimable;
      }
      if reports[id].objectKey.Some? && !reports[id].objectDeleted {
        outcome := ClaimPrivate(id);
      } else {
        outcome := ClaimUrl(id);
      }
    }

    /** The claim of a report with a private object: the object moves into its backup. */
    method ClaimPrivate(id: ReportId) returns (outcome: ClaimOutcome)
      requires Valid() && id in reports && reports[id].objectKey.Some?
      modifies this
      ensures Valid() && (Contents(), outcome) == ClaimPrivateTx(old(Contents()), id)
    {
      var db := Db(reports, backups, migrations);
      var current := reports[id];
      var claimed := if id in backups then Some(backups[id]) else None;
      var key := if claimed.Some? then claimed.value.objectKey.GetOr(current.objectKey.value)
        else current.objectKey.value;
      var submission :=
        if claimed.Some? && claimed.value.submissionId.Some? then claimed.value.submissionId
        else if current.submissionId.Some? then current.submissionId
        else key.submission;
      if claimed.Some? {
        if claimed.value.objectKey.None? || claimed.value.objectCreatedAt.None? {
          if submission.Some? && exists i | i in backups :: i != id && KeepsSubmission(db, i, submission.value) {
            return BackupConflict;
          }
          backups := backups[id := claimed.value.(
            snapshot := KeyOf(key), submissionId := submission,
            objectKey := Some(key), objectCreatedAt := Some(current.createdAt))];
        }
      } else if !BackupCollides(db, id, current.publicId, submission) {
        backups := backups[id := Backup(current.publicId, submission, KeyOf(key), false, false,
                                        Some(key), Some(current.createdAt))];
      }
      reports := reports - {id};
      SameIds(old(Contents()), Contents());
      return Retained;
    }

    /** A report that names a screenshot loses its content and its locator. */
    method ScrubReport(id: ReportId)
      requires id in reports
      modifies this`reports
      ensures reports == old(reports)[id := ScrubbedIfNamed(old(reports)[id])]
    {
      var current := reports[id];
      if current.url.Some? {
        reports := reports[id := current.(content := SCRUBBED_CONTENT, url := None, scrubbed := true)];
      }
    }

    /** The claim of any other report: its locator moves into its backup and its row is scrubbed. */
    method ClaimUrl(id: ReportId) returns (outcome: ClaimOutcome)
      requires Valid() && id in reports
      modifies this
      ensures Valid() && (Contents(), outcome) == ClaimUrlTx(old(Contents()), id)
    {
      var db := Db(reports, backups, migrations);
      var current := reports[id];
      var claimed := if id in backups then Some(backups[id]) else None;
      var url := current.url;
      if claimed.Some? {
        url := if claimed.value.deleted || !claimed.value.snapshot.UrlOf? then None
          else Some(claimed.value.snapshot.url);
        if claimed.value.submissionId.None? && current.submissionId.Some? {
          if exists i | i in backups :: i != id && KeepsSubmission(db, i, current.submissionId.value) {
            return BackupConflict;
          }
          backups := backups[id := claimed.value.(submissionId := current.submissionId)];
        }
      } else if !BackupCollides(db, id, current.publicId, current.submissionId) {
        backups := backups[id := Backup(current.publicId, current.submissionId,
                                        if current.url.Some? then UrlOf(current.url.value) else Empty,
                                        false, false, None, None)];
      }
      if url.Some? && id in backups {
        backups := backups[id := backups[id].(snapshot := UrlOf(url.value))];
      }
      ScrubReport(id);
      SameIds(old(Contents()), Contents());
      assert id in backups ==> backups == db.backups[id := ClaimedBackup(db, id)];
      return Claimed(url);
    }

    method PrepareClaimedDeletion(id: ReportId, now: int) returns (outcome: PrepareOutcome)
      requires Valid()
      modifies this
      ensures Valid() && (Contents(), outcome) == PrepareTx(old(Contents()), id, now)
    {
      if id !in reports || now < reports[id].expiresAt || id !in backups {
        return NotPreparable;
      }
      var claim := backups[id];
      if claim.snapshot.KeyOf? {
        return Pending;
      }
      if claim.deleted || !claim.snapshot.UrlOf? {
        ScrubRetentionBackup(id, if claim.snapshot.UrlOf? then Some(claim.snapshot.url) else None);
        return Complete;
      }
      var url := claim.snapshot.url;
      if claim.deleteStarted {
        return Delete(url);
      }
      if exists i | i in reports :: reports[i].url == Some(url) {
        assert exists i | i in reports :: Names(Contents(), i, url);
        ScrubRetentionBackup(id, None);
        return Complete;
      }
      backups := backups[id := claim.(deleteStarted := true)];
      SameIds(old(Contents()), Contents());
      return Delete(url);
    }

    method CompleteClaimedDeletion(id: ReportId, now: int) returns (done: bool)
      requires Valid()
      modifies this
      ensures Valid() && (Contents(), done) == CompleteTx(old(Contents()), id, now)
    {
      if id !in reports || now < reports[id].expiresAt || id !in backups {
        return false;
      }
      var claim := backups[id];
      if claim.snapshot.KeyOf? {
        return false;
      }
      var url := if claim.snapshot.UrlOf? then Some(claim.snapshot.url) else None;
      if url.Some? {
        if !claim.deleted && !claim.deleteStarted {
          return false;
        }
        if !claim.deleted {
          backups := backups[id := claim.(deleted := true)];
        }
        assert backups == old(backups)[id := claim.(deleted := true)];
      }
      SameIds(old(Contents()), Contents());
      ScrubRetentionBackup(id, url);
      return true;
    }

    /** Delete the expired report and reduce its backup to a digest of the removed locator. */
    method ScrubRetentionBackup(id: ReportId, url: Option<Locator>)
      requires Valid() && id in backups
      modifies this
      ensures Valid() && Contents() == Scrubbed(old(Contents()), id, url)
    {
      reports := reports - {id};
      backups := backups[id := backups[id].(snapshot := if url.Some? then UrlHash(Sha256(url.value)) else Empty)];
      SameIds(old(Contents()), Contents());
    }

    method PrepareMigration(source: Locator, call: MigrationTarget) returns (outcome: MigrateOutcome)
      requires Valid()
      modifies this
      ensures Valid() && (Contents(), outcome) == MigratePrepareTx(old(Contents()), source, call)
    {
      var live := exists i | i in reports :: reports[i].url == Some(source);
      assert live == IsNamed(Contents(), source) by {
        if i :| i in reports && reports[i].url == Some(source) { assert Names(Contents(), i, source); }
      }
      if call.Copy? && (!live || call.lateReport) {
        return NotPrepared;
      }
      var target := call.target;
      if source in migrations {
        if migrations[source].deleted {
          return NotPrepared;
        }
        if call.Durable? && migrations[source].target != call.target {
          return TargetConflict;
        }
        target := migrations[source].target;
      } else if !live {
        return MissingRecord;
      } else if !call.target.https {
        return InvalidTarget;
      }
      if target == source && live {
        return SwapLost;
      }
      reports := map i | i in reports ::
        if reports[i].url == Some(source) then reports[i].(url := Some(target)) else reports[i];
      migrations := migrations[source := Migration(target, true, false)];
      SameIds(old(Contents()), Contents());
      return Prepared;
    }

    method FinishMigration(source: Locator) returns (outcome: FinishOutcome)
      requires Valid()
      modifies this`migrations
      ensures Valid() && Contents() == MigrateFinishTx(old(Contents()), source)
      ensures outcome == MigrateFinishOutcome(old(Contents()), source)
    {
      if source !in migrations || migrations[source].deleted {
        return NothingToFinish;
      }
      if !migrations[source].deleteStarted {
        return MarkerLost;
      }
      migrations := migrations[source := migrations[source].(deleted := true)];
      SameIds(old(Contents()), Contents());
      return Finished;
    }

    method MarkScreenshotDeleted(id: ReportId)
      requires Valid()
      modifies this
      ensures Valid() && Contents() == MarkScreenshotDeletedTx(old(Contents()), id)
    {
      if id in reports {
        reports := reports[id := reports[id].(objectKey := None, objectDeleted := true)];
      }
      if id in backups && backups[id].objectKey.Some? {
        backups := backups[id := backups[id].(objectKey := None, objectCreatedAt := None, deleted := true,
          snapshot := Empty)];
      }
      SameIds(old(Contents()), Contents());
    }
  }

  /** Steps that only drop reports or keep their ids keep the unique indexes. */
  lemma SameIds(db: Db, db': Db)
    requires UniqueReports(db)
    requires forall i | i in db'.reports ::
      i in db.reports && db'.reports[i].publicId == db.reports[i].publicId
        && db'.reports[i].submissionId == db.reports[i].submissionId
    ensures UniqueReports(db')
  {
    assert forall i, p :: HasPublicId(db', i, p) ==> HasPublicId(db, i, p);
    assert forall i, x :: HasSubmission(db', i, x) ==> HasSubmission(db, i, x);
  }
}
