/**
 The transactions of BugReportStore in any state of the tables, also ones that
 older versions left behind: what each answer says, and what it leaves.
 */
module BugReportOutcomes {
  import opened Wrappers
  import opened BugReportStore

  // ---------------------------------------------------------- status changes

  /** What each answer to a status change says about the report. */
  lemma StatusAnswerSaysWhatItFound(db: Db, publicId: string, status: Status, now: int)
    requires UniqueReports(db)
    ensures
      var (db', outcome) := UpdateStatusTx(db, publicId, status, now);
      && (outcome == NoReport <==> forall i :: !HasPublicId(db, i, publicId))
      && (outcome != Updated ==> db' == db)
      && forall i | HasPublicId(db, i, publicId) ::
           && (outcome == Updated <==> !db.reports[i].scrubbed)
           && (outcome == RetentionFinalized <==> db.reports[i].scrubbed && db.reports[i].status != status)
           && (outcome == Unchanged <==> db.reports[i].scrubbed && db.reports[i].status == status)
  {
    forall i | HasPublicId(db, i, publicId) ensures PublicIdOwner(db, publicId) == i {
      assert HasPublicId(db, PublicIdOwner(db, publicId), publicId);
    }
  }

  /**
   A status change on a report whose locator is claimed but which was not scrubbed - no run of this machine gets there,
   older rows may: the hold moves back from the claim to the row, to the migrated copy if there is one, unless the
   delete is under way or done; then the claim keeps it and the row stays without a screenshot.
   */
  lemma StatusChangeMovesTheHold(db: Db, id: ReportId, u: Locator, status: Status, now: int)
    requires UniqueReports(db) && id in db.reports && !db.reports[id].scrubbed && Claims(db, id, u)
    ensures
      var db' := UpdateStatusTx(db, db.reports[id].publicId, status, now).0;
      var claim, migrated := db.backups[id], RetiredByMigration(db, u);
      var underWay := claim.deleteStarted && !claim.deleted;
      var lost := claim.deleted && !migrated;
      && id in db'.reports
      && (Claims(db', id, u) <==> underWay || lost)
      && (Claims(db', id, u) ==> db'.backups[id] == claim)
      && db'.reports[id].url ==
           if Claims(db', id, u) then None else if migrated then Some(db.migrations[u].target) else Some(u)
  {
    assert HasPublicId(db, id, db.reports[id].publicId);
    assert PublicIdOwner(db, db.reports[id].publicId) == id;
  }

  // ------------------------------------------------------------------ claims

  /** A claim finds nothing to do exactly when the report is gone or not expired, and leaves the tables alone then. */
  lemma NothingToClaimIff(db: Db, id: ReportId, now: int)
    ensures
      var (db', outcome) := ClaimTx(db, id, now);
      && (outcome == NotClaimable <==> id !in db.reports || now < db.reports[id].expiresAt)
      && (outcome == NotClaimable ==> db' == db)
  {
  }

  function FirstOf<T>(a: Option<T>, b: Option<T>): (r: Option<T>)
    ensures r.Some? <==> a.Some? || b.Some?
  {
    if a.Some? then a else b
  }

  /** The inventory row already says which private object it keeps, and since when. */
  predicate InventoryComplete(db: Db, id: ReportId) {
    id in db.backups && db.backups[id].objectKey.Some? && db.backups[id].objectCreatedAt.Some?
  }

  ghost predicate SubmissionTaken(db: Db, id: ReportId, submission: Option<string>) {
    submission.Some? && exists i :: i != id && KeepsSubmission(db, i, submission.value)
  }

  /** Another backup has the report's public id, so the unique index would silently drop a new one. */
  ghost predicate PublicIdTaken(db: Db, id: ReportId)
    requires id in db.reports
  {
    exists i :: i != id && KeepsPublicId(db, i, db.reports[id].publicId)
  }

  /**
   Claiming a private object in any state of the tables, also over a backup from an earlier attempt: an inventory row
   that is complete stays; otherwise it is completed with the key it named or the report's own, the report's creation
   time and the first submission id known. If another backup has that one, or for a new inventory row the public id, the
   claim is refused over an old row, and drops a new one.
   */
  lemma PrivateClaimCompletesTheInventory(db: Db, id: ReportId, now: int)
    requires id in db.reports && db.reports[id].objectKey.Some? && !db.reports[id].objectDeleted
    requires db.reports[id].expiresAt <= now
    ensures
      var (db', outcome) := ClaimTx(db, id, now);
      var row := db.reports[id];
      var prior := if id in db.backups then Some(db.backups[id]) else None;
      var key := if prior.Some? then prior.value.objectKey.GetOr(row.objectKey.value) else row.objectKey.value;
      var submission := FirstOf(if prior.Some? then prior.value.submissionId else None,
                                FirstOf(row.submissionId, key.submission));
      var taken := SubmissionTaken(db, id, submission);
      var swallowed := taken || (prior.None? && PublicIdTaken(db, id));
      && outcome == (if prior.Some? && !InventoryComplete(db, id) && taken then BackupConflict else Retained)
      && (outcome == BackupConflict ==> db' == db)
      && (outcome == Retained ==> db'.reports == db.reports - {id} && db'.migrations == db.migrations)
      && (outcome == Retained && InventoryComplete(db, id) ==> db'.backups == db.backups)
      && (outcome == Retained && prior.None? && swallowed ==> db'.backups == db.backups)
      && (outcome == Retained && !InventoryComplete(db, id) && !swallowed ==>
            && db'.backups.Keys == db.backups.Keys + {id}
            && (forall i | i in db.backups && i != id :: db'.backups[i] == db.backups[i])
            && var b := db'.backups[id];
            && b.snapshot == KeyOf(key) && b.objectKey == Some(key) && b.objectCreatedAt == Some(row.createdAt)
            && b.submissionId == submission
            && b.publicId == (if prior.Some? then prior.value.publicId else row.publicId)
            && b.deleted == (prior.Some? && prior.value.deleted)
            && b.deleteStarted == (prior.Some? && prior.value.deleteStarted))
  {
  }

  /**
   Claiming any other report: the claim hands out the locator its backup still holds, or without a backup the row's. A
   row that showed a screenshot keeps none of its content. Without a collision the backup is there afterwards, with the
   first submission id known.
   */
  lemma UrlClaimTakesTheLocator(db: Db, id: ReportId, now: int)
    requires id in db.reports && (db.reports[id].objectKey.None? || db.reports[id].objectDeleted)
    requires db.reports[id].expiresAt <= now
    ensures
      var (db', outcome) := ClaimTx(db, id, now);
      var row := db.reports[id];
      var prior := if id in db.backups then Some(db.backups[id]) else None;
      var wanted := FirstOf(if prior.Some? then prior.value.submissionId else None, row.submissionId);
      var taken := SubmissionTaken(db, id, row.submissionId) && (prior.Some? ==> prior.value.submissionId.None?);
      var swallowed := prior.None? && (taken || PublicIdTaken(db, id));
      && (outcome == BackupConflict <==> prior.Some? && taken)
      && (outcome == BackupConflict ==> db' == db)
      && (outcome != BackupConflict ==>
            && outcome == Claimed(if prior.None? then row.url
                                  else if prior.value.deleted then None
                                  else ClaimedLocator(db, id))
            && db'.reports == db.reports[id := if row.url.None? then row
                                               else row.(content := SCRUBBED_CONTENT, url := None, scrubbed := true)]
            && db'.migrations == db.migrations)
      && (swallowed ==> db'.backups == db.backups)
      && (outcome != BackupConflict && !swallowed ==>
            && db'.backups.Keys == db.backups.Keys + {id}
            && (forall i | i in db.backups && i != id :: db'.backups[i] == db.backups[i])
            && db'.backups[id].submissionId == wanted
            && (prior.Some? ==> db'.backups[id] == prior.value.(submissionId := wanted))
            && (prior.None? ==>
                  && db'.backups[id].publicId == row.publicId && ClaimedLocator(db', id) == row.url
                  && !db'.backups[id].deleteStarted && !db'.backups[id].deleted && db'.backups[id].objectKey.None?))
  {
  }

  // --------------------------------------------------------------- deletions

  /** A claim whose report may be cleaned up now. */
  predicate Due(db: Db, id: ReportId, now: int) {
    id in db.reports && db.reports[id].expiresAt <= now && id in db.backups
  }

  /** The report is gone; its backup keeps the ids and no locator, but the digest of one it still had. */
  predicate Departs(db: Db, db': Db, id: ReportId, hashed: Option<Locator>)
    requires id in db.backups
  {
    && db'.reports == db.reports - {id} && db'.migrations == db.migrations
    && id in db'.backups && db'.backups.Keys == db.backups.Keys
    && (forall i | i in db.backups && i != id :: db'.backups[i] == db.backups[i])
    && db'.backups[id].publicId == db.backups[id].publicId
    && db'.backups[id].submissionId == db.backups[id].submissionId
    && db'.backups[id].deleteStarted == db.backups[id].deleteStarted
    && db'.backups[id].snapshot == (if hashed.Some? then UrlHash(Sha256(hashed.value)) else Empty)
  }

  /**
   What preparing a deletion answers: the delete is authorised, and fenced, exactly for a locator that is not deleted
   yet and that was fenced before or that no report shows; otherwise the report departs, unless its private object is
   still in the inventory or it is not due.
   */
  lemma PreparationAnswers(db: Db, id: ReportId, now: int)
    ensures
      var (db', outcome) := PrepareTx(db, id, now);
      var u := ClaimedLocator(db, id);
      var pending := Due(db, id, now) && db.backups[id].snapshot.KeyOf?;
      var live := Due(db, id, now) && u.Some? && !db.backups[id].deleted
                  && (db.backups[id].deleteStarted || !IsNamed(db, u.value));
      && (outcome == NotPreparable <==> !Due(db, id, now))
      && (outcome == Pending <==> pending)
      && (outcome.Delete? <==> live)
      && (outcome == NotPreparable || outcome == Pending ==> db' == db)
      && (outcome.Delete? ==>
            && outcome.url == u.value
            && db' == db.(backups := db.backups[id := db.backups[id].(deleteStarted := true)]))
      && (outcome == Complete ==>
            Departs(db, db', id, if db.backups[id].deleted then u else None)
            && db'.backups[id].deleted == db.backups[id].deleted)
  {
    if Due(db, id, now) && db.backups[id].deleteStarted {
      assert db.backups[id := db.backups[id].(deleteStarted := true)] == db.backups;
    }
  }

  /** A deletion is completed exactly when it is due, not of a private object, and its delete was fenced or done. */
  lemma CompletionAnswers(db: Db, id: ReportId, now: int)
    ensures
      var (db', done) := CompleteTx(db, id, now);
      var u := ClaimedLocator(db, id);
      && (done <==>
            && Due(db, id, now) && !db.backups[id].snapshot.KeyOf?
            && (u.Some? ==> db.backups[id].deleteStarted || db.backups[id].deleted))
      && (!done ==> db' == db)
      && (done ==>
            Departs(db, db', id, u) && db'.backups[id].deleted == (u.Some? || db.backups[id].deleted))
  {
  }

  // --------------------------------------------------------------- migrations

  /** What stops a migration, in the order in which it is looked at. */
  lemma MigrationAnswers(db: Db, source: Locator, call: MigrationTarget)
    ensures
      var (db', outcome) := MigratePrepareTx(db, source, call);
      var known := source in db.migrations;
      var idle := (call.Copy? && (call.lateReport || !IsNamed(db, source))) || (known && db.migrations[source].deleted);
      var unknown := !known && !IsNamed(db, source);
      var conflict := known && call.Durable? && call.target != db.migrations[source].target;
      var insecure := !known && !call.target.https;
      var onItself := (if known then db.migrations[source].target else call.target) == source && IsNamed(db, source);
      && (outcome == NotPrepared <==> idle)
      && (outcome == MissingRecord <==> !idle && unknown)
      && (outcome == InvalidTarget <==> !idle && !unknown && insecure)
      && (outcome == TargetConflict <==> !idle && conflict)
      && (outcome == SwapLost <==> !idle && !unknown && !insecure && !conflict && onItself)
      && (outcome == Prepared <==> !idle && !unknown && !insecure && !conflict && !onItself)
      && (outcome != Prepared ==> db' == db)
  {
  }

  /** A prepared migration moves every report from the source to its one target and records the delete as started. */
  lemma PreparedMigrationMovesTheReports(db: Db, source: Locator, call: MigrationTarget)
    requires MigratePrepareTx(db, source, call).1 == Prepared
    ensures
      var db' := MigratePrepareTx(db, source, call).0;
      var target := if source in db.migrations then db.migrations[source].target else call.target;
      && db'.reports.Keys == db.reports.Keys && db'.backups == db.backups && !IsNamed(db', source)
      && (forall i | i in db.reports :: db'.reports[i] ==
            if Names(db, i, source) then db.reports[i].(url := Some(target)) else db.reports[i])
      && db'.migrations == db.migrations[source := Migration(target, true, false)]
  {
    var db' := MigratePrepareTx(db, source, call).0;
    forall i | i in db'.reports ensures !Names(db', i, source) {}
  }

  /** Finishing marks a started migration as deleted once, finds nothing to do, or finds its start marker lost. */
  lemma MigrationFinishAnswers(db: Db, source: Locator)
    ensures
      var outcome, db' := MigrateFinishOutcome(db, source), MigrateFinishTx(db, source);
      var open := source in db.migrations && !db.migrations[source].deleted;
      && (outcome == NothingToFinish <==> !open)
      && (outcome == Finished <==> open && db.migrations[source].deleteStarted)
      && (outcome == MarkerLost <==> open && !db.migrations[source].deleteStarted)
      && (outcome != Finished ==> db' == db)
      && (outcome == Finished ==>
            && db'.reports == db.reports && db'.backups == db.backups
            && db'.migrations == db.migrations[source := Migration(db.migrations[source].target, true, true)]
            && MigrateFinishOutcome(db', source) == NothingToFinish)
  {
  }

  /** Marking a private screenshot as deleted clears the key wherever this report kept it, and is idempotent. */
  lemma MarkingClearsTheKey(db: Db, id: ReportId)
    ensures
      var db' := MarkScreenshotDeletedTx(db, id);
      && db'.reports.Keys == db.reports.Keys && db'.backups.Keys == db.backups.Keys && db'.migrations == db.migrations
      && (forall i | i in db.reports :: db'.reports[i] ==
            if i == id then db.reports[i].(objectKey := None, objectDeleted := true) else db.reports[i])
      && (id in db.backups ==> db'.backups[id].objectKey.None?)
      && (forall i | i in db.backups && (i != id || db.backups[i].objectKey.None?) :: db'.backups[i] == db.backups[i])
      && (id in db.backups && db.backups[id].objectKey.Some? ==>
            db'.backups[id].deleted && db'.backups[id].snapshot.Empty? && db'.backups[id].objectCreatedAt.None?
            && db'.backups[id].publicId == db.backups[id].publicId
            && db'.backups[id].submissionId == db.backups[id].submissionId)
      && MarkScreenshotDeletedTx(db', id) == db'
  {
  }
}
