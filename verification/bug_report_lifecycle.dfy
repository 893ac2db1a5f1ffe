/**
 The life of a report over whole runs of BugReportProtocol: which submissions
 are stored, what a report is safe from before its deadline, how status changes
 move the deadline, and what one cleanup attempt does to the report afterwards.
 */
module BugReportLifecycle {
  import opened Wrappers
  import opened BugReportStore
  import opened BugReportProtocol

  // ------------------------------------------------------ before the deadline

  predicate CleansUp(e: Event) {
    e.Claim? || e.Prepare? || e.Finish?
  }

  /** The cleanup transaction is about this report. */
  predicate Concerns(s: System, e: Event, id: ReportId) {
    match e
    case Claim(w, i, now) => i == id
    case Prepare(w, now) => w in s.tasks && s.tasks[w].Holding? && s.tasks[w].id == id
    case Finish(w, now) => w in s.tasks && s.tasks[w].Deleted? && s.tasks[w].id == id
    case _ => false
  }

  /** A cleanup transaction that runs before a report's deadline, or for another report, leaves its row as it was. */
  lemma CleanupWaitsForTheDeadline(s: System, e: Event, id: ReportId)
    requires id in s.db.reports && CleansUp(e)
    requires Concerns(s, e, id) ==> e.now < s.db.reports[id].expiresAt
    ensures id in Next(s, e).db.reports && Next(s, e).db.reports[id] == s.db.reports[id]
  {
    match e
    case Claim(w, i, now) => ClaimSparesOthers(s.db, i, now, id);
    case Prepare(w, now) => if w in s.tasks && s.tasks[w].Holding? { DeleteSparesOthers(s.db, s.tasks[w].id, now, id); }
    case Finish(w, now) => if w in s.tasks && s.tasks[w].Deleted? { DeleteSparesOthers(s.db, s.tasks[w].id, now, id); }
  }

  lemma ClaimSparesOthers(db: Db, claimed: ReportId, now: int, id: ReportId)
    requires id in db.reports && (claimed == id ==> now < db.reports[id].expiresAt)
    ensures id in ClaimTx(db, claimed, now).0.reports && ClaimTx(db, claimed, now).0.reports[id] == db.reports[id]
  {
  }

  lemma DeleteSparesOthers(db: Db, claimed: ReportId, now: int, id: ReportId)
    requires id in db.reports && (claimed == id ==> now < db.reports[id].expiresAt)
    ensures id in PrepareTx(db, claimed, now).0.reports && PrepareTx(db, claimed, now).0.reports[id] == db.reports[id]
    ensures id in CompleteTx(db, claimed, now).0.reports && CompleteTx(db, claimed, now).0.reports[id] == db.reports[id]
  {
  }

  /** Every cleanup transaction about this report runs before the deadline the report has by then. */
  ghost predicate OnlyEarlyCleanup(s: System, events: seq<Event>, id: ReportId)
    decreases |events|
  {
    events == [] ||
    (&& (CleansUp(events[0]) && Concerns(s, events[0], id) && id in s.db.reports ==>
           events[0].now < s.db.reports[id].expiresAt)
     && OnlyEarlyCleanup(Next(s, events[0]), events[1..], id))
  }

  /** What the submitter gave stays; the screenshot may have moved, and a private one may have been deleted. */
  predicate SameSubmission(db: Db, before: Report, after: Report) {
    && after.publicId == before.publicId && after.submissionId == before.submissionId
    && after.requestHash == before.requestHash && after.content == before.content
    && after.createdAt == before.createdAt && after.scrubbed == before.scrubbed
    && (after.objectKey == before.objectKey || (after.objectKey.None? && after.objectDeleted))
    && (before.objectDeleted ==> after.objectDeleted)
    && (after.url == before.url ||
        (before.url.Some? && after.url.Some? && RetiredByMigration(db, before.url.value)))
  }

  /** The report is still there with its submission, and what was migrated stays so. */
  ghost predicate Lives(db: Db, db': Db, id: ReportId)
    requires id in db.reports
  {
    && id in db'.reports && SameSubmission(db', db.reports[id], db'.reports[id])
    && forall u | RetiredByMigration(db, u) :: RetiredByMigration(db', u)
  }

  lemma StatusKeepsSubmission(db: Db, p: string, status: Status, now: int, id: ReportId)
    requires DbInv(db) && id in db.reports
    ensures Lives(db, UpdateStatusTx(db, p, status, now).0, id)
  {
    StatusKeepsUrls(db, p, status, now);
  }

  lemma StatusKeepsUrls(db: Db, p: string, status: Status, now: int)
    requires DbInv(db)
    ensures
      var db' := UpdateStatusTx(db, p, status, now).0;
      && db'.migrations == db.migrations && db'.reports.Keys == db.reports.Keys
      && forall i | i in db.reports :: db'.reports[i].url == db.reports[i].url
  {
    UpdateStatusKeeps(db, p, status, now);
  }

  lemma MarkingKeepsSubmission(db: Db, marked: ReportId, id: ReportId)
    requires id in db.reports
    ensures Lives(db, MarkScreenshotDeletedTx(db, marked), id)
  {
  }

  lemma MigrationKeepsSubmission(db: Db, source: Locator, call: MigrationTarget, id: ReportId)
    requires id in db.reports
    ensures Lives(db, MigratePrepareTx(db, source, call).0, id)
  {
    MigrationKeepsMigrated(db, source, call);
    var (db', outcome) := MigratePrepareTx(db, source, call);
    if outcome == Prepared { assert RetiredByMigration(db', source); }
  }

  lemma MigrationKeepsMigrated(db: Db, source: Locator, call: MigrationTarget)
    ensures forall u | RetiredByMigration(db, u) :: RetiredByMigration(MigratePrepareTx(db, source, call).0, u)
  {
  }

  lemma InsertKeepsSubmission(s: System, input: NewReport, id: ReportId)
    requires id in s.db.reports
    ensures
      var t := AfterInsert(s, input);
      id in t.db.reports && t.db.reports[id] == s.db.reports[id] && t.db.migrations == s.db.migrations
  {
  }

  lemma CleanupKeepsMigrations(s: System, e: Event)
    requires CleansUp(e)
    ensures forall u | RetiredByMigration(s.db, u) :: RetiredByMigration(Next(s, e).db, u)
  {
  }

  lemma CleanupKeepsSubmission(s: System, e: Event, id: ReportId)
    requires CleansUp(e) && id in s.db.reports && OnlyEarlyCleanup(s, [e], id)
    ensures Lives(s.db, Next(s, e).db, id)
  {
    CleanupWaitsForTheDeadline(s, e, id);
    CleanupKeepsMigrations(s, e);
  }

  lemma NextKeepsSubmission(s: System, e: Event, id: ReportId)
    requires SystemInv(s) && id in s.db.reports && OnlyEarlyCleanup(s, [e], id)
    ensures Lives(s.db, Next(s, e).db, id)
  {
    if CleansUp(e) {
      CleanupKeepsSubmission(s, e, id);
    } else {
      OtherStepKeepsSubmission(s, e, id);
    }
  }

  lemma OtherStepKeepsSubmission(s: System, e: Event, id: ReportId)
    requires SystemInv(s) && id in s.db.reports && !CleansUp(e)
    ensures Lives(s.db, Next(s, e).db, id)
  {
    match e
    case Insert(input) => InsertKeepsSubmission(s, input, id);
    case UpdateStatus(p, status, now) => StatusKeepsSubmission(s.db, p, status, now, id);
    case Migrate(w, source, call) => MigrationKeepsSubmission(s.db, source, call, id);
    case MarkScreenshotDeleted(i) => MarkingKeepsSubmission(s.db, i, id);
    case _ =>
  }

  /** However the service runs, nothing takes a report or its content away before its deadline. */
  lemma {:induction false} ReportLivesUntilItsDeadline(s: System, events: seq<Event>, id: ReportId)
    requires SystemInv(s) && id in s.db.reports && OnlyEarlyCleanup(s, events, id)
    ensures Lives(s.db, Run(s, events).db, id)
    decreases |events|
  {
    if events != [] {
      assert [events[0]][1..] == [];
      NextKeepsInv(s, events[0]);
      NextKeepsSubmission(s, events[0], id);
      ReportLivesUntilItsDeadline(Next(s, events[0]), events[1..], id);
    }
  }

  /** So an accepted submission is kept as it was sent, under its own ids, until its deadline. */
  lemma SubmissionIsKeptUntilItsDeadline(events: seq<Event>, input: NewReport, later: seq<Event>)
    requires var s := Run(START, events);
      && Allowed(s, Insert(input)) && InsertTx(s.db, input).1 == Stored
      && OnlyEarlyCleanup(Next(s, Insert(input)), later, input.id)
    ensures
      var t := Run(Next(Run(START, events), Insert(input)), later);
      && input.id in t.db.reports
      && var row := t.db.reports[input.id];
      && row.publicId == input.publicId && row.submissionId == input.submissionId
      && row.requestHash == input.requestHash && row.content == input.content && row.createdAt == input.createdAt
      && !row.scrubbed
      && (row.objectKey == input.objectKey || (row.objectKey.None? && row.objectDeleted))
      && (row.url == input.url ||
          (input.url.Some? && row.url.Some? && RetiredByMigration(t.db, input.url.value)))
  {
    var s := Run(START, events);
    RunKeepsInv(START, events);
    NextKeepsInv(s, Insert(input));
    ReportLivesUntilItsDeadline(Next(s, Insert(input)), later, input.id);
  }

  // ------------------------------------------------- moving the deadline

  /** The status, closing time and deadline of a report that has been closed since `closedAt`, or is not closed. */
  predicate Stands(row: Report, status: Status, closedAt: Option<int>, deadline: int) {
    row.status == status && row.closedAt == closedAt && row.expiresAt == deadline
  }

  function Earlier(a: int, b: int): (r: int)
    ensures r <= a && r <= b && (r == a || r == b)
  {
    if a < b then a else b
  }

  /** No event gives the report with this public id a status that `keeps` rejects. */
  predicate StatusStays(events: seq<Event>, publicId: string, keeps: set<Status>) {
    forall i | 0 <= i < |events| && events[i].UpdateStatus? && events[i].publicId == publicId ::
      events[i].status in keeps
  }

  /** Ids, status, closing time and deadline of the report, if it is still there, are what they were. */
  predicate SameStatus(db: Db, db': Db, id: ReportId)
    requires id in db.reports
  {
    id in db'.reports ==>
      var row, row' := db.reports[id], db'.reports[id];
      && Stands(row', row.status, row.closedAt, row.expiresAt)
      && row'.publicId == row.publicId && row'.createdAt == row.createdAt
  }

  lemma ClaimKeepsStatus(db: Db, claimed: ReportId, now: int, id: ReportId)
    requires id in db.reports
    ensures SameStatus(db, ClaimTx(db, claimed, now).0, id)
  {
  }

  lemma DeleteKeepsStatus(db: Db, claimed: ReportId, now: int, id: ReportId)
    requires id in db.reports
    ensures SameStatus(db, PrepareTx(db, claimed, now).0, id) && SameStatus(db, CompleteTx(db, claimed, now).0, id)
  {
  }

  lemma OtherStatusChange(db: Db, p: string, status: Status, now: int, id: ReportId)
    requires DbInv(db) && id in db.reports && p != db.reports[id].publicId
    ensures SameStatus(db, UpdateStatusTx(db, p, status, now).0, id)
  {
  }

  lemma MigrationKeepsStatus(db: Db, source: Locator, call: MigrationTarget, id: ReportId)
    requires id in db.reports
    ensures SameStatus(db, MigratePrepareTx(db, source, call).0, id)
  {
  }

  lemma CleanupKeepsStatus(s: System, e: Event, id: ReportId)
    requires CleansUp(e) && id in s.db.reports
    ensures SameStatus(s.db, Next(s, e).db, id)
  {
    match e
    case Claim(w, i, now) => ClaimKeepsStatus(s.db, i, now, id);
    case Prepare(w, now) => if w in s.tasks && s.tasks[w].Holding? { DeleteKeepsStatus(s.db, s.tasks[w].id, now, id); }
    case Finish(w, now) => if w in s.tasks && s.tasks[w].Deleted? { DeleteKeepsStatus(s.db, s.tasks[w].id, now, id); }
  }

  /** Every step but a status change leaves status, closing time and deadline alone. */
  lemma NextKeepsStatus(s: System, e: Event, id: ReportId)
    requires SystemInv(s) && id in s.db.reports
    requires e.UpdateStatus? ==> e.publicId != s.db.reports[id].publicId
    ensures SameStatus(s.db, Next(s, e).db, id)
  {
    if CleansUp(e) { CleanupKeepsStatus(s, e, id); } else { OtherStepKeepsStatus(s, e, id); }
  }

  lemma OtherStepKeepsStatus(s: System, e: Event, id: ReportId)
    requires SystemInv(s) && id in s.db.reports && !CleansUp(e)
    requires e.UpdateStatus? ==> e.publicId != s.db.reports[id].publicId
    ensures SameStatus(s.db, Next(s, e).db, id)
  {
    match e
    case Insert(input) => InsertKeepsSubmission(s, input, id);
    case UpdateStatus(p, status, now) => OtherStatusChange(s.db, p, status, now, id);
    case Migrate(w, source, call) => MigrationKeepsStatus(s.db, source, call, id);
    case _ =>
  }

  lemma StatusChange(db: Db, id: ReportId, status: Status, now: int)
    requires DbInv(db) && id in db.reports
    ensures
      var row := db.reports[id];
      var row' := UpdateStatusTx(db, row.publicId, status, now).0.reports[id];
      && id in UpdateStatusTx(db, row.publicId, status, now).0.reports
      && row'.publicId == row.publicId && row'.createdAt == row.createdAt && row'.scrubbed == row.scrubbed
      && (row.scrubbed ==> row' == row)
      && (!row.scrubbed && status != Closed ==>
            Stands(row', status, None, row.createdAt + RETENTION_DAYS * DAY_MS))
      && (!row.scrubbed && status == Closed ==>
            var at := if row.status == Closed && row.closedAt.Some? then row.closedAt.value else now;
            Stands(row', Closed, Some(at),
                   Earlier(row.createdAt + RETENTION_DAYS * DAY_MS, at + CLOSED_RETENTION_DAYS * DAY_MS)))
  {
    var row := db.reports[id];
    assert HasPublicId(db, id, row.publicId);
    var owner := PublicIdOwner(db, row.publicId);
    assert OwnsPublicId(db, owner, row.publicId) && OwnsPublicId(db, id, row.publicId);
  }

  /** A report that is gone left its backup behind. */
  predicate Departed(db: Db, id: ReportId) {
    id !in db.reports && id in db.backups
  }

  /** The report is still there or left its backup, and if it had, it has not come back. */
  predicate LeavesBackup(db: Db, db': Db, id: ReportId) {
    && (id in db.reports || id in db.backups ==> id in db'.reports || id in db'.backups)
    && (Departed(db, id) ==> Departed(db', id))
  }

  lemma ClaimLeavesBackup(db: Db, claimed: ReportId, now: int, id: ReportId)
    requires DbInv(db)
    ensures LeavesBackup(db, ClaimTx(db, claimed, now).0, id)
  {
    if claimed in db.reports {
      NoBackupCollides(db, claimed);
      assert RowOk(db, claimed);
    }
  }

  lemma DeleteLeavesBackup(db: Db, claimed: ReportId, now: int, id: ReportId)
    ensures LeavesBackup(db, PrepareTx(db, claimed, now).0, id) && LeavesBackup(db, CompleteTx(db, claimed, now).0, id)
  {
  }

  lemma InsertLeavesBackup(s: System, input: NewReport, id: ReportId)
    requires input.id !in s.db.backups
    ensures LeavesBackup(s.db, AfterInsert(s, input).db, id)
  {
  }

  lemma MigrationLeavesBackup(db: Db, source: Locator, call: MigrationTarget, id: ReportId)
    ensures LeavesBackup(db, MigratePrepareTx(db, source, call).0, id)
  {
  }

  lemma CleanupLeavesBackup(s: System, e: Event, id: ReportId)
    requires SystemInv(s) && CleansUp(e)
    ensures LeavesBackup(s.db, Next(s, e).db, id)
  {
    match e
    case Claim(w, i, now) => ClaimLeavesBackup(s.db, i, now, id);
    case Prepare(w, now) =>
      if w in s.tasks && s.tasks[w].Holding? { DeleteLeavesBackup(s.db, s.tasks[w].id, now, id); }
    case Finish(w, now) =>
      if w in s.tasks && s.tasks[w].Deleted? { DeleteLeavesBackup(s.db, s.tasks[w].id, now, id); }
  }

  lemma OtherStepLeavesBackup(s: System, e: Event, id: ReportId)
    requires SystemInv(s) && !CleansUp(e)
    ensures LeavesBackup(s.db, Next(s, e).db, id)
  {
    if Allowed(s, e) {
      match e
      case Insert(input) => InsertLeavesBackup(s, input, id);
      case UpdateStatus(p, status, now) => UpdateStatusKeeps(s.db, p, status, now);
      case Migrate(w, source, call) => MigrationLeavesBackup(s.db, source, call, id);
      case _ =>
    }
  }

  /** A report is never lost without its backup, and never comes back. */
  lemma NextLeavesBackup(s: System, e: Event, id: ReportId)
    requires SystemInv(s)
    ensures LeavesBackup(s.db, Next(s, e).db, id)
  {
    if CleansUp(e) { CleanupLeavesBackup(s, e, id); } else { OtherStepLeavesBackup(s, e, id); }
  }

  lemma {:induction false} DepartedStays(s: System, events: seq<Event>, id: ReportId)
    requires SystemInv(s) && Departed(s.db, id)
    ensures Departed(Run(s, events).db, id)
    decreases |events|
  {
    if events != [] {
      NextKeepsInv(s, events[0]);
      NextLeavesBackup(s, events[0], id);
      DepartedStays(Next(s, events[0]), events[1..], id);
    }
  }

  /** The row has been closed for a while, or is not closed, with the deadline that goes with it. */
  predicate Standing(row: Report, keeps: set<Status>) {
    || (keeps == {Closed} && row.status == Closed && row.closedAt.Some?
        && row.expiresAt == Earlier(row.createdAt + RETENTION_DAYS * DAY_MS,
                                    row.closedAt.value + CLOSED_RETENTION_DAYS * DAY_MS))
    || (keeps == {Open, Ack} && row.status in keeps && row.closedAt.None?
        && row.expiresAt == row.createdAt + RETENTION_DAYS * DAY_MS)
  }

  /** Same ids, closing time and deadline, and a status among the kept ones. */
  predicate StandsOn(before: Report, after: Report, keeps: set<Status>) {
    && after.publicId == before.publicId && after.createdAt == before.createdAt
    && after.status in keeps && after.closedAt == before.closedAt && after.expiresAt == before.expiresAt
  }

  lemma StandingStep(s: System, e: Event, id: ReportId, keeps: set<Status>)
    requires SystemInv(s) && id in s.db.reports && StatusStays([e], s.db.reports[id].publicId, keeps)
    requires Standing(s.db.reports[id], keeps) && id in Next(s, e).db.reports
    ensures StandsOn(s.db.reports[id], Next(s, e).db.reports[id], keeps)
  {
    if e.UpdateStatus? && e.publicId == s.db.reports[id].publicId {
      assert [e][0] == e;
      StatusChange(s.db, id, e.status, e.now);
    } else {
      NextKeepsStatus(s, e, id);
    }
  }

  lemma {:induction false} StatusStands(s: System, events: seq<Event>, id: ReportId, keeps: set<Status>)
    requires SystemInv(s) && id in s.db.reports && StatusStays(events, s.db.reports[id].publicId, keeps)
    requires Standing(s.db.reports[id], keeps)
    ensures id in Run(s, events).db.reports ==> StandsOn(s.db.reports[id], Run(s, events).db.reports[id], keeps)
    decreases |events|
  {
    if events != [] {
      var s1 := Next(s, events[0]);
      NextKeepsInv(s, events[0]);
      if id in s1.db.reports {
        StandingStep(s, events[0], id, keeps);
        StatusStands(s1, events[1..], id, keeps);
      } else {
        NextLeavesBackup(s, events[0], id);
        DepartedStays(s1, events[1..], id);
      }
    }
  }

  lemma ClosingStands(s: System, id: ReportId, now: int, later: seq<Event>)
    requires SystemInv(s) && id in s.db.reports && !s.db.reports[id].scrubbed && s.db.reports[id].status != Closed
    requires StatusStays(later, s.db.reports[id].publicId, {Closed})
    ensures
      var row := s.db.reports[id];
      var t := Run(Next(s, UpdateStatus(row.publicId, Closed, now)), later);
      id in t.db.reports ==>
        Stands(t.db.reports[id], Closed, Some(now), Earlier(row.createdAt + 180 * DAY_MS, now + 30 * DAY_MS))
  {
    var closing := UpdateStatus(s.db.reports[id].publicId, Closed, now);
    StatusChange(s.db, id, Closed, now);
    NextKeepsInv(s, closing);
    StatusStands(Next(s, closing), later, id, {Closed});
  }

  /** Closing a report gives it thirty days, or what is left of its half year; closing it again moves nothing. */
  lemma ClosedReportExpires(events: seq<Event>, id: ReportId, now: int, later: seq<Event>)
    requires var s := Run(START, events);
      && id in s.db.reports && !s.db.reports[id].scrubbed && s.db.reports[id].status != Closed
      && StatusStays(later, s.db.reports[id].publicId, {Closed})
    ensures
      var row := Run(START, events).db.reports[id];
      var t := Run(Next(Run(START, events), UpdateStatus(row.publicId, Closed, now)), later);
      id in t.db.reports ==>
        Stands(t.db.reports[id], Closed, Some(now), Earlier(row.createdAt + 180 * DAY_MS, now + 30 * DAY_MS))
  {
    RunKeepsInv(START, events);
    ClosingStands(Run(START, events), id, now, later);
  }

  lemma ReopeningStands(s: System, id: ReportId, status: Status, now: int, later: seq<Event>)
    requires SystemInv(s) && id in s.db.reports && !s.db.reports[id].scrubbed && status != Closed
    requires StatusStays(later, s.db.reports[id].publicId, {Open, Ack})
    ensures
      var row := s.db.reports[id];
      var t := Run(Next(s, UpdateStatus(row.publicId, status, now)), later);
      id in t.db.reports ==>
        && (t.db.reports[id].status == status || (later != [] && t.db.reports[id].status != Closed))
        && t.db.reports[id].closedAt.None? && t.db.reports[id].expiresAt == row.createdAt + 180 * DAY_MS
  {
    var reopening := UpdateStatus(s.db.reports[id].publicId, status, now);
    StatusChange(s.db, id, status, now);
    NextKeepsInv(s, reopening);
    StatusStands(Next(s, reopening), later, id, {Open, Ack});
  }

  /** Reopening a report in time gives it its half year back. */
  lemma ReopenedReportExpires(events: seq<Event>, id: ReportId, status: Status, now: int, later: seq<Event>)
    requires var s := Run(START, events);
      && id in s.db.reports && !s.db.reports[id].scrubbed && status != Closed
      && StatusStays(later, s.db.reports[id].publicId, {Open, Ack})
    ensures
      var row := Run(START, events).db.reports[id];
      var t := Run(Next(Run(START, events), UpdateStatus(row.publicId, status, now)), later);
      id in t.db.reports ==>
        && (t.db.reports[id].status == status || (later != [] && t.db.reports[id].status != Closed))
        && t.db.reports[id].closedAt.None? && t.db.reports[id].expiresAt == row.createdAt + 180 * DAY_MS
  {
    RunKeepsInv(START, events);
    ReopeningStands(Run(START, events), id, status, now, later);
  }

  lemma {:induction false} UntouchedStatusStands(s: System, events: seq<Event>, id: ReportId)
    requires SystemInv(s) && id in s.db.reports && StatusStays(events, s.db.reports[id].publicId, {})
    ensures id in Run(s, events).db.reports ==>
      var row := s.db.reports[id];
      Stands(Run(s, events).db.reports[id], row.status, row.closedAt, row.expiresAt)
    decreases |events|
  {
    if events != [] {
      var s1 := Next(s, events[0]);
      NextKeepsInv(s, events[0]);
      NextKeepsStatus(s, events[0], id);
      if id in s1.db.reports {
        UntouchedStatusStands(s1, events[1..], id);
      } else {
        NextLeavesBackup(s, events[0], id);
        DepartedStays(s1, events[1..], id);
      }
    }
  }

  /** A new report is open, with the deadline it was submitted with, until its status is changed. */
  lemma NewReportIsOpen(events: seq<Event>, input: NewReport, later: seq<Event>)
    requires var s := Run(START, events); Allowed(s, Insert(input)) && InsertTx(s.db, input).1 == Stored
    requires StatusStays(later, input.publicId, {})
    ensures
      var t := Run(Next(Run(START, events), Insert(input)), later);
      input.id in t.db.reports ==> Stands(t.db.reports[input.id], Open, None, input.expiresAt)
  {
    RunKeepsInv(START, events);
    NextKeepsInv(Run(START, events), Insert(input));
    UntouchedStatusStands(Next(Run(START, events), Insert(input)), later, input.id);
  }

  // ------------------------------------------------------- after the deadline

  /** What a claim makes of a report in any state of the tables that a run reaches. */
  ghost predicate ClaimIsRight(db: Db, id: ReportId, now: int)
    requires id in db.reports
  {
    var row := db.reports[id];
    var (db', outcome) := ClaimTx(db, id, now);
    && (outcome == NotClaimable <==> now < row.expiresAt)
    && (outcome == NotClaimable ==> db' == db)
    && (row.expiresAt <= now && row.objectKey.Some? ==>
          && outcome == Retained && id !in db'.reports && KeepsKey(db', id, row.objectKey.value)
          && db'.backups[id].objectCreatedAt == Some(row.createdAt) && !db'.backups[id].deleted
          && KeepsPublicId(db', id, row.publicId) && db'.backups[id].submissionId == row.submissionId)
    && (row.expiresAt <= now && row.objectKey.None? ==>
          && outcome == Claimed(if row.url.Some? then row.url else ClaimedLocator(db, id))
          && ClaimedLocator(db', id) == outcome.url && KeepsPublicId(db', id, row.publicId)
          && id in db'.reports && db'.reports[id].url.None? && db'.reports[id].expiresAt == row.expiresAt
          && (outcome.url.Some? ==> db'.reports[id].content == SCRUBBED_CONTENT))
  }

  lemma ClaimOutcomeIsRight(db: Db, id: ReportId, now: int)
    requires DbInv(db) && id in db.reports
    ensures ClaimIsRight(db, id, now)
  {
    assert RowOk(db, id);
    NoBackupCollides(db, id);
    if id in db.backups { assert BackupOk(db, id); }
  }

  /**
   A claim of a present report is refused exactly before the deadline. From it on a private object moves into the
   inventory with its creation time and the report goes; any other report keeps its row without its content when it
   showed a screenshot, and the claim holds the locator.
   */
  lemma ReportIsClaimableIffExpired(events: seq<Event>, id: ReportId, now: int)
    requires id in Run(START, events).db.reports
    ensures ClaimIsRight(Run(START, events).db, id, now)
  {
    RunKeepsInv(START, events);
    ClaimOutcomeIsRight(Run(START, events).db, id, now);
  }

  /** The backup of this report is still there under its public id. */
  predicate OwnerKept(db: Db, db': Db, id: ReportId)
    requires id in db.backups
  {
    id in db'.backups && db'.backups[id].publicId == db.backups[id].publicId
  }

  lemma DeleteKeepsOwner(db: Db, claimed: ReportId, now: int, id: ReportId)
    requires id in db.backups
    ensures OwnerKept(db, PrepareTx(db, claimed, now).0, id) && OwnerKept(db, CompleteTx(db, claimed, now).0, id)
  {
  }

  lemma OwnerStays(s: System, e: Event, id: ReportId)
    requires (e.Prepare? || e.RemoteDelete? || e.Finish?) && id in s.db.backups
    ensures OwnerKept(s.db, Next(s, e).db, id)
  {
    match e
    case Prepare(w, now) => if w in s.tasks && s.tasks[w].Holding? { DeleteKeepsOwner(s.db, s.tasks[w].id, now, id); }
    case Finish(w, now) => if w in s.tasks && s.tasks[w].Deleted? { DeleteKeepsOwner(s.db, s.tasks[w].id, now, id); }
    case RemoteDelete(w, confirmed) =>
  }

  /** An object that is gone, is not the storage's to delete, or is still shown by a report. */
  predicate Settled(s: System, u: Option<Locator>) {
    u.Some? && u.value.managed ==> u.value in s.erased || IsNamed(s.db, u.value)
  }

  /** What is left of an attempt after its claim. */
  function AfterTheClaim(w: nat, now: int): seq<Event> {
    [Prepare(w, now), RemoteDelete(w, true), Finish(w, now)]
  }

  /** The rest of an attempt whose claim was won. */
  lemma ClaimedAttemptRetires(s: System, id: ReportId, w: nat, now: int)
    requires SystemInv(s) && id in s.db.reports && s.db.reports[id].expiresAt <= now && id in s.db.backups
    requires w in s.tasks && s.tasks[w] == Holding(id, ClaimedLocator(s.db, id))
    ensures
      var t := Run(s, AfterTheClaim(w, now));
      id !in t.db.reports && Settled(t, ClaimedLocator(s.db, id))
  {
    ThreeSteps(s, AfterTheClaim(w, now));
    if ClaimedLocator(s.db, id).Some? {
      PreparedAttemptRetires(s, id, ClaimedLocator(s.db, id).value, w, now);
    } else {
      BareAttemptRetires(s, id, w, now);
    }
  }

  /** A report whose claim holds no locator departs when its deletion is prepared. */
  lemma BareAttemptRetires(s: System, id: ReportId, w: nat, now: int)
    requires SystemInv(s) && id in s.db.reports && s.db.reports[id].expiresAt <= now && id in s.db.backups
    requires ClaimedLocator(s.db, id).None? && w in s.tasks && s.tasks[w] == Holding(id, None)
    ensures id !in Next(Next(Next(s, Prepare(w, now)), RemoteDelete(w, true)), Finish(w, now)).db.reports
  {
    assert BackupOk(s.db, id);
    var s1 := Next(s, Prepare(w, now));
    assert w !in s1.tasks && id !in s1.db.reports;
  }

  lemma {:induction false} AttemptKeepsOwner(s: System, events: seq<Event>, id: ReportId)
    requires forall i | 0 <= i < |events| :: events[i].Prepare? || events[i].RemoteDelete? || events[i].Finish?
    requires id in s.db.backups
    ensures OwnerKept(s.db, Run(s, events).db, id)
    decreases |events|
  {
    if events != [] {
      OwnerStays(s, events[0], id);
      AttemptKeepsOwner(Next(s, events[0]), events[1..], id);
    }
  }

  /** An attempt that ends with its claim. */
  lemma IdleAttempt(s: System, w: nat, now: int)
    requires w !in s.tasks
    ensures Run(s, AfterTheClaim(w, now)) == s
  {
    ThreeSteps(s, AfterTheClaim(w, now));
  }

  lemma AttemptRetires(s: System, id: ReportId, now: int, w: nat)
    requires SystemInv(s) && id in s.db.reports && s.db.reports[id].expiresAt <= now && w !in s.tasks
    ensures
      var row := s.db.reports[id];
      var t := Run(Next(s, Claim(w, id, now)), AfterTheClaim(w, now));
      && id !in t.db.reports && KeepsPublicId(t.db, id, row.publicId)
      && (row.objectKey.Some? ==> KeepsKey(t.db, id, row.objectKey.value)) && Settled(t, row.url)
  {
    var s1 := Next(s, Claim(w, id, now));
    assert RowOk(s.db, id);
    ClaimOutcomeIsRight(s.db, id, now);
    NextKeepsInv(s, Claim(w, id, now));
    if s.db.reports[id].objectKey.Some? {
      IdleAttempt(s1, w, now);
    } else {
      ClaimedAttemptRetires(s1, id, w, now);
      AttemptKeepsOwner(s1, AfterTheClaim(w, now), id);
    }
  }

  /**
   One attempt of a free worker at or after the deadline retires the report: the row goes, its public id stays
   reserved, no locator is left in its claim, and its screenshot is erased, kept in the inventory, or still shown by
   another report.
   */
  lemma ExpiredReportCanBeRetired(events: seq<Event>, id: ReportId, now: int, w: nat)
    requires var s := Run(START, events);
      id in s.db.reports && s.db.reports[id].expiresAt <= now && w !in s.tasks
    ensures
      var row := Run(START, events).db.reports[id];
      var t := Run(Run(START, events), [Claim(w, id, now)] + AfterTheClaim(w, now));
      && id !in t.db.reports && KeepsPublicId(t.db, id, row.publicId) && ClaimedLocator(t.db, id).None?
      && (row.objectKey.Some? ==> KeepsKey(t.db, id, row.objectKey.value))
      && (row.url.Some? && row.url.value.managed ==> row.url.value in t.erased || IsNamed(t.db, row.url.value))
  {
    var s := Run(START, events);
    var attempt := [Claim(w, id, now)] + AfterTheClaim(w, now);
    RunKeepsInv(START, events);
    AttemptRetires(s, id, now, w);
    assert attempt[1..] == AfterTheClaim(w, now);
    RunKeepsInv(s, attempt);
    assert BackupOk(Run(s, attempt).db, id);
  }

  // ----------------------------------------------- what an insert may accept

  /** Nothing is reserved in the tables that was not handed out before. */
  ghost predicate Recorded(db: Db, issued: set<string>, submitted: set<string>, begun: set<Locator>) {
    && (forall i, p | OwnsPublicId(db, i, p) :: p in issued)
    && (forall i, x | OwnsSubmission(db, i, x) :: x in submitted)
    && (forall u | Retired(db, u) :: u in begun)
  }

  ghost predicate HistoryOk(s: System) {
    Recorded(s.db, s.issued.Keys, s.submitted.Keys, s.begun)
  }

  lemma InsertKeepsHistory(s: System, input: NewReport)
    requires HistoryOk(s)
    ensures HistoryOk(AfterInsert(s, input))
  {
    var t := AfterInsert(s, input);
    if InsertTx(s.db, input).1 == Stored {
      assert t.db.backups == s.db.backups && t.db.migrations == s.db.migrations;
      assert forall i, p :: OwnsPublicId(t.db, i, p) ==> OwnsPublicId(s.db, i, p) || p == input.publicId;
      assert forall i, x :: OwnsSubmission(t.db, i, x) ==> OwnsSubmission(s.db, i, x) || Some(x) == input.submissionId;
      assert forall u :: Retired(t.db, u) ==> Retired(s.db, u);
    }
  }

  lemma StatusKeepsHistory(db: Db, p: string, status: Status, now: int, issued: set<string>, submitted: set<string>,
                           begun: set<Locator>)
    requires DbInv(db) && Recorded(db, issued, submitted, begun)
    ensures Recorded(UpdateStatusTx(db, p, status, now).0, issued, submitted, begun)
  {
    var db' := UpdateStatusTx(db, p, status, now).0;
    UpdateStatusKeeps(db, p, status, now);
    assert forall i, q :: OwnsPublicId(db', i, q) ==> OwnsPublicId(db, i, q);
    assert forall i, x :: OwnsSubmission(db', i, x) ==> OwnsSubmission(db, i, x);
    assert forall u :: Retired(db', u) ==> Retired(db, u);
  }

  lemma ClaimKeepsHistory(db: Db, id: ReportId, now: int, issued: set<string>, submitted: set<string>,
                          begun: set<Locator>)
    requires DbInv(db) && Recorded(db, issued, submitted, begun)
    ensures Recorded(ClaimTx(db, id, now).0, issued, submitted, begun)
  {
    var db' := ClaimTx(db, id, now).0;
    if id in db.reports {
      assert RowOk(db, id);
      if id in db.backups { assert BackupOk(db, id); }
    }
    assert forall i, q :: OwnsPublicId(db', i, q) ==> OwnsPublicId(db, i, q);
    assert forall i, x :: OwnsSubmission(db', i, x) ==> OwnsSubmission(db, i, x);
    assert forall u :: Retired(db', u) ==> Retired(db, u);
  }

  lemma PrepareKeepsHistory(db: Db, id: ReportId, now: int, issued: set<string>, submitted: set<string>,
                            begun: set<Locator>)
    requires DbInv(db) && Recorded(db, issued, submitted, begun)
    ensures
      var (db', outcome) := PrepareTx(db, id, now);
      && Recorded(db', issued, submitted, begun + (if outcome.Delete? then {outcome.url} else {}))
      && (outcome.Delete? ==> ClaimedLocator(db, id) == Some(outcome.url))
  {
    var (db', outcome) := PrepareTx(db, id, now);
    if id in db.backups { assert BackupOk(db, id); }
    assert forall i, q :: OwnsPublicId(db', i, q) ==> OwnsPublicId(db, i, q);
    assert forall i, x :: OwnsSubmission(db', i, x) ==> OwnsSubmission(db, i, x);
    assert forall u :: Retired(db', u) ==> Retired(db, u) || outcome == Delete(u);
  }

  lemma CompleteKeepsHistory(db: Db, id: ReportId, now: int, issued: set<string>, submitted: set<string>,
                             begun: set<Locator>)
    requires DbInv(db) && Recorded(db, issued, submitted, begun)
    ensures Recorded(CompleteTx(db, id, now).0, issued, submitted, begun)
  {
    var db' := CompleteTx(db, id, now).0;
    if id in db.backups {
      assert BackupOk(db, id);
      assert forall u | ClaimedLocator(db, id) == Some(u) && db.backups[id].deleteStarted ::
        Tombstone(db.backups[id], u);
    }
    assert forall i, q :: OwnsPublicId(db', i, q) ==> OwnsPublicId(db, i, q);
    assert forall i, x :: OwnsSubmission(db', i, x) ==> OwnsSubmission(db, i, x);
    assert forall u :: Retired(db', u) ==> Retired(db, u);
  }

  lemma MigrationKeepsHistory(db: Db, source: Locator, call: MigrationTarget, issued: set<string>,
                              submitted: set<string>, begun: set<Locator>)
    requires DbInv(db) && Recorded(db, issued, submitted, begun)
    ensures
      var (db', outcome) := MigratePrepareTx(db, source, call);
      Recorded(db', issued, submitted, begun + (if outcome == Prepared then {source} else {}))
    ensures Recorded(MigrateFinishTx(db, source), issued, submitted, begun)
  {
    var (db', outcome) := MigratePrepareTx(db, source, call);
    assert forall i, q :: OwnsPublicId(db', i, q) ==> OwnsPublicId(db, i, q);
    assert forall i, x :: OwnsSubmission(db', i, x) ==> OwnsSubmission(db, i, x);
    assert forall u :: Retired(db', u) ==> Retired(db, u) || (outcome == Prepared && u == source);
    var done := MigrateFinishTx(db, source);
    assert forall i, q :: OwnsPublicId(done, i, q) ==> OwnsPublicId(db, i, q);
    assert forall i, x :: OwnsSubmission(done, i, x) ==> OwnsSubmission(db, i, x);
    assert forall u :: Retired(done, u) ==> Retired(db, u);
  }

  lemma MarkingKeepsHistory(db: Db, id: ReportId, issued: set<string>, submitted: set<string>, begun: set<Locator>)
    requires DbInv(db) && Recorded(db, issued, submitted, begun)
    ensures Recorded(MarkScreenshotDeletedTx(db, id), issued, submitted, begun)
  {
    var db' := MarkScreenshotDeletedTx(db, id);
    if id in db.backups { assert BackupOk(db, id); }
    assert forall i, q :: OwnsPublicId(db', i, q) ==> OwnsPublicId(db, i, q);
    assert forall i, x :: OwnsSubmission(db', i, x) ==> OwnsSubmission(db, i, x);
    assert forall u :: Retired(db', u) ==> Retired(db, u);
  }

  lemma NextKeepsHistory(s: System, e: Event)
    requires SystemInv(s) && HistoryOk(s)
    ensures HistoryOk(Next(s, e))
  {
    if Allowed(s, e) {
      match e
      case Insert(input) => InsertKeepsHistory(s, input);
      case UpdateStatus(p, status, now) =>
        StatusKeepsHistory(s.db, p, status, now, s.issued.Keys, s.submitted.Keys, s.begun);
      case Claim(w, i, now) => ClaimKeepsHistory(s.db, i, now, s.issued.Keys, s.submitted.Keys, s.begun);
      case Prepare(w, now) =>
        if w in s.tasks && s.tasks[w].Holding? {
          assert TaskOk(s, s.tasks[w]);
          PrepareKeepsHistory(s.db, s.tasks[w].id, now, s.issued.Keys, s.submitted.Keys, s.begun);
        }
      case Finish(w, now) =>
        if w in s.tasks && s.tasks[w].Deleted? {
          CompleteKeepsHistory(s.db, s.tasks[w].id, now, s.issued.Keys, s.submitted.Keys, s.begun);
        } else if w in s.tasks && s.tasks[w].SourceDeleted? {
          var source := s.tasks[w].source;
          MigrationKeepsHistory(s.db, source, Durable(source), s.issued.Keys, s.submitted.Keys, s.begun);
        }
      case Migrate(w, source, call) =>
        MigrationKeepsHistory(s.db, source, call, s.issued.Keys, s.submitted.Keys, s.begun);
      case MarkScreenshotDeleted(id) =>
        MarkingKeepsHistory(s.db, id, s.issued.Keys, s.submitted.Keys, s.begun);
      case _ =>
    }
  }

  lemma {:induction false} RunKeepsHistory(s: System, events: seq<Event>)
    requires SystemInv(s) && HistoryOk(s)
    ensures HistoryOk(Run(s, events))
    decreases |events|
  {
    if events != [] {
      NextKeepsInv(s, events[0]);
      NextKeepsHistory(s, events[0]);
      RunKeepsHistory(Next(s, events[0]), events[1..]);
    }
  }

  /** The columns of one row agree: one kind of screenshot, and a private key named after the submission. */
  predicate RowAgrees(input: NewReport) {
    && (input.url.None? || input.objectKey.None?)
    && (input.objectKey.Some? ==>
          input.submissionId.Some? && input.objectKey.value.submission == input.submissionId)
  }

  /**
   In every reachable state a submission under a fresh row id is stored if and only if neither of its ids was ever
   given out, no delete of its screenshot was ever authorised, and no report or inventory row keeps its private key.
   */
  lemma NewSubmissionIsStoredIff(events: seq<Event>, input: NewReport)
    requires input.id !in Run(START, events).db.reports && input.id !in Run(START, events).db.backups
    ensures
      var s := Run(START, events);
      InsertTx(s.db, input).1 == Stored <==>
        && input.publicId !in s.issued
        && (input.submissionId.Some? ==> input.submissionId.value !in s.submitted)
        && (input.url.Some? ==> input.url.value !in s.begun)
        && (input.objectKey.Some? ==> !KeyHeld(s.db, input.objectKey.value))
        && RowAgrees(input)
  {
    var s := Run(START, events);
    RunKeepsInv(START, events);
    RunKeepsHistory(START, events);
    StoredIffUnrecorded(s, input);
  }

  lemma StoredIffUnrecorded(s: System, input: NewReport)
    requires SystemInv(s) && HistoryOk(s) && input.id !in s.db.reports && input.id !in s.db.backups
    ensures InsertTx(s.db, input).1 == Stored <==>
      && input.publicId !in s.issued
      && (input.submissionId.Some? ==> input.submissionId.value !in s.submitted)
      && (input.url.Some? ==> input.url.value !in s.begun)
      && (input.objectKey.Some? ==> !KeyHeld(s.db, input.objectKey.value))
      && RowAgrees(input)
  {
    if input.publicId in s.issued { assert OwnsPublicId(s.db, s.issued[input.publicId], input.publicId); }
    if input.submissionId.Some? && input.submissionId.value in s.submitted {
      assert OwnsSubmission(s.db, s.submitted[input.submissionId.value], input.submissionId.value);
    }
    forall i | i in s.db.backups && s.db.backups[i].objectKey.Some? ensures !s.db.backups[i].deleted {
      assert BackupOk(s.db, i);
    }
    forall i | HasPublicId(s.db, i, input.publicId) || KeepsPublicId(s.db, i, input.publicId)
      ensures input.publicId in s.issued
    {
      assert OwnsPublicId(s.db, i, input.publicId);
    }
    forall i, x | HasSubmission(s.db, i, x) || KeepsSubmission(s.db, i, x) ensures x in s.submitted {
      assert OwnsSubmission(s.db, i, x);
    }
    StoredIffFree(s.db, input);
  }

  /** An insert asks just this of the tables. */
  lemma StoredIffFree(db: Db, input: NewReport)
    requires input.id !in db.reports
    requires forall i | i in db.backups && db.backups[i].objectKey.Some? :: !db.backups[i].deleted
    ensures InsertTx(db, input).1 == Stored <==>
      && (forall i :: !HasPublicId(db, i, input.publicId) && !KeepsPublicId(db, i, input.publicId))
      && (input.submissionId.Some? ==>
            forall i :: !HasSubmission(db, i, input.submissionId.value)
                        && !KeepsSubmission(db, i, input.submissionId.value))
      && (input.url.Some? ==> !Retired(db, input.url.value))
      && (input.objectKey.Some? ==> !KeyHeld(db, input.objectKey.value))
      && RowAgrees(input)
  {
  }

  /** The reservations an insert can run into, in the order in which they are looked up. */
  ghost predicate IdRetired(db: Db, input: NewReport) {
    exists i :: KeepsPublicId(db, i, input.publicId)
  }

  ghost predicate SubmissionIdRetired(db: Db, input: NewReport) {
    input.submissionId.Some? && exists i :: KeepsSubmission(db, i, input.submissionId.value)
  }

  ghost predicate KeyRetired(db: Db, input: NewReport) {
    input.objectKey.Some? && exists i :: KeepsKey(db, i, input.objectKey.value)
  }

  /** A live report stands in the way, or the columns do not agree. */
  ghost predicate Clashes(db: Db, input: NewReport) {
    || input.id in db.reports || !RowAgrees(input)
    || (exists i :: HasPublicId(db, i, input.publicId))
    || (input.objectKey.Some? && exists i :: HasKey(db, i, input.objectKey.value))
  }

  /** A submission id in use is answered for its report; otherwise each refusal names the first reservation met. */
  lemma RefusalNamesTheFirstReservation(events: seq<Event>, input: NewReport)
    ensures
      var s := Run(START, events);
      var outcome := InsertTx(s.db, input).1;
      var begun := input.url.Some? && input.url.value in s.begun;
      if input.submissionId.Some? && exists i :: HasSubmission(s.db, i, input.submissionId.value) then
        || outcome == SubmissionIdReused
        || (outcome.Repeated? && HasSubmission(s.db, outcome.existing, input.submissionId.value))
      else
        outcome ==
          if IdRetired(s.db, input) then PublicIdRetired
          else if SubmissionIdRetired(s.db, input) then SubmissionRetired
          else if KeyRetired(s.db, input) then ScreenshotKeyRetired
          else if begun then LocatorRetired
          else if Clashes(s.db, input) then ConstraintViolated
          else Stored
  {
    var s := Run(START, events);
    RunKeepsInv(START, events);
    RunKeepsHistory(START, events);
    forall i | i in s.db.backups && s.db.backups[i].objectKey.Some? ensures !s.db.backups[i].deleted {
      assert BackupOk(s.db, i);
    }
    OutcomeOfNewReport(s.db, input);
  }

  lemma OutcomeOfNewReport(db: Db, input: NewReport)
    requires forall i | i in db.backups && db.backups[i].objectKey.Some? :: !db.backups[i].deleted
    ensures NewReportOutcome(db, input) ==
      if IdRetired(db, input) then PublicIdRetired
      else if SubmissionIdRetired(db, input) then SubmissionRetired
      else if KeyRetired(db, input) then ScreenshotKeyRetired
      else if input.url.Some? && Retired(db, input.url.value) then LocatorRetired
      else if Clashes(db, input) then ConstraintViolated
      else Stored
  {
  }
}
