/**
 The publication outbox of src/repositories/data-publication-outbox.ts: rows are
 leased to dispatchers under fresh owner ids, staged and activated in Redis, and
 acknowledged by guarded updates that only the current owner can make.
 */
module Outbox {
  import opened Wrappers
  import P = Publications

  type Owner = nat
  type OutboxId = nat
  type RunId = nat

  datatype RowStatus = Pending | Staged | DbActivated | RedisActivated | Delivered | Failed

  datatype Row = Row(
    publicationId: string,
    manifest: P.Manifest,
    status: RowStatus,
    delivered: bool,
    leaseOwner: Option<Owner>,
    leaseExpiresAt: Option<int>,
    availableAt: int,
    attempts: nat,
    sourceRun: Option<RunId>)

  /** The source run's state as far as publication is concerned. */
  datatype RunStatus = ReadyToPublish | PublishedAs(publicationId: string) | OtherStatus

  datatype Table = Table(rows: map<OutboxId, Row>, runs: map<RunId, RunStatus>)

  // ------------------------------------------------------------ transactions

  predicate Eligible(row: Row, now: int) {
    && !row.delivered
    && row.availableAt <= now
    && (row.leaseExpiresAt.None? || row.leaseExpiresAt.value <= now)
    && row.status in {Pending, Staged, DbActivated, RedisActivated}
  }

  function Leased(row: Row, owner: Owner, now: int, leaseMs: nat): Row {
    row.(leaseOwner := Some(owner), leaseExpiresAt := Some(now + leaseMs), attempts := row.attempts + 1)
  }

  /** The claim locks some of the eligible rows; rows other transactions hold are skipped. */
  function ClaimTx(t: Table, picked: set<OutboxId>, owner: Owner, now: int, leaseMs: nat): (r: Table)
    ensures r.rows.Keys == t.rows.Keys
  {
    t.(rows := LeasedRows(t.rows, picked, owner, now, leaseMs))
  }

  function LeasedRows(rows: map<OutboxId, Row>, picked: set<OutboxId>, owner: Owner, now: int, leaseMs: nat)
    : (r: map<OutboxId, Row>)
    ensures r.Keys == rows.Keys
  {
    map i | i in rows :: if i in picked && Eligible(rows[i], now) then Leased(rows[i], owner, now, leaseMs) else rows[i]
  }

  function EligibleAmong(rows: map<OutboxId, Row>, picked: set<OutboxId>, now: int): set<OutboxId> {
    set i | i in picked && i in rows && Eligible(rows[i], now)
  }

  /** The guard on every acknowledgement: still leased to this owner and not delivered. */
  predicate Owns(t: Table, id: OutboxId, owner: Owner) {
    id in t.rows && t.rows[id].leaseOwner == Some(owner) && !t.rows[id].delivered
  }

  function MarkStageTx(t: Table, id: OutboxId, owner: Owner, status: RowStatus): Table {
    if Owns(t, id, owner) then t.(rows := t.rows[id := t.rows[id].(status := status)]) else t
  }

  function MarkDeliveredTx(t: Table, id: OutboxId, owner: Owner): Table {
    if !Owns(t, id, owner) then t
    else
      var row := t.rows[id];
      t.(rows := t.rows[id := row.(status := Delivered, delivered := true, leaseOwner := None, leaseExpiresAt := None)],
         runs :=
           if row.sourceRun.Some? && row.sourceRun.value in t.runs && !t.runs[row.sourceRun.value].OtherStatus?
           then t.runs[row.sourceRun.value := PublishedAs(row.publicationId)]
           else t.runs)
  }

  function ReleaseTx(t: Table, id: OutboxId, owner: Owner, now: int, retryDelayMs: nat): Table {
    if Owns(t, id, owner) then
      t.(rows := t.rows[id := t.rows[id].(status := Pending, availableAt := now + retryDelayMs,
                                          leaseOwner := None, leaseExpiresAt := None)])
    else t
  }

  function FailTx(t: Table, id: OutboxId, owner: Owner): Table {
    if Owns(t, id, owner) then
      t.(rows := t.rows[id := t.rows[id].(status := Failed, leaseOwner := None, leaseExpiresAt := None)])
    else t
  }

  // ------------------------------------------------------------- the machine

  /** The next thing one dispatcher does with one claimed row. */
  datatype Phase = ToStage | ToMarkStaged | ToActivate | ToMarkActivated | ToDeliver | ToRelease | ToFail

  datatype Task = Task(manifest: P.Manifest, phase: Phase)

  /** `owners` and `everActive` record the owner ids used and the publications any Redis pointer ever named. */
  datatype System = System(
    table: Table,
    now: int,
    redis: P.Store,
    tasks: map<(Owner, OutboxId), Task>,
    owners: set<Owner>,
    everActive: set<string>)

  datatype Event =
    | Enqueue(id: OutboxId, row: Row)
    | SourceRun(run: RunId, ready: bool)
    | Claim(owner: Owner, picked: set<OutboxId>, leaseMs: nat)
    | Advance(owner: Owner, id: OutboxId, retryDelayMs: nat)
    | Throw(owner: Owner, id: OutboxId)
    | Crash(owner: Owner)
    | RedisStep(step: P.Event)
    | DatabaseClock(elapsed: nat)

  function ActiveIds(r: P.Store): set<string> {
    set scope | scope in r.active :: r.active[scope].publicationId
  }

  function Observed(s: System): System {
    s.(everActive := s.everActive + ActiveIds(s.redis))
  }

  /** One await of the dispatch loop for the row; a lost lease or a failed stage throws into the release path. */
  function AdvanceTask(s: System, owner: Owner, id: OutboxId, retryDelayMs: nat): System
    requires (owner, id) in s.tasks
  {
    var key := (owner, id);
    var t := s.tasks[key];
    var owns := Owns(s.table, id, owner);
    match t.phase
    case ToStage =>
      s.(tasks := s.tasks[key := t.(phase := if P.Intact(s.redis, t.manifest) then ToMarkStaged else ToRelease)])
    case ToMarkStaged =>
      s.(table := MarkStageTx(s.table, id, owner, Staged),
         tasks := s.tasks[key := t.(phase := if owns then ToActivate else ToRelease)])
    case ToActivate =>
      var outcome := P.ActivationOf(s.redis, t.manifest);
      s.(redis := P.Activate(s.redis, t.manifest),
         tasks := s.tasks[key := t.(phase :=
           if outcome == P.Published || outcome == P.Idempotent then ToMarkActivated
           else if outcome == P.Stale then ToFail
           else ToRelease)])
    case ToMarkActivated =>
      s.(table := MarkStageTx(s.table, id, owner, RedisActivated),
         tasks := s.tasks[key := t.(phase := if owns then ToDeliver else ToRelease)])
    case ToDeliver =>
      s.(table := MarkDeliveredTx(s.table, id, owner), tasks := s.tasks - {key})
    case ToRelease =>
      s.(table := ReleaseTx(s.table, id, owner, s.now, retryDelayMs), tasks := s.tasks - {key})
    case ToFail =>
      s.(table := FailTx(s.table, id, owner), tasks := s.tasks - {key})
  }

  /** One task for every row the claim leases. */
  function NewTasks(s: System, owner: Owner, picked: set<OutboxId>): (r: map<(Owner, OutboxId), Task>)
    ensures forall key | key in r ::
      key.0 == owner && key.1 in s.table.rows && r[key] == Task(s.table.rows[key.1].manifest, ToStage)
  {
    map i | i in picked && i in s.table.rows && Eligible(s.table.rows[i], s.now)
      :: (owner, i) := Task(s.table.rows[i].manifest, ToStage)
  }

  predicate FreshRow(row: Row) {
    && row.status == Pending && !row.delivered && row.leaseOwner.None? && row.leaseExpiresAt.None?
    && row.manifest.publicationId == row.publicationId && row.manifest.WellKeyed()
  }

  function Step(s: System, e: Event): System {
    match e
    case Enqueue(id, row) =>
      if id in s.table.rows || !FreshRow(row) then s else s.(table := s.table.(rows := s.table.rows[id := row]))
    case SourceRun(run, ready) =>
      if run in s.table.runs && s.table.runs[run].PublishedAs? then s
      else s.(table := s.table.(runs := s.table.runs[run := if ready then ReadyToPublish else OtherStatus]))
    case Claim(owner, picked, leaseMs) =>
      if owner in s.owners || leaseMs == 0 then s
      else
        s.(table := ClaimTx(s.table, picked, owner, s.now, leaseMs),
           owners := s.owners + {owner},
           tasks := s.tasks + NewTasks(s, owner, picked))
    case Advance(owner, id, retryDelayMs) =>
      if (owner, id) in s.tasks then AdvanceTask(s, owner, id, retryDelayMs) else s
    case Throw(owner, id) =>
      if (owner, id) !in s.tasks then s
      else if s.tasks[(owner, id)].phase == ToRelease || s.tasks[(owner, id)].phase == ToFail then
        s.(tasks := s.tasks - {(owner, id)})
      else s.(tasks := s.tasks[(owner, id) := s.tasks[(owner, id)].(phase := ToRelease)])
    case Crash(owner) => s.(tasks := map k | k in s.tasks && k.0 != owner :: s.tasks[k])
    case RedisStep(step) => s.(redis := P.Next(s.redis, step))
    case DatabaseClock(elapsed) => s.(now := s.now + elapsed)
  }

  function Next(s: System, e: Event): System {
    Observed(Step(s, e))
  }

  function Run(s: System, events: seq<Event>): System
    decreases |events|
  {
    if events == [] then s else Run(Next(s, events[0]), events[1..])
  }

  /** Runs start with an empty outbox, no source run published and any Redis contents. */
  ghost predicate Initial(s: System) {
    && s.table.rows == map[] && s.tasks == map[] && s.owners == {} && s.everActive == ActiveIds(s.redis)
    && forall r | r in s.table.runs :: !s.table.runs[r].PublishedAs?
  }

  // --------------------------------------------------------------- invariant

  ghost predicate RowOk(s: System, id: OutboxId)
    requires id in s.table.rows
  {
    var row := s.table.rows[id];
    && row.manifest.publicationId == row.publicationId && row.manifest.WellKeyed()
    && (row.delivered <==> row.status == Delivered)
    && (row.delivered ==> row.leaseOwner.None?)
    && (row.status == Delivered || row.status == RedisActivated ==> row.publicationId in s.everActive)
    && (row.leaseOwner.Some? ==> row.leaseOwner.value in s.owners)
  }

  ghost predicate TaskOk(s: System, key: (Owner, OutboxId))
    requires key in s.tasks
  {
    var t := s.tasks[key];
    && key.0 in s.owners
    && key.1 in s.table.rows && s.table.rows[key.1].manifest == t.manifest
    && (t.phase == ToMarkActivated || t.phase == ToDeliver ==> t.manifest.publicationId in s.everActive)
  }

  ghost predicate DeliveredFor(s: System, run: RunId, id: OutboxId, publicationId: string) {
    && id in s.table.rows && s.table.rows[id].delivered
    && s.table.rows[id].sourceRun == Some(run) && s.table.rows[id].publicationId == publicationId
  }

  ghost predicate Inv(s: System) {
    && (forall id | id in s.table.rows :: RowOk(s, id))
    && (forall key | key in s.tasks :: TaskOk(s, key))
    && (forall r | r in s.table.runs && s.table.runs[r].PublishedAs? ::
          exists id :: DeliveredFor(s, r, id, s.table.runs[r].publicationId))
  }

  /** A step that touches neither rows, runs nor tasks keeps the invariant. */
  lemma Untouched(s: System, s': System)
    requires Inv(s) && s'.table == s.table && s'.tasks == s.tasks && s'.owners == s.owners
      && s.everActive <= s'.everActive
    ensures Inv(s')
  {
    forall id | id in s'.table.rows ensures RowOk(s', id) { assert RowOk(s, id); }
    forall key | key in s'.tasks ensures TaskOk(s', key) { assert TaskOk(s, key); }
    forall r | r in s'.table.runs && s'.table.runs[r].PublishedAs?
      ensures exists id :: DeliveredFor(s', r, id, s'.table.runs[r].publicationId)
    {
      var id :| DeliveredFor(s, r, id, s.table.runs[r].publicationId);
      assert DeliveredFor(s', r, id, s'.table.runs[r].publicationId);
    }
  }

  lemma ClaimKeepsRow(s: System, owner: Owner, picked: set<OutboxId>, leaseMs: nat, id: OutboxId)
    requires Inv(s) && id in Step(s, Claim(owner, picked, leaseMs)).table.rows
    ensures RowOk(Step(s, Claim(owner, picked, leaseMs)), id)
  {
    assert RowOk(s, id);
  }

  lemma ClaimKeepsTask(s: System, owner: Owner, picked: set<OutboxId>, leaseMs: nat, key: (Owner, OutboxId))
    requires Inv(s) && key in Step(s, Claim(owner, picked, leaseMs)).tasks
    ensures TaskOk(Step(s, Claim(owner, picked, leaseMs)), key)
  {
    if key in s.tasks { assert TaskOk(s, key); }
  }

  lemma ClaimKeepsInv(s: System, owner: Owner, picked: set<OutboxId>, leaseMs: nat)
    requires Inv(s)
    ensures Inv(Step(s, Claim(owner, picked, leaseMs)))
  {
    var s' := Step(s, Claim(owner, picked, leaseMs));
    forall id | id in s'.table.rows ensures RowOk(s', id) { ClaimKeepsRow(s, owner, picked, leaseMs, id); }
    forall key | key in s'.tasks ensures TaskOk(s', key) { ClaimKeepsTask(s, owner, picked, leaseMs, key); }
    forall r | r in s'.table.runs && s'.table.runs[r].PublishedAs?
      ensures exists id :: DeliveredFor(s', r, id, s'.table.runs[r].publicationId)
    {
      var id :| DeliveredFor(s, r, id, s.table.runs[r].publicationId);
      assert DeliveredFor(s', r, id, s'.table.runs[r].publicationId);
    }
  }

  /** A guarded update of one row, possibly publishing its run, together with moves among its tasks. */
  lemma RowUpdateKeepsInv(s: System, s': System, id: OutboxId, row: Row)
    requires Inv(s) && id in s.table.rows && s'.table.rows == s.table.rows[id := row]
    requires s'.owners == s.owners && s.everActive <= s'.everActive
    requires var before := s.table.rows[id];
      && row.manifest == before.manifest && row.publicationId == before.publicationId
        && row.sourceRun == before.sourceRun
      && (before.delivered ==> row.delivered)
    requires RowOk(s', id)
    requires forall key | key in s'.tasks :: key in s.tasks && TaskOk(s', key)
    requires s'.table.runs == s.table.runs
      || (row.delivered && row.sourceRun.Some?
        && s'.table.runs == s.table.runs[row.sourceRun.value := PublishedAs(row.publicationId)])
    ensures Inv(s')
  {
    forall i | i in s'.table.rows ensures RowOk(s', i) { if i != id { assert RowOk(s, i); } }
    forall r | r in s'.table.runs && s'.table.runs[r].PublishedAs?
      ensures exists i :: DeliveredFor(s', r, i, s'.table.runs[r].publicationId)
    {
      if r in s.table.runs && s'.table.runs[r] == s.table.runs[r] {
        var i :| DeliveredFor(s, r, i, s.table.runs[r].publicationId);
        assert DeliveredFor(s', r, i, s'.table.runs[r].publicationId);
      } else {
        assert DeliveredFor(s', r, id, s'.table.runs[r].publicationId);
      }
    }
  }

  lemma ActivateKeepsInv(s: System, owner: Owner, id: OutboxId, retryDelayMs: nat)
    requires Inv(s) && (owner, id) in s.tasks && s.tasks[(owner, id)].phase == ToActivate
    ensures Inv(Observed(AdvanceTask(s, owner, id, retryDelayMs)))
  {
    var s' := Observed(AdvanceTask(s, owner, id, retryDelayMs));
    var key := (owner, id);
    var t := s.tasks[key];
    assert TaskOk(s, key);
    if s'.tasks[key].phase == ToMarkActivated {
      ActivationIsObserved(s, s', t.manifest);
    }
    var still := s'.(tasks := s.tasks);
    Untouched(s, still);
    TasksMove(still, s');
  }

  /** Tasks may move as long as each keeps its promise. */
  lemma TasksMove(s: System, s': System)
    requires Inv(s) && s'.table == s.table && s'.owners == s.owners && s'.everActive == s.everActive
    requires forall key | key in s'.tasks ::
      key in s.tasks && s'.tasks[key].manifest == s.tasks[key].manifest
      && (s'.tasks[key].phase in {ToMarkActivated, ToDeliver} && s'.tasks[key].phase != s.tasks[key].phase ==>
            s'.tasks[key].manifest.publicationId in s'.everActive)
    ensures Inv(s')
  {
    forall id | id in s'.table.rows ensures RowOk(s', id) { assert RowOk(s, id); }
    forall key | key in s'.tasks ensures TaskOk(s', key) { assert TaskOk(s, key); }
    forall r | r in s'.table.runs && s'.table.runs[r].PublishedAs?
      ensures exists i :: DeliveredFor(s', r, i, s'.table.runs[r].publicationId)
    {
      var i :| DeliveredFor(s, r, i, s.table.runs[r].publicationId);
      assert DeliveredFor(s', r, i, s'.table.runs[r].publicationId);
    }
  }

  /** The owner's guarded row update, whichever it is, with every task left where it is. */
  lemma AcknowledgeKeepsInv(s: System, id: OutboxId, owner: Owner, table: Table, row: Row)
    requires Inv(s) && id in s.table.rows && Owns(s.table, id, owner)
    requires table.rows == s.table.rows[id := row]
    requires var before := s.table.rows[id];
      row.manifest == before.manifest && row.publicationId == before.publicationId && row.sourceRun == before.sourceRun
    requires row.delivered <==> row.status == Delivered
    requires row.leaseOwner == None || (row.leaseOwner == Some(owner) && !row.delivered)
    requires row.status in {Delivered, RedisActivated} ==> row.publicationId in s.everActive
    requires table.runs == s.table.runs
      || (row.delivered && row.sourceRun.Some?
        && table.runs == s.table.runs[row.sourceRun.value := PublishedAs(row.publicationId)])
    ensures Inv(s.(table := table))
  {
    var s' := s.(table := table);
    assert RowOk(s, id);
    forall key | key in s'.tasks ensures key in s.tasks && TaskOk(s', key) { assert TaskOk(s, key); }
    RowUpdateKeepsInv(s, s', id, row);
  }

  lemma AdvanceTableKeepsInv(s: System, owner: Owner, id: OutboxId, retryDelayMs: nat)
    requires Inv(s) && (owner, id) in s.tasks && s.tasks[(owner, id)].phase != ToActivate
    ensures Inv(s.(table := AdvanceTask(s, owner, id, retryDelayMs).table))
  {
    var table := AdvanceTask(s, owner, id, retryDelayMs).table;
    assert TaskOk(s, (owner, id)) && RowOk(s, id);
    if table != s.table {
      AcknowledgeKeepsInv(s, id, owner, table, table.rows[id]);
    } else {
      assert s.(table := table) == s;
    }
  }

  lemma AdvanceKeepsInv(s: System, owner: Owner, id: OutboxId, retryDelayMs: nat)
    requires Inv(s) && (owner, id) in s.tasks
    ensures Inv(Observed(AdvanceTask(s, owner, id, retryDelayMs)))
  {
    if s.tasks[(owner, id)].phase == ToActivate {
      ActivateKeepsInv(s, owner, id, retryDelayMs);
    } else {
      AcknowledgingKeepsInv(s, owner, id, retryDelayMs);
      Untouched(AdvanceTask(s, owner, id, retryDelayMs), Observed(AdvanceTask(s, owner, id, retryDelayMs)));
    }
  }

  /** Every await but the activation: the table moves first, then the task. */
  lemma AcknowledgingKeepsInv(s: System, owner: Owner, id: OutboxId, retryDelayMs: nat)
    requires Inv(s) && (owner, id) in s.tasks && s.tasks[(owner, id)].phase != ToActivate
    ensures Inv(AdvanceTask(s, owner, id, retryDelayMs))
  {
    var s1 := AdvanceTask(s, owner, id, retryDelayMs);
    AdvanceTableKeepsInv(s, owner, id, retryDelayMs);
    TaskAdvances(s, owner, id, retryDelayMs);
    TasksMove(s.(table := s1.table), s1);
  }

  lemma TaskAdvances(s: System, owner: Owner, id: OutboxId, retryDelayMs: nat)
    requires (owner, id) in s.tasks && s.tasks[(owner, id)].phase != ToActivate
    requires TaskOk(s, (owner, id))
    ensures
      var s1 := AdvanceTask(s, owner, id, retryDelayMs);
      && s1.owners == s.owners && s1.everActive == s.everActive && s1.redis == s.redis
      && forall key | key in s1.tasks ::
        key in s.tasks && s1.tasks[key].manifest == s.tasks[key].manifest
        && (s1.tasks[key].phase in {ToMarkActivated, ToDeliver} && s1.tasks[key].phase != s.tasks[key].phase ==>
              s1.tasks[key].manifest.publicationId in s.everActive)
  {
  }

  lemma ActivationIsObserved(s: System, s': System, m: P.Manifest)
    requires P.ActivationOf(s.redis, m) == P.Published || P.ActivationOf(s.redis, m) == P.Idempotent
    requires s'.redis == P.Activate(s.redis, m) && ActiveIds(s'.redis) <= s'.everActive
    ensures m.publicationId in s'.everActive
  {
    P.DeliveryMovesUp(s.redis, m);
    assert m.scope in s'.redis.active && s'.redis.active[m.scope].publicationId == m.publicationId;
  }

  lemma EnqueueKeepsInv(s: System, id: OutboxId, row: Row)
    requires Inv(s)
    ensures Inv(Step(s, Enqueue(id, row)))
  {
    var s' := Step(s, Enqueue(id, row));
    forall i | i in s'.table.rows ensures RowOk(s', i) { if i in s.table.rows { assert RowOk(s, i); } }
    forall key | key in s'.tasks ensures TaskOk(s', key) { assert TaskOk(s, key); }
    forall r | r in s'.table.runs && s'.table.runs[r].PublishedAs?
      ensures exists i :: DeliveredFor(s', r, i, s'.table.runs[r].publicationId)
    {
      var i :| DeliveredFor(s, r, i, s.table.runs[r].publicationId);
      assert DeliveredFor(s', r, i, s'.table.runs[r].publicationId);
    }
  }

  /** Ingestion adds source runs and moves unpublished ones; it publishes none. */
  lemma SourceRunKeepsInv(s: System, run: RunId, ready: bool)
    requires Inv(s)
    ensures Inv(Step(s, SourceRun(run, ready)))
  {
    var s' := Step(s, SourceRun(run, ready));
    forall i | i in s'.table.rows ensures RowOk(s', i) { assert RowOk(s, i); }
    forall key | key in s'.tasks ensures TaskOk(s', key) { assert TaskOk(s, key); }
    forall r | r in s'.table.runs && s'.table.runs[r].PublishedAs?
      ensures exists i :: DeliveredFor(s', r, i, s'.table.runs[r].publicationId)
    {
      var i :| DeliveredFor(s, r, i, s.table.runs[r].publicationId);
      assert DeliveredFor(s', r, i, s'.table.runs[r].publicationId);
    }
  }

  lemma NextKeepsInv(s: System, e: Event)
    requires Inv(s)
    ensures Inv(Next(s, e))
  {
    var s1 := Step(s, e);
    match e
    case Enqueue(id, row) =>
      EnqueueKeepsInv(s, id, row);
      Untouched(s1, Next(s, e));
    case SourceRun(run, ready) =>
      SourceRunKeepsInv(s, run, ready);
      Untouched(s1, Next(s, e));
    case Claim(owner, picked, leaseMs) =>
      ClaimKeepsInv(s, owner, picked, leaseMs);
      Untouched(s1, Next(s, e));
    case Advance(owner, id, retryDelayMs) =>
      if (owner, id) in s.tasks { AdvanceKeepsInv(s, owner, id, retryDelayMs); } else { Untouched(s, Next(s, e)); }
    case Throw(owner, id) =>
      TasksMove(s, s1);
      Untouched(s1, Next(s, e));
    case Crash(owner) =>
      TasksMove(s, s1);
      Untouched(s1, Next(s, e));
    case RedisStep(step) => Untouched(s, Next(s, e));
    case DatabaseClock(elapsed) => Untouched(s, Next(s, e));
  }

  lemma {:induction false} RunKeepsInv(s: System, events: seq<Event>)
    requires Inv(s)
    ensures Inv(Run(s, events))
    decreases |events|
  {
    if events != [] {
      NextKeepsInv(s, events[0]);
      RunKeepsInv(Next(s, events[0]), events[1..]);
    }
  }

  // ---------------------------------------------------------------- theorems

  /** A delivered row's publication was named by the Redis pointer at an earlier step. */
  lemma DeliveredRowWasActive(s: System, events: seq<Event>, id: OutboxId)
    requires Initial(s)
    ensures
      var t := Run(s, events);
      id in t.table.rows && t.table.rows[id].delivered ==> t.table.rows[id].publicationId in t.everActive
  {
    RunKeepsInv(s, events);
    var t := Run(s, events);
    if id in t.table.rows { assert RowOk(t, id); }
  }

  /** A published source run points at a publication some delivered row of that run carried into Redis. */
  lemma PublishedRunWasDelivered(s: System, events: seq<Event>, run: RunId)
    requires Initial(s)
    ensures
      var t := Run(s, events);
      run in t.table.runs && t.table.runs[run].PublishedAs? ==>
        && t.table.runs[run].publicationId in t.everActive
        && exists id :: DeliveredFor(t, run, id, t.table.runs[run].publicationId)
  {
    RunKeepsInv(s, events);
    var t := Run(s, events);
    if run in t.table.runs && t.table.runs[run].PublishedAs? {
      var id :| DeliveredFor(t, run, id, t.table.runs[run].publicationId);
      assert RowOk(t, id);
    }
  }

  /** Nothing in any continuation changes a delivered row. */
  lemma {:induction false} DeliveredIsAbsorbing(s: System, events: seq<Event>, id: OutboxId)
    requires id in s.table.rows && s.table.rows[id].delivered
    ensures id in Run(s, events).table.rows && Run(s, events).table.rows[id] == s.table.rows[id]
    decreases |events|
  {
    if events != [] {
      DeliveredIsAbsorbing(Next(s, events[0]), events[1..], id);
    }
  }

  /** Not leased to `owner`, which no later claim can be. */
  predicate Lost(s: System, id: OutboxId, owner: Owner) {
    owner in s.owners && id in s.table.rows && s.table.rows[id].leaseOwner != Some(owner)
  }

  lemma ClaimKeepsLost(s: System, claimant: Owner, picked: set<OutboxId>, leaseMs: nat, id: OutboxId, owner: Owner)
    requires Lost(s, id, owner)
    ensures Lost(Step(s, Claim(claimant, picked, leaseMs)), id, owner)
  {
  }

  lemma AdvanceKeepsLost(s: System, mover: Owner, row: OutboxId, delay: nat, id: OutboxId, owner: Owner)
    requires Lost(s, id, owner)
    ensures Lost(Step(s, Advance(mover, row, delay)), id, owner)
  {
  }

  lemma LostLeaseStaysLost(s: System, e: Event, id: OutboxId, owner: Owner)
    requires Lost(s, id, owner)
    ensures Lost(Next(s, e), id, owner)
  {
    match e
    case Claim(claimant, picked, leaseMs) => ClaimKeepsLost(s, claimant, picked, leaseMs, id, owner);
    case Advance(mover, row, delay) => AdvanceKeepsLost(s, mover, row, delay, id, owner);
    case _ =>
  }

  /** An owner whose row was released or reclaimed never owns it again in any continuation. */
  lemma {:induction false} LostLeaseNeverReturns(s: System, events: seq<Event>, id: OutboxId, owner: Owner)
    requires Lost(s, id, owner)
    ensures Lost(Run(s, events), id, owner) && !Owns(Run(s, events).table, id, owner)
    decreases |events|
  {
    if events != [] {
      LostLeaseStaysLost(s, events[0], id, owner);
      LostLeaseNeverReturns(Next(s, events[0]), events[1..], id, owner);
    }
  }

  /** So no later step of that owner changes the row, whatever phase its dispatcher had reached. */
  lemma ReclaimedRowIgnoresItsOldOwner(s: System, events: seq<Event>, id: OutboxId, owner: Owner, delay: nat)
    requires Lost(s, id, owner)
    ensures
      var t := Run(s, events);
      Next(t, Advance(owner, id, delay)).table == t.table
  {
    LostLeaseNeverReturns(s, events, id, owner);
    UnownedAdvance(Run(s, events), id, owner, delay);
  }

  lemma UnownedAdvance(t: System, id: OutboxId, owner: Owner, delay: nat)
    requires !Owns(t.table, id, owner)
    ensures Next(t, Advance(owner, id, delay)).table == t.table
  {
  }

  // ---------------------------------------- activation without acknowledgement

  /** Redis names the row's publication, but its fetch time is not the one the row's manifest proves. */
  predicate FetchTimeMoved(r: P.Store, m: P.Manifest) {
    m.scope in r.active && r.active[m.scope].publicationId == m.publicationId
      && r.active[m.scope].lastFetchAt != m.lastFetchAt
  }

  /** Undelivered, and no dispatcher stands between its activation and its acknowledgement. */
  predicate Unacknowledged(s: System, id: OutboxId, m: P.Manifest) {
    && id in s.table.rows && !s.table.rows[id].delivered && s.table.rows[id].manifest == m
    && forall key | key in s.tasks && key.1 == id :: s.tasks[key].phase !in {ToMarkActivated, ToDeliver}
  }

  predicate FetchTimeStaysMoved(s: System, events: seq<Event>, m: P.Manifest)
    decreases |events|, 1
  {
    FetchTimeMoved(s.redis, m) && FetchTimeStaysMovedAfter(s, events, m)
  }

  /** In every state of the run but its first. */
  predicate FetchTimeStaysMovedAfter(s: System, events: seq<Event>, m: P.Manifest)
    decreases |events|, 0
  {
    events == [] || FetchTimeStaysMoved(Next(s, events[0]), events[1..], m)
  }

  lemma AdvanceStaysUnacknowledged(s: System, owner: Owner, row: OutboxId, delay: nat, id: OutboxId, m: P.Manifest)
    requires Inv(s) && Unacknowledged(s, id, m) && FetchTimeMoved(s.redis, m) && (owner, row) in s.tasks
    ensures Unacknowledged(AdvanceTask(s, owner, row, delay), id, m)
  {
    assert TaskOk(s, (owner, row));
    if row == id {
      assert P.ActivationOf(s.redis, m) == P.IdConflict;
    }
  }

  lemma NextStaysUnacknowledged(s: System, e: Event, id: OutboxId, m: P.Manifest)
    requires Inv(s) && Unacknowledged(s, id, m) && FetchTimeMoved(s.redis, m)
    ensures Unacknowledged(Next(s, e), id, m)
  {
    if e.Advance? && (e.owner, e.id) in s.tasks {
      AdvanceStaysUnacknowledged(s, e.owner, e.id, e.retryDelayMs, id, m);
    }
  }

  /**
   As long as the moved fetch time stays active, no dispatcher ever delivers the row, though its publication is live.
   */
  lemma {:induction false} MovedFetchTimeBlocksDelivery(s: System, events: seq<Event>, id: OutboxId, m: P.Manifest)
    requires Inv(s) && Unacknowledged(s, id, m) && FetchTimeStaysMoved(s, events, m)
    ensures Unacknowledged(Run(s, events), id, m)
    decreases |events|
  {
    if events != [] {
      NextKeepsInv(s, events[0]);
      NextStaysUnacknowledged(s, events[0], id, m);
      MovedFetchTimeBlocksDelivery(Next(s, events[0]), events[1..], id, m);
    }
  }

  /** A dispatcher at its activation gets past it if and only if the active fetch time is still the row's own. */
  lemma RedeliveryPassesIffFetchTimeStands(s: System, owner: Owner, id: OutboxId, delay: nat,
    book: map<string, P.Manifest>)
    requires Inv(s) && (owner, id) in s.tasks && s.tasks[(owner, id)].phase == ToActivate
    requires var m := s.table.rows[id].manifest;
      && P.BookOk(s.redis, book) && P.Registered(book, m)
      && m.scope in s.redis.active && s.redis.active[m.scope].publicationId == m.publicationId
    ensures
      var t := Next(s, Advance(owner, id, delay));
      && (t.tasks[(owner, id)].phase == ToMarkActivated <==> !FetchTimeMoved(s.redis, s.table.rows[id].manifest))
      && (t.tasks[(owner, id)].phase == ToRelease <==> FetchTimeMoved(s.redis, s.table.rows[id].manifest))
  {
    assert TaskOk(s, (owner, id));
    var m := s.table.rows[id].manifest;
    assert P.Registered(book, s.redis.active[m.scope]);
    P.RedeliveryOutcome(s.redis, book, m);
  }

  function AfterHeartbeat(s: System, owner: Owner, id: OutboxId, delay: nat, at: int): System
    requires id in s.table.rows
  {
    var m := s.table.rows[id].manifest;
    Next(Next(Next(s, Advance(owner, id, delay)), Crash(owner)),
         RedisStep(P.Swap(m.scope, m.publicationId, Some(P.Heartbeat(m, at)))))
  }

  /** A heartbeat after the activation replaces the pointer and moves its fetch time. */
  lemma HeartbeatMovesFetchTime(s: System, owner: Owner, id: OutboxId, delay: nat, at: int)
    requires Inv(s) && P.PointerSafe(s.redis) && (owner, id) in s.tasks && s.tasks[(owner, id)].phase == ToActivate
    requires P.ActivationOf(s.redis, s.table.rows[id].manifest) == P.Published
    requires s.table.rows[id].manifest.lastFetchAt != Some(at)
    ensures FetchTimeMoved(AfterHeartbeat(s, owner, id, delay, at).redis, s.table.rows[id].manifest)
  {
    var m := s.table.rows[id].manifest;
    assert TaskOk(s, (owner, id)) && RowOk(s, id);
    var r := P.Activate(s.redis, m);
    P.DeliveryMovesUp(s.redis, m);
    P.ActivateIsSafe(s.redis, m);
    assert P.ManifestSafe(r, m.scope);
    assert P.PresentPrefix(r, m.items) == |m.items|;
    assert P.SwapOf(r, m.scope, m.publicationId, Some(P.Heartbeat(m, at))) == P.Replaced;
  }

  /**
   Any dispatcher that publishes its row and dies before acknowledging it, followed by one heartbeat, leaves a row
   nobody can deliver.
   */
  lemma CrashThenHeartbeatBlocksDelivery(s: System, owner: Owner, id: OutboxId, delay: nat, at: int, later: seq<Event>)
    requires Inv(s) && P.PointerSafe(s.redis) && (owner, id) in s.tasks && s.tasks[(owner, id)].phase == ToActivate
    requires !s.table.rows[id].delivered && P.ActivationOf(s.redis, s.table.rows[id].manifest) == P.Published
    requires forall key | key in s.tasks && key.1 == id && key.0 != owner ::
      s.tasks[key].phase !in {ToMarkActivated, ToDeliver}
    requires s.table.rows[id].manifest.lastFetchAt != Some(at)
    requires
      var m := s.table.rows[id].manifest;
      FetchTimeStaysMovedAfter(AfterHeartbeat(s, owner, id, delay, at), later, m)
    ensures
      var m := s.table.rows[id].manifest;
      var beaten := AfterHeartbeat(s, owner, id, delay, at);
      && FetchTimeMoved(beaten.redis, m) && m.publicationId in beaten.everActive
      && id in Run(beaten, later).table.rows && !Run(beaten, later).table.rows[id].delivered
  {
    var m := s.table.rows[id].manifest;
    assert TaskOk(s, (owner, id));
    var s1 := Next(s, Advance(owner, id, delay));
    var s2 := Next(s1, Crash(owner));
    var beaten := AfterHeartbeat(s, owner, id, delay, at);
    ActivationIsObserved(s, s1, m);
    NextKeepsInv(s, Advance(owner, id, delay));
    NextKeepsInv(s1, Crash(owner));
    NextKeepsInv(s2, RedisStep(P.Swap(m.scope, m.publicationId, Some(P.Heartbeat(m, at)))));
    HeartbeatMovesFetchTime(s, owner, id, delay, at);
    assert Unacknowledged(beaten, id, m);
    MovedFetchTimeBlocksDelivery(beaten, later, id, m);
  }

  // --------------------------------------------------------------- the table

  function SetOf(ids: seq<OutboxId>): set<OutboxId> {
    set i | i in ids
  }

  /** A leased row is no longer eligible, so selecting it again changes nothing. */
  lemma ClaimOneMore(rows: map<OutboxId, Row>, ids: seq<OutboxId>, n: nat, owner: Owner, now: int, leaseMs: nat)
    requires leaseMs > 0 && n < |ids|
    ensures
      var r := LeasedRows(rows, SetOf(ids[..n]), owner, now, leaseMs);
      var leases := ids[n] in r && Eligible(r[ids[n]], now);
      && LeasedRows(rows, SetOf(ids[..n + 1]), owner, now, leaseMs)
         == (if leases then r[ids[n] := Leased(r[ids[n]], owner, now, leaseMs)] else r)
      && EligibleAmong(rows, SetOf(ids[..n + 1]), now)
         == EligibleAmong(rows, SetOf(ids[..n]), now) + (if leases then {ids[n]} else {})
  {
    assert ids[..n + 1] == ids[..n] + [ids[n]];
    assert SetOf(ids[..n + 1]) == SetOf(ids[..n]) + {ids[n]};
  }

  /** The outbox and sync-run tables. Each method is one transaction. */
  class OutboxTable {
    var rows: map<OutboxId, Row>
    var runs: map<RunId, RunStatus>

    function View(): Table
      reads this
    {
      Table(rows, runs)
    }

    /** Lease every selected row that is still eligible. */
    method Claim(selected: seq<OutboxId>, owner: Owner, now: int, leaseMs: nat) returns (claimed: set<OutboxId>)
      requires leaseMs > 0
      modifies this`rows
      ensures View() == ClaimTx(old(View()), SetOf(selected), owner, now, leaseMs)
      ensures claimed == EligibleAmong(old(rows), SetOf(selected), now)
    {
      claimed := {};
      for n := 0 to |selected|
        invariant rows == LeasedRows(old(rows), SetOf(selected[..n]), owner, now, leaseMs)
        invariant claimed == EligibleAmong(old(rows), SetOf(selected[..n]), now)
      {
        ClaimOneMore(old(rows), selected, n, owner, now, leaseMs);
        var id := selected[n];
        if id in rows && Eligible(rows[id], now) {
          rows := rows[id := Leased(rows[id], owner, now, leaseMs)];
          claimed := claimed + {id};
        }
      }
      assert selected[..|selected|] == selected;
    }

    method MarkStage(id: OutboxId, owner: Owner, status: RowStatus) returns (updated: bool)
      modifies this`rows
      ensures updated == Owns(old(View()), id, owner) && View() == MarkStageTx(old(View()), id, owner, status)
    {
      updated := id in rows && rows[id].leaseOwner == Some(owner) && !rows[id].delivered;
      if updated {
        rows := rows[id := rows[id].(status := status)];
      }
    }

    method MarkDelivered(id: OutboxId, owner: Owner) returns (updated: bool)
      modifies this`rows, this`runs
      ensures updated == Owns(old(View()), id, owner) && View() == MarkDeliveredTx(old(View()), id, owner)
    {
      updated := id in rows && rows[id].leaseOwner == Some(owner) && !rows[id].delivered;
      if updated {
        var row := rows[id];
        rows := rows[id := row.(status := Delivered, delivered := true, leaseOwner := None, leaseExpiresAt := None)];
        if row.sourceRun.Some? && row.sourceRun.value in runs && !runs[row.sourceRun.value].OtherStatus? {
          runs := runs[row.sourceRun.value := PublishedAs(row.publicationId)];
        }
      }
    }

    method Release(id: OutboxId, owner: Owner, now: int, retryDelayMs: nat) returns (updated: bool)
      modifies this`rows
      ensures updated == Owns(old(View()), id, owner) && View() == ReleaseTx(old(View()), id, owner, now, retryDelayMs)
    {
      updated := id in rows && rows[id].leaseOwner == Some(owner) && !rows[id].delivered;
      if updated {
        rows := rows[id := rows[id].(status := Pending, availableAt := now + retryDelayMs,
                                     leaseOwner := None, leaseExpiresAt := None)];
      }
    }

    method Fail(id: OutboxId, owner: Owner) returns (updated: bool)
      modifies this`rows
      ensures updated == Owns(old(View()), id, owner) && View() == FailTx(old(View()), id, owner)
    {
      updated := id in rows && rows[id].leaseOwner == Some(owner) && !rows[id].delivered;
      if updated {
        rows := rows[id := rows[id].(status := Failed, leaseOwner := None, leaseExpiresAt := None)];
      }
    }
  }
}
