/**
 What the outbox achieves: deliveries publish their source run for good, one
 undisturbed dispatcher delivers an eligible row, and the other ways out of the
 dispatch loop leave the row for a retry or parked.
 */
module OutboxDelivery {
  import opened Wrappers
  import opened Outbox
  import P = Publications

  // ----------------------------------------------------------- source runs

  predicate BecomesDelivered(s: System, e: Event, id: OutboxId) {
    && id in s.table.rows && !s.table.rows[id].delivered
    && id in Next(s, e).table.rows && Next(s, e).table.rows[id].delivered
  }

  /** The run is known and may be published. */
  predicate Publishable(s: System, run: RunId) {
    run in s.table.runs && s.table.runs[run] != OtherStatus
  }

  /** The step that delivers a row publishes the row's source run, if it may, and touches no other run. */
  lemma DeliveryPublishesItsRun(s: System, e: Event, id: OutboxId)
    requires BecomesDelivered(s, e, id)
    ensures
      var row, runs, runs' := s.table.rows[id], s.table.runs, Next(s, e).table.runs;
      && runs'.Keys == runs.Keys
      && (forall r | r in runs && Some(r) != row.sourceRun :: runs'[r] == runs[r])
      && (row.sourceRun.Some? && row.sourceRun.value in runs ==>
            runs'[row.sourceRun.value] ==
              if Publishable(s, row.sourceRun.value) then PublishedAs(row.publicationId) else OtherStatus)
  {
    assert e.Advance? && (e.owner, e.id) in s.tasks && e.id == id;
    assert s.tasks[(e.owner, e.id)].phase == ToDeliver;
  }

  lemma NextKeepsPublished(s: System, e: Event, run: RunId)
    requires run in s.table.runs && s.table.runs[run].PublishedAs?
    ensures run in Next(s, e).table.runs && Next(s, e).table.runs[run].PublishedAs?
  {
  }

  /** Nothing takes a published run back. */
  lemma {:induction false} PublishedStaysPublished(s: System, events: seq<Event>, run: RunId)
    requires run in s.table.runs && s.table.runs[run].PublishedAs?
    ensures run in Run(s, events).table.runs && Run(s, events).table.runs[run].PublishedAs?
    decreases |events|
  {
    if events != [] {
      NextKeepsPublished(s, events[0], run);
      PublishedStaysPublished(Next(s, events[0]), events[1..], run);
    }
  }

  /** So once a row was delivered while its run could be published, the run is published in every continuation. */
  lemma DeliveredRunStaysPublished(s: System, e: Event, id: OutboxId, run: RunId, later: seq<Event>)
    requires BecomesDelivered(s, e, id) && s.table.rows[id].sourceRun == Some(run) && Publishable(s, run)
    ensures Next(s, e).table.runs[run] == PublishedAs(s.table.rows[id].publicationId)
    ensures run in Run(Next(s, e), later).table.runs && Run(Next(s, e), later).table.runs[run].PublishedAs?
  {
    DeliveryPublishesItsRun(s, e, id);
    PublishedStaysPublished(Next(s, e), later, run);
  }

  // ------------------------------------------------------------- dispatching

  lemma {:induction false} RunAppend(s: System, events: seq<Event>, e: Event)
    ensures Run(s, events + [e]) == Next(Run(s, events), e)
    decreases |events|
  {
    if events == [] {
      assert events + [e] == [e] && [e][1..] == [];
      assert Run(s, [e]) == Run(Next(s, e), []);
    } else {
      assert (events + [e])[1..] == events[1..] + [e];
      RunAppend(Next(s, events[0]), events[1..], e);
    }
  }

  /** A dispatcher that owns the row and is about to do `phase` with it. */
  predicate Working(s: System, owner: Owner, id: OutboxId, m: P.Manifest, phase: Phase) {
    Owns(s.table, id, owner) && (owner, id) in s.tasks && s.tasks[(owner, id)] == Task(m, phase)
  }

  /** Same row for the outside world, whatever its status and lease. */
  predicate SameReceipt(a: Row, b: Row) {
    && a.publicationId == b.publicationId && a.manifest == b.manifest && a.sourceRun == b.sourceRun
    && a.delivered == b.delivered
  }

  /** A claim leases an eligible row to its dispatcher for the lease's time, and counts the attempt. */
  lemma ClaimStartsWork(s: System, owner: Owner, id: OutboxId, leaseMs: nat)
    requires id in s.table.rows && Eligible(s.table.rows[id], s.now) && owner !in s.owners && leaseMs > 0
    ensures
      var t := Next(s, Claim(owner, {id}, leaseMs));
      && Working(t, owner, id, s.table.rows[id].manifest, ToStage)
      && SameReceipt(t.table.rows[id], s.table.rows[id])
      && t.table.rows[id].leaseExpiresAt == Some(s.now + leaseMs)
      && t.table.rows[id].attempts == s.table.rows[id].attempts + 1
      && t.table.rows.Keys == s.table.rows.Keys
      && (forall i | i in s.table.rows && i != id :: t.table.rows[i] == s.table.rows[i])
      && t.table.runs == s.table.runs && t.redis == s.redis && t.now == s.now
  {
  }

  lemma StageStep(s: System, owner: Owner, id: OutboxId, m: P.Manifest, delay: nat)
    requires Working(s, owner, id, m, ToStage) && P.Intact(s.redis, m)
    ensures
      var t := Run(s, [Advance(owner, id, delay), Advance(owner, id, delay)]);
      && Working(t, owner, id, m, ToActivate) && SameReceipt(t.table.rows[id], s.table.rows[id])
      && t.table.rows[id].status == Staged
      && t.table.runs == s.table.runs && t.redis == s.redis && t.now == s.now
  {
    var step := Advance(owner, id, delay);
    RunAppend(s, [], step);
    RunAppend(s, [step], step);
    assert [] + [step] == [step] && [step] + [step] == [step, step];
  }

  lemma AcceptedActivation(s: System, owner: Owner, id: OutboxId, m: P.Manifest, delay: nat)
    requires Working(s, owner, id, m, ToActivate) && P.ActivationOf(s.redis, m) in {P.Published, P.Idempotent}
    ensures
      var t := Next(s, Advance(owner, id, delay));
      && Working(t, owner, id, m, ToMarkActivated) && t.table == s.table && t.now == s.now
      && m.scope in t.redis.active && t.redis.active[m.scope].publicationId == m.publicationId
  {
    P.DeliveryMovesUp(s.redis, m);
  }

  lemma ActivationIsMarked(s: System, owner: Owner, id: OutboxId, m: P.Manifest, delay: nat)
    requires Working(s, owner, id, m, ToMarkActivated)
    ensures
      var t := Next(s, Advance(owner, id, delay));
      && Working(t, owner, id, m, ToDeliver) && SameReceipt(t.table.rows[id], s.table.rows[id])
      && t.table.rows[id].status == RedisActivated
      && t.table.runs == s.table.runs && t.redis == s.redis && t.now == s.now
  {
  }

  lemma ActivateStep(s: System, owner: Owner, id: OutboxId, m: P.Manifest, delay: nat)
    requires Working(s, owner, id, m, ToActivate) && P.ActivationOf(s.redis, m) in {P.Published, P.Idempotent}
    ensures
      var t := Run(s, [Advance(owner, id, delay), Advance(owner, id, delay)]);
      && Working(t, owner, id, m, ToDeliver) && SameReceipt(t.table.rows[id], s.table.rows[id])
      && t.table.runs == s.table.runs && t.now == s.now
      && m.scope in t.redis.active && t.redis.active[m.scope].publicationId == m.publicationId
  {
    var step := Advance(owner, id, delay);
    OneStep(s, step);
    RunAppend(s, [step], step);
    assert [step] + [step] == [step, step];
    AcceptedActivation(s, owner, id, m, delay);
    ActivationIsMarked(Next(s, step), owner, id, m, delay);
  }

  lemma {:induction false} RunConcat(s: System, a: seq<Event>, b: seq<Event>)
    ensures Run(s, a + b) == Run(Run(s, a), b)
    decreases |a|
  {
    if a == [] {
      assert a + b == b;
    } else {
      assert (a + b)[1..] == a[1..] + b;
      RunConcat(Next(s, a[0]), a[1..], b);
    }
  }

  /** A claim of one row and five undisturbed awaits of its dispatcher. */
  function Dispatch(owner: Owner, id: OutboxId, leaseMs: nat, delay: nat): seq<Event> {
    var step := Advance(owner, id, delay);
    [Claim(owner, {id}, leaseMs)] + ([step, step] + ([step, step] + [step]))
  }

  lemma OneStep(s: System, e: Event)
    ensures Run(s, [e]) == Next(s, e)
  {
    RunAppend(s, [], e);
    assert [] + [e] == [e];
  }

  /** The row's receipt and its run as a finished dispatch leaves them. */
  predicate Dispatched(s: System, t: System, id: OutboxId)
    requires id in s.table.rows
  {
    var row := s.table.rows[id];
    && id in t.table.rows && t.table.rows[id].delivered && t.table.rows[id].status == Delivered
    && Unleased(t.table.rows[id])
    && (row.sourceRun.Some? && Publishable(s, row.sourceRun.value) ==>
          row.sourceRun.value in t.table.runs && t.table.runs[row.sourceRun.value] == PublishedAs(row.publicationId))
  }

  lemma DeliverStep(s: System, owner: Owner, id: OutboxId, m: P.Manifest, delay: nat)
    requires Working(s, owner, id, m, ToDeliver)
    ensures
      var t := Next(s, Advance(owner, id, delay));
      Dispatched(s, t, id) && (owner, id) !in t.tasks && t.redis == s.redis
  {
  }

  /**
   An eligible row whose items are staged intact and whose activation is accepted ends delivered, with its run published
   and its publication active, after one claim and five awaits of one dispatcher.
   */
  lemma EligibleRowIsDelivered(s: System, owner: Owner, id: OutboxId, leaseMs: nat, delay: nat)
    requires id in s.table.rows && Eligible(s.table.rows[id], s.now) && owner !in s.owners && leaseMs > 0
    requires Inv(s) && P.Intact(s.redis, s.table.rows[id].manifest)
    requires P.ActivationOf(s.redis, s.table.rows[id].manifest) in {P.Published, P.Idempotent}
    ensures
      var m := s.table.rows[id].manifest;
      var t := Run(s, Dispatch(owner, id, leaseMs, delay));
      && Dispatched(s, t, id) && (owner, id) !in t.tasks
      && m.scope in t.redis.active && t.redis.active[m.scope].publicationId == s.table.rows[id].publicationId
  {
    var m := s.table.rows[id].manifest;
    var step := Advance(owner, id, delay);
    var claim := Claim(owner, {id}, leaseMs);
    assert RowOk(s, id);
    RunConcat(s, [claim], [step, step] + ([step, step] + [step]));
    OneStep(s, claim);
    ClaimStartsWork(s, owner, id, leaseMs);
    var s1 := Next(s, claim);
    RunConcat(s1, [step, step], [step, step] + [step]);
    StageStep(s1, owner, id, m, delay);
    var s2 := Run(s1, [step, step]);
    RunConcat(s2, [step, step], [step]);
    ActivateStep(s2, owner, id, m, delay);
    var s3 := Run(s2, [step, step]);
    OneStep(s3, step);
    DeliverStep(s3, owner, id, m, delay);
  }

  // ----------------------------------------------------- the other ways out

  /** Pending again and leased to nobody, with its receipt as it was. */
  predicate GivenBack(s: System, t: System, id: OutboxId) {
    && id in s.table.rows && id in t.table.rows && SameReceipt(t.table.rows[id], s.table.rows[id])
    && t.table.rows[id].status == Pending && Unleased(t.table.rows[id])
  }

  predicate Unleased(row: Row) {
    row.leaseOwner.None? && row.leaseExpiresAt.None?
  }

  /** Whatever a dispatcher was doing, an error while it owns the row gives the row back: claimable after the delay. */
  lemma ErrorReleasesTheRow(s: System, owner: Owner, id: OutboxId, m: P.Manifest, phase: Phase, delay: nat, at: int)
    requires Working(s, owner, id, m, phase) && phase !in {ToRelease, ToFail}
    ensures
      var t := Run(s, [Throw(owner, id), Advance(owner, id, delay)]);
      && GivenBack(s, t, id) && (owner, id) !in t.tasks && t.table.runs == s.table.runs && t.redis == s.redis
      && (Eligible(t.table.rows[id], at) <==> s.now + delay <= at)
  {
    RunAppend(s, [Throw(owner, id)], Advance(owner, id, delay));
    OneStep(s, Throw(owner, id));
    assert [Throw(owner, id)] + [Advance(owner, id, delay)] == [Throw(owner, id), Advance(owner, id, delay)];
  }

  /** So does a stage that is not intact, and an activation refused for anything but its age. */
  lemma RefusedRowIsReleased(s: System, owner: Owner, id: OutboxId, m: P.Manifest, phase: Phase, delay: nat, at: int)
    requires Working(s, owner, id, m, phase)
    requires
      || (phase == ToStage && !P.Intact(s.redis, m))
      || (phase == ToActivate && P.ActivationOf(s.redis, m) !in {P.Published, P.Idempotent, P.Stale})
    ensures
      var t := Run(s, [Advance(owner, id, delay), Advance(owner, id, delay)]);
      && GivenBack(s, t, id) && (owner, id) !in t.tasks && t.table.runs == s.table.runs && t.redis == s.redis
      && (Eligible(t.table.rows[id], at) <==> s.now + delay <= at)
  {
    var step := Advance(owner, id, delay);
    RunAppend(s, [step], step);
    OneStep(s, step);
    assert [step] + [step] == [step, step];
  }

  /** A dispatcher that finds its lease lost leaves the tables and Redis alone, so it moves no pointer any more. */
  lemma LostLeaseStopsTheDispatcher(s: System, owner: Owner, id: OutboxId, delay: nat)
    requires (owner, id) in s.tasks && !Owns(s.table, id, owner)
    requires s.tasks[(owner, id)].phase in {ToMarkStaged, ToMarkActivated}
    ensures
      var t := Run(s, [Advance(owner, id, delay), Advance(owner, id, delay)]);
      t.table == s.table && t.redis == s.redis && (owner, id) !in t.tasks
    ensures Next(s, Advance(owner, id, delay)).tasks[(owner, id)].phase == ToRelease
  {
    var step := Advance(owner, id, delay);
    RunAppend(s, [step], step);
    OneStep(s, step);
    assert [step] + [step] == [step, step];
  }

  /** Parked: undelivered and never to be leased again. */
  predicate Parked(s: System, id: OutboxId) {
    && id in s.table.rows && s.table.rows[id].status == Failed
    && !s.table.rows[id].delivered && Unleased(s.table.rows[id])
  }

  /** A publication that a newer one has overtaken is parked. */
  lemma StaleRowIsParked(s: System, owner: Owner, id: OutboxId, m: P.Manifest, delay: nat)
    requires Working(s, owner, id, m, ToActivate) && P.ActivationOf(s.redis, m) == P.Stale
    ensures
      var t := Run(s, [Advance(owner, id, delay), Advance(owner, id, delay)]);
      && Parked(t, id) && (owner, id) !in t.tasks && t.table.runs == s.table.runs && t.redis == s.redis
  {
    var step := Advance(owner, id, delay);
    RunAppend(s, [step], step);
    OneStep(s, step);
    assert [step] + [step] == [step, step];
  }

  lemma NextKeepsParked(s: System, e: Event, id: OutboxId)
    requires Parked(s, id)
    ensures Parked(Next(s, e), id) && Next(s, e).table.rows[id] == s.table.rows[id]
  {
  }

  /** No continuation ever touches a parked row. */
  lemma {:induction false} ParkedForGood(s: System, events: seq<Event>, id: OutboxId)
    requires Parked(s, id)
    ensures Parked(Run(s, events), id) && Run(s, events).table.rows[id] == s.table.rows[id]
    decreases |events|
  {
    if events != [] {
      NextKeepsParked(s, events[0], id);
      ParkedForGood(Next(s, events[0]), events[1..], id);
    }
  }

  /** The row is live and leased to `owner` until then. */
  predicate LeasedUntil(s: System, id: OutboxId, owner: Owner, until: int) {
    && id in s.table.rows && s.table.rows[id].leaseOwner == Some(owner) && !s.table.rows[id].delivered
    && s.table.rows[id].leaseExpiresAt == Some(until) && s.table.rows[id].availableAt <= s.now
    && s.table.rows[id].status in {Pending, Staged, DbActivated, RedisActivated}
  }

  lemma LeasedRow(s: System, owner: Owner, id: OutboxId, leaseMs: nat)
    requires id in s.table.rows && Eligible(s.table.rows[id], s.now) && owner !in s.owners && leaseMs > 0
    ensures
      var t := Run(s, [Claim(owner, {id}, leaseMs)]);
      LeasedUntil(t, id, owner, s.now + leaseMs) && t.owners == s.owners + {owner} && t.now == s.now
  {
    OneStep(s, Claim(owner, {id}, leaseMs));
    ClaimStartsWork(s, owner, id, leaseMs);
  }

  lemma WaitingKeepsLease(s: System, id: OutboxId, owner: Owner, until: int, waited: nat)
    requires LeasedUntil(s, id, owner, until)
    ensures
      var t := Run(s, [DatabaseClock(waited)]);
      LeasedUntil(t, id, owner, until) && t.owners == s.owners && t.now == s.now + waited
  {
    OneStep(s, DatabaseClock(waited));
  }

  lemma ClaimTakesIffLeaseRanOut(s: System, owner: Owner, id: OutboxId, leaseMs: nat, first: Owner, until: int)
    requires LeasedUntil(s, id, first, until) && owner !in s.owners && leaseMs > 0
    ensures
      var t := Run(s, [Claim(owner, {id}, leaseMs)]);
      && id in t.table.rows && t.table.rows[id].leaseOwner == Some(if until <= s.now then owner else first)
      && ((owner, id) in t.tasks <==> until <= s.now || (owner, id) in s.tasks)
  {
    OneStep(s, Claim(owner, {id}, leaseMs));
  }

  /** After any wait a leased row can be taken over exactly when its lease has run out. */
  lemma TakeoverWaitsForTheLease(s: System, second: Owner, id: OutboxId, leaseMs: nat, first: Owner, until: int,
    waited: nat)
    requires LeasedUntil(s, id, first, until) && second !in s.owners && leaseMs > 0
    ensures
      var t := Run(s, [DatabaseClock(waited)] + [Claim(second, {id}, leaseMs)]);
      && id in t.table.rows
      && t.table.rows[id].leaseOwner == Some(if until <= s.now + waited then second else first)
  {
    RunConcat(s, [DatabaseClock(waited)], [Claim(second, {id}, leaseMs)]);
    WaitingKeepsLease(s, id, first, until, waited);
    ClaimTakesIffLeaseRanOut(Run(s, [DatabaseClock(waited)]), second, id, leaseMs, first, until);
  }
}
