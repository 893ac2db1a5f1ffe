/**
 The cascade completion barrier of src/jobs/tournament-sync.jobs.ts. Every role
 reports through its own expiring slot, the report that completes the last role
 sets refresh-pending, and a pending/lease/done claim decides who enqueues the
 materialised-view refresh. Times are in seconds; keys vanish at their expiry.
 */
module CascadeBarrier {
  import opened Wrappers

  const BARRIER_TTL := 7 * 24 * 60 * 60
  const LEASE_TTL := 120

  /** A role's success slot or its enqueue-failed slot. */
  datatype Slot = Slot(role: nat, enqueueFailed: bool)

  datatype Keys = Keys(
    clock: int,
    slots: map<Slot, int>,
    pending: Option<int>,
    lease: Option<int>,
    done: Option<int>)

  predicate RoleDone(slots: map<Slot, int>, role: nat) {
    Slot(role, false) in slots || Slot(role, true) in slots
  }

  function CountDone(slots: map<Slot, int>, roles: nat): (n: nat)
    ensures n <= roles
    ensures n == roles <==> forall r | 0 <= r < roles :: RoleDone(slots, r)
  {
    if roles == 0 then 0
    else CountDone(slots, roles - 1) + if RoleDone(slots, roles - 1) then 1 else 0
  }

  // ---------------------------------------------------------------- scripts

  /** EXPIRE every live slot of the first `roles` roles. */
  function Refreshed(slots: map<Slot, int>, roles: nat, at: int): (r: map<Slot, int>)
    ensures r.Keys == slots.Keys
  {
    map k | k in slots :: if k.role < roles then at else slots[k]
  }

  datatype NoteResult = AlreadyClaimed | BarrierComplete | Remaining(roles: nat)

  function NoteOf(k: Keys, roles: nat, slot: Slot): NoteResult {
    if slot in k.slots then AlreadyClaimed
    else
      var count := CountDone(k.slots[slot := 0], roles);
      if count >= roles then BarrierComplete else Remaining(roles - count)
  }

  function Note(k: Keys, roles: nat, slot: Slot): Keys {
    if slot in k.slots then k
    else
      var slots := k.slots[slot := k.clock + BARRIER_TTL];
      k.(slots := Refreshed(slots, roles, k.clock + BARRIER_TTL),
         pending := if NoteOf(k, roles, slot) == BarrierComplete then Some(k.clock + BARRIER_TTL) else k.pending)
  }

  datatype ClaimResult = ClaimWon | AlreadyEnqueued | NotPending | LeaseBusy

  function ClaimOf(k: Keys): ClaimResult {
    if k.done.Some? then AlreadyEnqueued
    else if k.pending.None? then NotPending
    else if k.lease.Some? then LeaseBusy
    else ClaimWon
  }

  function TryClaim(k: Keys): Keys {
    if ClaimOf(k) == ClaimWon then k.(lease := Some(k.clock + LEASE_TTL)) else k
  }

  /** SET done EX ttl, DEL pending and DEL lease: the three commands after a successful enqueue. */
  function SetDoneKey(k: Keys): Keys { k.(done := Some(k.clock + BARRIER_TTL)) }

  function DropPendingKey(k: Keys): Keys { k.(pending := None) }

  function DropLeaseKey(k: Keys): Keys { k.(lease := None) }

  function Unexpired(key: Option<int>, now: int): Option<int> {
    if key.Some? && key.value <= now then None else key
  }

  function Tick(k: Keys, elapsed: nat): Keys {
    var now := k.clock + elapsed;
    Keys(now, map s | s in k.slots && k.slots[s] > now :: k.slots[s],
         Unexpired(k.pending, now), Unexpired(k.lease, now), Unexpired(k.done, now))
  }

  // ------------------------------------------------------------ the machine

  /**
   A worker that won a claim: about to add the job, added it, or cleaning up. An
   error after the done mark, be it a lost reply, is caught and ends in the same
   release as a failed enqueue.
   */
  datatype Holder =
    | Adding(leaseEnds: int)
    | Added(leaseEnds: int)
    | Releasing(leaseEnds: int)
    | Marked(doneEnds: int)
    | Unpended(doneEnds: int)

  /** Who vouches for the last refresh enqueued. */
  datatype Fence = NoSend | Unmarked(w: nat) | Until(doneEnds: int)

  /** `reported`, `lastClaim`, `fence` and `duplicates` record history; no step reads them. */
  datatype System = System(
    keys: Keys,
    holders: map<nat, Holder>,
    reported: set<Slot>,
    lastClaim: Option<int>,
    fence: Fence,
    duplicates: nat)

  datatype Event =
    | Report(slot: Slot)
    | Claim(w: nat)
    | AddJob(w: nat, added: bool)
    | SetDone(w: nat, applied: bool)
    | DropPending(w: nat)
    | Throw(w: nat)
    | DropLease(w: nat)
    | Crash(w: nat)
    | Elapse(elapsed: nat)

  const START := System(Keys(0, map[], None, None, None), map[], {}, None, NoSend, 0)

  function AfterAdd(s: System, w: nat, added: bool): System
    requires w in s.holders && s.holders[w].Adding?
  {
    var h := s.holders[w];
    if !added then s.(holders := s.holders[w := Releasing(h.leaseEnds)])
    else
      var first := s.fence.NoSend? || (s.fence.Until? && s.fence.doneEnds <= s.keys.clock);
      s.(holders := s.holders[w := Added(h.leaseEnds)],
         fence := Unmarked(w),
         duplicates := if first then s.duplicates else s.duplicates + 1)
  }

  function Next(s: System, roles: nat, e: Event): System {
    match e
    case Report(slot) =>
      if slot.role >= roles then s
      else
        s.(keys := Note(s.keys, roles, slot),
           reported := s.reported + {slot},
           lastClaim := if slot in s.keys.slots then s.lastClaim else Some(s.keys.clock))
    case Claim(w) =>
      if w in s.holders then s
      else
        s.(keys := TryClaim(s.keys),
           holders := if ClaimOf(s.keys) == ClaimWon then s.holders[w := Adding(s.keys.clock + LEASE_TTL)]
             else s.holders)
    case AddJob(w, added) => if w in s.holders && s.holders[w].Adding? then AfterAdd(s, w, added) else s
    case SetDone(w, applied) =>
      if w !in s.holders || !s.holders[w].Added? then s
      else if !applied then s.(holders := s.holders[w := Releasing(s.holders[w].leaseEnds)])
      else
        var ends := s.keys.clock + BARRIER_TTL;
        s.(keys := SetDoneKey(s.keys), holders := s.holders[w := Marked(ends)], fence := Until(ends))
    case DropPending(w) =>
      if w in s.holders && s.holders[w].Marked? then
        s.(keys := DropPendingKey(s.keys), holders := s.holders[w := Unpended(s.holders[w].doneEnds)])
      else s
    case Throw(w) =>
      if w in s.holders && s.holders[w].Marked? then
        s.(holders := s.holders[w := Unpended(s.holders[w].doneEnds)])
      else s
    case DropLease(w) =>
      if w in s.holders && (s.holders[w].Releasing? || s.holders[w].Unpended?) then
        s.(keys := DropLeaseKey(s.keys), holders := s.holders - {w})
      else s
    case Crash(w) => s.(holders := s.holders - {w})
    case Elapse(elapsed) => s.(keys := Tick(s.keys, elapsed))
  }

  function Run(s: System, roles: nat, events: seq<Event>): System
    decreases |events|
  {
    if events == [] then s else Run(Next(s, roles, events[0]), roles, events[1..])
  }

  // ------------------------------------------------ pending is never early

  predicate RoleReported(reported: set<Slot>, role: nat) {
    Slot(role, false) in reported || Slot(role, true) in reported
  }

  predicate AllReported(reported: set<Slot>, roles: nat) {
    forall r | 0 <= r < roles :: RoleReported(reported, r)
  }

  predicate EarlyInv(s: System, roles: nat) {
    && s.keys.slots.Keys <= s.reported
    && (s.keys.pending.Some? ==> AllReported(s.reported, roles))
    && (forall w | w in s.holders :: AllReported(s.reported, roles))
  }

  lemma CompletionNeedsEveryRole(s: System, roles: nat, slot: Slot)
    requires s.keys.slots.Keys <= s.reported
    ensures NoteOf(s.keys, roles, slot) == BarrierComplete ==> AllReported(s.reported + {slot}, roles)
  {
    var slots := s.keys.slots[slot := 0];
    assert forall r: nat :: RoleDone(slots, r) ==> RoleReported(s.reported + {slot}, r);
  }

  lemma {:induction false} RunKeepsEarlyInv(s: System, roles: nat, events: seq<Event>)
    requires EarlyInv(s, roles)
    ensures EarlyInv(Run(s, roles, events), roles)
    decreases |events|
  {
    if events != [] {
      var s1 := Next(s, roles, events[0]);
      if events[0].Report? { CompletionNeedsEveryRole(s, roles, events[0].slot); }
      assert forall r: nat :: RoleReported(s.reported, r) ==> RoleReported(s1.reported, r);
      assert EarlyInv(s1, roles);
      RunKeepsEarlyInv(s1, roles, events[1..]);
    }
  }

  /** Without any timing assumption: a claim is won only after every role reported, and never while done lives. */
  lemma ClaimNeedsEveryRole(roles: nat, events: seq<Event>)
    ensures
      var s := Run(START, roles, events);
      && (s.keys.pending.Some? ==> AllReported(s.reported, roles))
      && (ClaimOf(s.keys) == ClaimWon ==> AllReported(s.reported, roles) && s.keys.done.None? && s.keys.lease.None?)
  {
    RunKeepsEarlyInv(START, roles, events);
  }

  // -------------------------------------- pending is set on the last report

  /** Every slot claim comes less than a TTL after the previous one. */
  predicate Timely(s: System, roles: nat, events: seq<Event>)
    decreases |events|
  {
    events == [] ||
    (&& (events[0].Report? && events[0].slot.role < roles && events[0].slot !in s.keys.slots && s.lastClaim.Some? ==>
           s.keys.clock < s.lastClaim.value + BARRIER_TTL)
     && Timely(Next(s, roles, events[0]), roles, events[1..]))
  }

  /** All reported slots live together, up to one common expiry. */
  predicate TimedInv(s: System, roles: nat) {
    && (forall k | k in s.reported :: k.role < roles)
    && (s.lastClaim.None? <==> s.reported == {})
    && (s.lastClaim.None? ==> s.keys.slots == map[])
    && (s.lastClaim.Some? ==>
          && (s.keys.clock < s.lastClaim.value + BARRIER_TTL ==> s.keys.slots.Keys == s.reported)
          && (s.keys.clock >= s.lastClaim.value + BARRIER_TTL ==> s.keys.slots == map[])
          && (forall k | k in s.keys.slots :: s.keys.slots[k] == s.lastClaim.value + BARRIER_TTL))
  }

  lemma NextKeepsTimedInv(s: System, roles: nat, e: Event)
    requires TimedInv(s, roles) && Timely(s, roles, [e])
    ensures TimedInv(Next(s, roles, e), roles)
  {
  }

  lemma {:induction false} RunKeepsTimedInv(s: System, roles: nat, events: seq<Event>)
    requires TimedInv(s, roles) && Timely(s, roles, events)
    ensures TimedInv(Run(s, roles, events), roles)
    decreases |events|
  {
    if events != [] {
      assert [events[0]][1..] == [];
      NextKeepsTimedInv(s, roles, events[0]);
      RunKeepsTimedInv(Next(s, roles, events[0]), roles, events[1..]);
    }
  }

  /** While all reported slots live, a report sets pending exactly when it is new and every role is in. */
  lemma ReportOutcome(s: System, roles: nat, slot: Slot)
    requires slot.role < roles && TimedInv(s, roles) && Timely(s, roles, [Report(slot)])
    ensures
      var s' := Next(s, roles, Report(slot));
      && (NoteOf(s.keys, roles, slot) == BarrierComplete
        <==> slot !in s.reported && AllReported(s.reported + {slot}, roles))
      && (slot in s.reported ==> NoteOf(s.keys, roles, slot) == AlreadyClaimed && s'.keys == s.keys)
      && (slot !in s.reported && AllReported(s.reported + {slot}, roles) ==>
        s'.keys.pending == Some(s.keys.clock + BARRIER_TTL))
      && (slot !in s.reported && !AllReported(s.reported + {slot}, roles) ==> s'.keys.pending == s.keys.pending)
  {
    var slots := s.keys.slots[slot := 0];
    if slot !in s.reported {
      assert slots.Keys == s.reported + {slot};
      assert forall r: nat :: RoleDone(slots, r) <==> RoleReported(s.reported + {slot}, r);
    }
  }

  /**
   When slot claims are timely, a report completes the barrier exactly when it is new and no role is missing after it.
   */
  lemma NewReportSetsPendingIffAllIn(roles: nat, events: seq<Event>, slot: Slot)
    requires slot.role < roles && Timely(START, roles, events)
      && Timely(Run(START, roles, events), roles, [Report(slot)])
    ensures
      var s := Run(START, roles, events);
      var s' := Next(s, roles, Report(slot));
      && (NoteOf(s.keys, roles, slot) == BarrierComplete
        <==> slot !in s.reported && AllReported(s.reported + {slot}, roles))
      && (slot in s.reported ==> NoteOf(s.keys, roles, slot) == AlreadyClaimed && s'.keys == s.keys)
      && (slot !in s.reported && AllReported(s.reported + {slot}, roles) ==>
        s'.keys.pending == Some(s.keys.clock + BARRIER_TTL))
      && (slot !in s.reported && !AllReported(s.reported + {slot}, roles) ==> s'.keys.pending == s.keys.pending)
  {
    RunKeepsTimedInv(START, roles, events);
    ReportOutcome(Run(START, roles, events), roles, slot);
  }

  /** How many roles have not reported. */
  function MissingRoles(reported: set<Slot>, roles: nat): (n: nat)
    ensures n <= roles
  {
    if roles == 0 then 0
    else MissingRoles(reported, roles - 1) + if RoleReported(reported, roles - 1) then 0 else 1
  }

  lemma {:induction false} DoneOrMissing(slots: map<Slot, int>, reported: set<Slot>, roles: nat)
    requires slots.Keys == reported
    ensures CountDone(slots, roles) + MissingRoles(reported, roles) == roles
  {
    if roles > 0 {
      DoneOrMissing(slots, reported, roles - 1);
      assert RoleDone(slots, roles - 1) <==> RoleReported(reported, roles - 1);
    }
  }

  /** A new report that does not complete the barrier is answered with the number of roles still missing. */
  lemma NewReportCountsMissingRoles(roles: nat, events: seq<Event>, slot: Slot)
    requires slot.role < roles && Timely(START, roles, events)
      && Timely(Run(START, roles, events), roles, [Report(slot)])
    ensures
      var s := Run(START, roles, events);
      var missing := MissingRoles(s.reported + {slot}, roles);
      slot !in s.reported ==>
        NoteOf(s.keys, roles, slot) == if missing == 0 then BarrierComplete else Remaining(missing)
  {
    var s := Run(START, roles, events);
    RunKeepsTimedInv(START, roles, events);
    if slot !in s.reported {
      assert s.keys.slots[slot := 0].Keys == s.reported + {slot};
      DoneOrMissing(s.keys.slots[slot := 0], s.reported + {slot}, roles);
    }
  }

  /** Once set, pending outlives every step but its removal, up to its expiry. */
  lemma {:induction false} PendingStaysUntilDropped(s: System, roles: nat, events: seq<Event>)
    requires s.keys.pending.Some? && s.keys.pending.value <= s.keys.clock + BARRIER_TTL
    requires forall i | 0 <= i < |events| :: !events[i].DropPending?
    requires Run(s, roles, events).keys.clock < s.keys.pending.value
    ensures Run(s, roles, events).keys.pending.Some?
    decreases |events|
  {
    if events != [] {
      var s1 := Next(s, roles, events[0]);
      ClockNeverGoesBack(s1, roles, events[1..]);
      PendingStaysUntilDropped(s1, roles, events[1..]);
    }
  }

  lemma {:induction false} ClockNeverGoesBack(s: System, roles: nat, events: seq<Event>)
    ensures s.keys.clock <= Run(s, roles, events).keys.clock
    decreases |events|
  {
    if events != [] {
      ClockNeverGoesBack(Next(s, roles, events[0]), roles, events[1..]);
    }
  }

  // ------------------------------------------------ what a claim's answer means

  /** Live keys expire in the future, and no lease or done key is set for longer than its TTL. */
  predicate KeysAreLive(k: Keys) {
    && (k.pending.Some? ==> k.clock < k.pending.value <= k.clock + BARRIER_TTL)
    && (k.lease.Some? ==> k.clock < k.lease.value <= k.clock + LEASE_TTL)
    && (k.done.Some? ==> k.clock < k.done.value <= k.clock + BARRIER_TTL)
  }

  lemma NextKeepsKeysLive(s: System, roles: nat, e: Event)
    requires KeysAreLive(s.keys)
    ensures KeysAreLive(Next(s, roles, e).keys)
  {
  }

  lemma {:induction false} RunKeepsKeysLive(s: System, roles: nat, events: seq<Event>)
    requires KeysAreLive(s.keys)
    ensures KeysAreLive(Run(s, roles, events).keys)
    decreases |events|
  {
    if events != [] {
      NextKeepsKeysLive(s, roles, events[0]);
      RunKeepsKeysLive(Next(s, roles, events[0]), roles, events[1..]);
    }
  }

  /**
   A worker that only waits: after "not pending" no wait wins the claim, after "busy" it wins exactly from the lease's
   end, within a lease's time, until pending expires, and after "already enqueued" not before the done key expires.
   */
  lemma WaitingWinsIff(roles: nat, events: seq<Event>, elapsed: nat)
    ensures
      var k := Run(START, roles, events).keys;
      var later := ClaimOf(Tick(k, elapsed));
      && (ClaimOf(k) == NotPending ==> later == NotPending)
      && (ClaimOf(k) == LeaseBusy ==>
            k.lease.Some? && k.pending.Some? && k.lease.value <= k.clock + LEASE_TTL
            && (later == ClaimWon <==> k.lease.value <= k.clock + elapsed < k.pending.value))
      && (ClaimOf(k) == AlreadyEnqueued ==>
            k.done.Some? && (later == AlreadyEnqueued <==> k.clock + elapsed < k.done.value))
  {
    RunKeepsKeysLive(START, roles, events);
  }

  /** After "not pending" nothing but a report can make the claim winnable. */
  lemma {:induction false} NotPendingNeedsAReport(s: System, roles: nat, events: seq<Event>)
    requires s.keys.pending.None? && forall i | 0 <= i < |events| :: !events[i].Report?
    ensures Run(s, roles, events).keys.pending.None?
    ensures ClaimOf(Run(s, roles, events).keys) in {NotPending, AlreadyEnqueued}
    decreases |events|
  {
    if events != [] { NotPendingNeedsAReport(Next(s, roles, events[0]), roles, events[1..]); }
  }

  /** After "already enqueued" no claim is won before the done key expires, whatever happens. */
  lemma {:induction false} EnqueuedBlocksClaims(s: System, roles: nat, events: seq<Event>, ends: int)
    requires s.keys.done.Some? && ends <= s.keys.done.value && ends <= s.keys.clock + BARRIER_TTL
    requires Run(s, roles, events).keys.clock < ends
    ensures ClaimOf(Run(s, roles, events).keys) == AlreadyEnqueued
    decreases |events|
  {
    if events != [] {
      ClockNeverGoesBack(Next(s, roles, events[0]), roles, events[1..]);
      EnqueuedBlocksClaims(Next(s, roles, events[0]), roles, events[1..], ends);
    }
  }

  // ------------------------------------------- a second refresh of a cascade

  predicate BringsNewSlot(s: System, roles: nat, e: Event) {
    e.Report? && e.slot.role < roles && e.slot !in s.reported
  }

  /** A slot that had not reported yet does so somewhere in the run. */
  ghost predicate NewSlotArrives(s: System, roles: nat, events: seq<Event>) {
    exists i :: 0 <= i < |events| && BringsNewSlot(s, roles, events[i])
  }

  lemma {:induction false} TimelySplits(s: System, roles: nat, a: seq<Event>, b: seq<Event>)
    requires Timely(s, roles, a + b)
    ensures Timely(s, roles, a) && Timely(Run(s, roles, a), roles, b)
    decreases |a|
  {
    if a == [] {
      assert a + b == b;
    } else {
      assert (a + b)[0] == a[0] && (a + b)[1..] == a[1..] + b;
      TimelySplits(Next(s, roles, a[0]), roles, a[1..], b);
    }
  }

  lemma {:induction false} PendingReturnsIffNewSlot(s: System, roles: nat, later: seq<Event>)
    requires TimedInv(s, roles) && Timely(s, roles, later) && AllReported(s.reported, roles) && s.keys.pending.None?
    requires forall i | 0 <= i < |later| :: !later[i].DropPending?
    requires Run(s, roles, later).keys.clock < s.keys.clock + BARRIER_TTL
    ensures Run(s, roles, later).keys.pending.Some? <==> NewSlotArrives(s, roles, later)
    decreases |later|
  {
    if later != [] {
      var e, rest := later[0], later[1..];
      var s1 := Next(s, roles, e);
      assert Timely(s, roles, [e]) by { assert [e][1..] == []; }
      NextKeepsTimedInv(s, roles, e);
      ClockNeverGoesBack(s1, roles, rest);
      if BringsNewSlot(s, roles, e) {
        ReportOutcome(s, roles, e.slot);
        assert AllReported(s.reported + {e.slot}, roles) by {
          assert forall r: nat :: RoleReported(s.reported, r) ==> RoleReported(s.reported + {e.slot}, r);
        }
        PendingStaysUntilDropped(s1, roles, rest);
        assert BringsNewSlot(s, roles, later[0]);
      } else {
        OldReportsLeavePendingUnset(s, roles, e);
        PendingReturnsIffNewSlot(s1, roles, rest);
        NewSlotLater(s, roles, later);
      }
    }
  }

  lemma OldReportsLeavePendingUnset(s: System, roles: nat, e: Event)
    requires TimedInv(s, roles) && Timely(s, roles, [e]) && AllReported(s.reported, roles) && s.keys.pending.None?
    requires !BringsNewSlot(s, roles, e)
    ensures var s1 := Next(s, roles, e);
      s1.keys.pending.None? && s1.reported == s.reported && s.keys.clock <= s1.keys.clock
  {
    if e.Report? && e.slot.role < roles { ReportOutcome(s, roles, e.slot); }
  }

  lemma NewSlotLater(s: System, roles: nat, later: seq<Event>)
    requires later != [] && !BringsNewSlot(s, roles, later[0]) && Next(s, roles, later[0]).reported == s.reported
    ensures NewSlotArrives(s, roles, later) <==> NewSlotArrives(Next(s, roles, later[0]), roles, later[1..])
  {
    var s1 := Next(s, roles, later[0]);
    if i :| 0 <= i < |later| && BringsNewSlot(s, roles, later[i]) {
      assert BringsNewSlot(s1, roles, later[1..][i - 1]);
    }
    if i :| 0 <= i < |later[1..]| && BringsNewSlot(s1, roles, later[1..][i]) {
      assert BringsNewSlot(s, roles, later[i + 1]);
    }
  }

  /**
   Once every role is in and the refresh was claimed and dropped, a timely
   cascade can be claimed again, with done and lease out of the way, if and only
   if a slot that had not reported yet arrives. Success and enqueue failure are
   two slots of one role, so such a slot can exist.
   */
  lemma RefreshReopensIffNewSlotArrives(roles: nat, events: seq<Event>, later: seq<Event>)
    requires Timely(START, roles, events + later)
    requires var s := Run(START, roles, events); AllReported(s.reported, roles) && s.keys.pending.None?
    requires forall i | 0 <= i < |later| :: !later[i].DropPending?
    requires Run(Run(START, roles, events), roles, later).keys.clock < Run(START, roles, events).keys.clock
      + BARRIER_TTL
    ensures
      var s := Run(START, roles, events);
      var t := Run(s, roles, later);
      && (t.keys.pending.Some? <==> NewSlotArrives(s, roles, later))
      && (ClaimOf(t.keys) == ClaimWon <==> NewSlotArrives(s, roles, later) && t.keys.done.None? && t.keys.lease.None?)
  {
    TimelySplits(START, roles, events, later);
    RunKeepsTimedInv(START, roles, events);
    PendingReturnsIffNewSlot(Run(START, roles, events), roles, later);
  }

  // -------------------------------------------------------- at most one add

  /** A refresh was added that no expired done key has put behind us. */
  predicate LiveFence(s: System) {
    s.fence.Unmarked? || (s.fence.Until? && s.keys.clock < s.fence.doneEnds)
  }

  /** Nothing is in doubt: whoever is about to add owns the lease, and an unmarked add is covered by one. */
  predicate Guarded(s: System) {
    && (forall w | w in s.holders && s.holders[w].Adding? :: s.keys.lease == Some(s.holders[w].leaseEnds))
    && (s.fence.Unmarked? ==> s.keys.lease.Some?)
  }

  predicate WinsClaim(s: System, e: Event) {
    e.Claim? && e.w !in s.holders && ClaimOf(s.keys) == ClaimWon
  }

  /** Every claim that is won finds nothing in doubt. */
  predicate ClaimsGuarded(s: System, roles: nat, events: seq<Event>)
    decreases |events|
  {
    events == [] ||
    ((WinsClaim(s, events[0]) ==> Guarded(s)) && ClaimsGuarded(Next(s, roles, events[0]), roles, events[1..]))
  }

  ghost predicate AddInv(s: System) {
    && s.duplicates == 0
    && (forall w | w in s.holders && s.holders[w].Added? :: s.fence == Unmarked(w))
    && (forall w | w in s.holders && s.holders[w].Adding? ::
          !LiveFence(s) && s.keys.done.None? && (s.keys.lease.None? || s.keys.lease == Some(s.holders[w].leaseEnds)))
    && (forall w, v | w in s.holders && v in s.holders && s.holders[w].Adding? && s.holders[v].Adding? :: w == v)
    && (s.fence.Unmarked? ==> s.keys.done.None?)
    && (s.fence.Until? && s.keys.clock < s.fence.doneEnds ==> s.keys.done == Some(s.fence.doneEnds))
  }

  lemma HolderStepKeepsAddInv(s: System, roles: nat, e: Event)
    requires AddInv(s) && (e.AddJob? || e.SetDone? || e.DropPending? || e.Throw? || e.DropLease? || e.Crash?)
    ensures AddInv(Next(s, roles, e))
  {
  }

  lemma NextKeepsAddInv(s: System, roles: nat, e: Event)
    requires AddInv(s) && (WinsClaim(s, e) ==> Guarded(s))
    ensures AddInv(Next(s, roles, e))
  {
    if !e.Report? && !e.Claim? && !e.Elapse? { HolderStepKeepsAddInv(s, roles, e); }
  }

  lemma {:induction false} RunKeepsAddInv(s: System, roles: nat, events: seq<Event>)
    requires AddInv(s) && ClaimsGuarded(s, roles, events)
    ensures AddInv(Run(s, roles, events))
    decreases |events|
  {
    if events != [] {
      NextKeepsAddInv(s, roles, events[0]);
      RunKeepsAddInv(Next(s, roles, events[0]), roles, events[1..]);
    }
  }

  /**
   Whatever delays, crashes, failed marks and foreign releases a run holds: if
   nothing is in doubt whenever a claim is won, no refresh is added twice in one
   done-key lifetime.
   */
  lemma RefreshIsAddedOnce(roles: nat, events: seq<Event>)
    requires ClaimsGuarded(START, roles, events)
    ensures Run(START, roles, events).duplicates == 0
  {
    RunKeepsAddInv(START, roles, events);
  }

  predicate ClaimsAndAdds(events: seq<Event>) {
    forall i | 0 <= i < |events| :: events[i].Claim? || events[i].AddJob?
  }

  /** With nothing in doubt, or nothing to claim, claims and adds keep it that way. */
  lemma {:induction false} ClaimsAndAddsStaySafe(s: System, roles: nat, later: seq<Event>)
    requires AddInv(s) && (Guarded(s) || s.keys.pending.None?) && ClaimsAndAdds(later)
    ensures Run(s, roles, later).duplicates == 0
    decreases |later|
  {
    if later != [] {
      var s1 := Next(s, roles, later[0]);
      NextKeepsAddInv(s, roles, later[0]);
      assert Guarded(s1) || s1.keys.pending.None?;
      ClaimsAndAddsStaySafe(s1, roles, later[1..]);
    }
  }

  /** With an add in doubt and pending set, any other worker's claim and adds by workers already there add it twice. */
  lemma DoubtAddsTwice(s: System, roles: nat, v: nat) returns (later: seq<Event>)
    requires AddInv(s) && !Guarded(s) && s.keys.pending.Some? && v !in s.holders
    ensures ClaimsAndAdds(later) && Run(s, roles, later).duplicates > 0
  {
    var w :| s.fence.Unmarked? || (w in s.holders && s.holders[w].Adding?);
    later := [Claim(v), AddJob(v, true), AddJob(w, true)];
    var s1 := Next(s, roles, Claim(v));
    var s2 := Next(s1, roles, AddJob(v, true));
    var s3 := Next(s2, roles, AddJob(w, true));
    assert ClaimOf(s.keys) == ClaimWon;
    assert s2.fence == Unmarked(v) && s3.duplicates > 0;
    assert later[1..][1..] == later[2..] && later[2..][1..] == [];
    assert Run(s2, roles, later[2..]) == Run(s3, roles, []);
    assert Run(s1, roles, later[1..]) == Run(s2, roles, later[2..]);
  }

  lemma {:induction false} FreshWorker(taken: set<nat>) returns (v: nat)
    ensures v !in taken && forall w | w in taken :: w < v
  {
    v := 0;
    if taken != {} {
      var w := Member(taken);
      var above := FreshWorker(taken - {w});
      v := if above > w then above else w + 1;
      forall u | u in taken ensures u < v { assert u == w || u in taken - {w}; }
    }
  }

  /**
   The condition is exact: claims and adds alone can add twice from here if and only if pending is set and an add is in
   doubt.
   */
  lemma AddedTwiceIffInDoubt(roles: nat, events: seq<Event>)
    requires ClaimsGuarded(START, roles, events)
    ensures
      var s := Run(START, roles, events);
      (exists later :: ClaimsAndAdds(later) && Run(s, roles, later).duplicates > 0)
      <==> s.keys.pending.Some? && !Guarded(s)
  {
    var s := Run(START, roles, events);
    RunKeepsAddInv(START, roles, events);
    if s.keys.pending.Some? && !Guarded(s) {
      var v := FreshWorker(s.holders.Keys);
      var later := DoubtAddsTwice(s, roles, v);
    } else {
      forall later | ClaimsAndAdds(later) ensures Run(s, roles, later).duplicates == 0 {
        ClaimsAndAddsStaySafe(s, roles, later);
      }
    }
  }

  // ------------------------------------------------- holders that finish

  predicate Critical(h: Holder) {
    h.Adding? || h.Added? || h.Releasing?
  }

  /** Every holder is still inside its lease, and inside its done key once that is set. */
  predicate Prompt(s: System) {
    forall w | w in s.holders ::
      && (Critical(s.holders[w]) ==> s.keys.clock < s.holders[w].leaseEnds)
      && (!Critical(s.holders[w]) ==> s.keys.clock < s.holders[w].doneEnds)
  }

  /** Holders finish in time, and between adding the job and marking it done they neither crash nor fail. */
  predicate HoldersFinish(s: System, roles: nat, events: seq<Event>)
    decreases |events|
  {
    Prompt(s) &&
    (events == [] ||
     (&& (events[0].Crash? && events[0].w in s.holders ==> !s.holders[events[0].w].Added?)
      && (events[0].SetDone? ==> events[0].applied)
      && HoldersFinish(Next(s, roles, events[0]), roles, events[1..])))
  }

  predicate HolderInv(s: System, w: nat)
    requires w in s.holders
  {
    match s.holders[w]
    case Adding(ends) => s.keys.lease == Some(ends) && s.keys.done.None? && !LiveFence(s)
    case Added(ends) => s.keys.lease == Some(ends) && s.keys.done.None? && s.fence == Unmarked(w)
    case Releasing(ends) => s.keys.lease == Some(ends) && s.keys.done.None? && !s.fence.Unmarked?
    case Marked(ends) => s.keys.done == Some(ends)
    case Unpended(ends) => s.keys.done == Some(ends)
  }

  predicate ExclusiveInv(s: System) {
    && s.duplicates == 0
    && (forall w | w in s.holders :: HolderInv(s, w))
    && (forall w, v | w in s.holders && v in s.holders && Critical(s.holders[w]) && Critical(s.holders[v]) :: w == v)
    && (s.fence.Unmarked? ==> s.fence.w in s.holders && s.holders[s.fence.w].Added?)
    && (s.fence.Until? && s.keys.clock < s.fence.doneEnds ==> s.keys.done == Some(s.fence.doneEnds))
    && (s.keys.lease.Some? ==> s.keys.clock < s.keys.lease.value)
    && (s.keys.done.Some? ==> s.keys.clock < s.keys.done.value && s.fence == Until(s.keys.done.value))
  }

  lemma ClaimStaysExclusive(s: System, roles: nat, w: nat)
    requires ExclusiveInv(s) && Prompt(s) && Prompt(Next(s, roles, Claim(w)))
    ensures ExclusiveInv(Next(s, roles, Claim(w)))
  {
    var s' := Next(s, roles, Claim(w));
    forall v | v in s'.holders ensures HolderInv(s', v) { if v in s.holders { assert HolderInv(s, v); } }
    // A live critical holder would own the lease, so a won claim starts alone.
    forall v | v in s.holders && Critical(s.holders[v]) ensures s.keys.lease.Some? { assert HolderInv(s, v); }
  }

  lemma AddStaysExclusive(s: System, roles: nat, w: nat, added: bool)
    requires ExclusiveInv(s) && Prompt(s) && Prompt(Next(s, roles, AddJob(w, added)))
    ensures ExclusiveInv(Next(s, roles, AddJob(w, added)))
  {
    var s' := Next(s, roles, AddJob(w, added));
    forall v | v in s'.holders ensures HolderInv(s', v) { if v in s.holders { assert HolderInv(s, v); } }
    if w in s.holders { assert HolderInv(s, w); }
  }

  lemma SetDoneStaysExclusive(s: System, roles: nat, w: nat)
    requires ExclusiveInv(s) && Prompt(s) && Prompt(Next(s, roles, SetDone(w, true)))
    ensures ExclusiveInv(Next(s, roles, SetDone(w, true)))
  {
    var s' := Next(s, roles, SetDone(w, true));
    forall v | v in s'.holders ensures HolderInv(s', v) { if v in s.holders { assert HolderInv(s, v); } }
    if w in s.holders { assert HolderInv(s, w); }
  }

  lemma DropStaysExclusive(s: System, roles: nat, w: nat)
    requires ExclusiveInv(s) && Prompt(s) && Prompt(Next(s, roles, DropLease(w)))
    ensures ExclusiveInv(Next(s, roles, DropLease(w)))
  {
    var s' := Next(s, roles, DropLease(w));
    forall v | v in s'.holders ensures HolderInv(s', v) { if v in s.holders { assert HolderInv(s, v); } }
    if w in s.holders { assert HolderInv(s, w); }
  }

  lemma OtherStepsStayExclusive(s: System, roles: nat, e: Event)
    requires ExclusiveInv(s) && Prompt(s) && Prompt(Next(s, roles, e))
    requires
      || e.DropPending? || e.Throw? || e.Elapse?
      || (e.Crash? && (e.w in s.holders ==> !s.holders[e.w].Added?))
    ensures ExclusiveInv(Next(s, roles, e))
  {
    var s' := Next(s, roles, e);
    forall v | v in s'.holders ensures HolderInv(s', v) { assert HolderInv(s, v); }
  }

  /** A report touches neither holder, lease, done key nor fence. */
  lemma ReportStaysExclusive(s: System, roles: nat, slot: Slot)
    requires ExclusiveInv(s)
    ensures ExclusiveInv(Next(s, roles, Report(slot)))
  {
    var s' := Next(s, roles, Report(slot));
    forall v | v in s'.holders ensures HolderInv(s', v) { assert HolderInv(s, v); }
  }

  lemma NextKeepsExclusiveInv(s: System, roles: nat, e: Event)
    requires ExclusiveInv(s) && HoldersFinish(s, roles, [e])
    ensures ExclusiveInv(Next(s, roles, e))
  {
    assert Prompt(Next(s, roles, e));
    match e
    case Claim(w) => ClaimStaysExclusive(s, roles, w);
    case AddJob(w, added) => AddStaysExclusive(s, roles, w, added);
    case SetDone(w, applied) => SetDoneStaysExclusive(s, roles, w);
    case DropLease(w) => DropStaysExclusive(s, roles, w);
    case Report(slot) => ReportStaysExclusive(s, roles, slot);
    case _ => OtherStepsStayExclusive(s, roles, e);
  }

  lemma {:induction false} RunKeepsExclusiveInv(s: System, roles: nat, events: seq<Event>)
    requires ExclusiveInv(s) && HoldersFinish(s, roles, events)
    ensures ExclusiveInv(Run(s, roles, events))
    decreases |events|
  {
    if events != [] {
      assert [events[0]][1..] == [] && Prompt(Next(s, roles, events[0]));
      NextKeepsExclusiveInv(s, roles, events[0]);
      RunKeepsExclusiveInv(Next(s, roles, events[0]), roles, events[1..]);
    }
  }

  lemma {:induction false} FinishingIsGuarded(s: System, roles: nat, events: seq<Event>)
    requires ExclusiveInv(s) && HoldersFinish(s, roles, events)
    ensures ClaimsGuarded(s, roles, events)
    decreases |events|
  {
    if events != [] {
      assert [events[0]][1..] == [] && Prompt(Next(s, roles, events[0]));
      NextKeepsExclusiveInv(s, roles, events[0]);
      FinishingIsGuarded(Next(s, roles, events[0]), roles, events[1..]);
      forall w | w in s.holders ensures HolderInv(s, w) {}
    }
  }

  /**
   A way to stay out of doubt: holders that finish inside their lease and mark what they added. One of them acts at a
   time.
   */
  lemma FinishingHoldersAddOnce(roles: nat, events: seq<Event>)
    requires HoldersFinish(START, roles, events)
    ensures ClaimsGuarded(START, roles, events) && Run(START, roles, events).duplicates == 0
    ensures
      var s := Run(START, roles, events);
      forall w, v | w in s.holders && v in s.holders && Critical(s.holders[w]) && Critical(s.holders[v]) :: w == v
  {
    FinishingIsGuarded(START, roles, events);
    RunKeepsExclusiveInv(START, roles, events);
  }

  lemma {:induction false} RunAppend(s: System, roles: nat, events: seq<Event>, e: Event)
    ensures Run(s, roles, events + [e]) == Next(Run(s, roles, events), roles, e)
    decreases |events|
  {
    if events == [] {
      assert events + [e] == [e] && [e][1..] == [];
      assert Run(s, roles, [e]) == Run(Next(s, roles, e), roles, []);
    } else {
      assert (events + [e])[1..] == events[1..] + [e];
      RunAppend(Next(s, roles, events[0]), roles, events[1..], e);
    }
  }

  predicate StepFinishes(s: System, roles: nat, e: Event) {
    && (e.Crash? && e.w in s.holders ==> !s.holders[e.w].Added?)
    && (e.SetDone? ==> e.applied)
    && Prompt(Next(s, roles, e))
  }

  lemma {:induction false} FinishAppend(s: System, roles: nat, events: seq<Event>, e: Event)
    requires HoldersFinish(s, roles, events) && StepFinishes(Run(s, roles, events), roles, e)
    ensures HoldersFinish(s, roles, events + [e])
    ensures Run(s, roles, events + [e]) == Next(Run(s, roles, events), roles, e)
    decreases |events|
  {
    RunAppend(s, roles, events, e);
    if events == [] {
      assert events + [e] == [e] && [e][1..] == [];
      assert HoldersFinish(Next(s, roles, e), roles, []);
    } else {
      assert (events + [e])[0] == events[0] && (events + [e])[1..] == events[1..] + [e];
      FinishAppend(Next(s, roles, events[0]), roles, events[1..], e);
    }
  }

  /** A one-role cascade up to the enqueued but unmarked refresh. */
  const ENQUEUED := [] + [Report(Slot(0, false))] + [Claim(1)] + [AddJob(1, true)]

  function AfterEnqueue(): System {
    System(Keys(0, map[Slot(0, false) := BARRIER_TTL], Some(BARRIER_TTL), Some(LEASE_TTL), None),
           map[1 := Added(LEASE_TTL)], {Slot(0, false)}, Some(0), Unmarked(1), 0)
  }

  lemma EnqueuedState()
    ensures Run(START, 1, ENQUEUED) == AfterEnqueue() && HoldersFinish(START, 1, ENQUEUED)
  {
    assert CountDone(map[Slot(0, false) := 0], 1) == 1;
    var s1 := Next(START, 1, Report(Slot(0, false)));
    assert s1.keys == Keys(0, map[Slot(0, false) := BARRIER_TTL], Some(BARRIER_TTL), None, None);
    var s2 := Next(s1, 1, Claim(1));
    assert s2.holders == map[1 := Adding(LEASE_TTL)];
    assert Next(s2, 1, AddJob(1, true)).holders == map[1 := Added(LEASE_TTL)];
    FinishAppend(START, 1, [], Report(Slot(0, false)));
    FinishAppend(START, 1, [] + [Report(Slot(0, false))], Claim(1));
    FinishAppend(START, 1, [] + [Report(Slot(0, false))] + [Claim(1)], AddJob(1, true));
  }

  /** Three ways into doubt. A holder that outlives its lease after adding the job lets a second one add it again. */
  lemma OverstayedLeaseAddsTwice()
    ensures Run(START, 1, ENQUEUED + [Elapse(LEASE_TTL)] + [Claim(2)] + [AddJob(2, true)]).duplicates == 1
  {
    EnqueuedState();
    AddedAgain(ENQUEUED, Elapse(LEASE_TTL));
  }

  /** So does one that crashes between adding the job and marking it, once its lease is over. */
  lemma CrashBeforeMarkAddsTwice()
    ensures Run(START, 1, ENQUEUED + [Crash(1)] + [Elapse(LEASE_TTL)] + [Claim(2)] + [AddJob(2, true)]).duplicates == 1
  {
    EnqueuedState();
    RunAppend(START, 1, ENQUEUED, Crash(1));
    AddedAgain(ENQUEUED + [Crash(1)], Elapse(LEASE_TTL));
  }

  /** And one whose done mark fails, as soon as its release has dropped the lease. */
  lemma FailedMarkAddsTwice()
    ensures Run(START, 1, ENQUEUED + [SetDone(1, false)] + [DropLease(1)] + [Claim(2)]
      + [AddJob(2, true)]).duplicates == 1
  {
    EnqueuedState();
    RunAppend(START, 1, ENQUEUED, SetDone(1, false));
    AddedAgain(ENQUEUED + [SetDone(1, false)], DropLease(1));
  }

  /**
   A second worker adds the job again when the event that frees the lease leaves pending set, done unset and the add
   unmarked.
   */
  lemma AddedAgain(events: seq<Event>, freeing: Event)
    requires
      var s := Next(Run(START, 1, events), 1, freeing);
      ClaimOf(s.keys) == ClaimWon && 2 !in s.holders && s.fence == Unmarked(1) && s.duplicates == 0
    ensures Run(START, 1, events + [freeing] + [Claim(2)] + [AddJob(2, true)]).duplicates == 1
  {
    RunAppend(START, 1, events, freeing);
    RunAppend(START, 1, events + [freeing], Claim(2));
    RunAppend(START, 1, events + [freeing] + [Claim(2)], AddJob(2, true));
  }

  /** The first refresh carried to its end: marked, pending dropped, lease dropped. */
  const FINISHED := ENQUEUED + [SetDone(1, true)] + [DropPending(1)] + [DropLease(1)]

  function AfterFinish(): System {
    System(Keys(0, map[Slot(0, false) := BARRIER_TTL], None, None, Some(BARRIER_TTL)),
           map[], {Slot(0, false)}, Some(0), Until(BARRIER_TTL), 0)
  }

  lemma FinishedState()
    ensures Run(START, 1, FINISHED) == AfterFinish() && HoldersFinish(START, 1, FINISHED)
  {
    EnqueuedState();
    FinishAppend(START, 1, ENQUEUED, SetDone(1, true));
    FinishAppend(START, 1, ENQUEUED + [SetDone(1, true)], DropPending(1));
    var unpended := ENQUEUED + [SetDone(1, true)] + [DropPending(1)];
    assert Run(START, 1, unpended).holders == map[1 := Unpended(BARRIER_TTL)];
    FinishAppend(START, 1, unpended, DropLease(1));
    assert Next(Run(START, 1, unpended), 1, DropLease(1)).holders == map[];
  }

  /** The role's other slot reports a second later; when done expires, that pending still stands. */
  const REOPENED := FINISHED + [Elapse(1)] + [Report(Slot(0, true))] + [Elapse(BARRIER_TTL - 1)]

  lemma ReopenedState()
    ensures
      var s := Run(START, 1, REOPENED);
      && HoldersFinish(START, 1, REOPENED) && ClaimOf(s.keys) == ClaimWon && s.keys.clock == BARRIER_TTL
      && s.holders == map[] && s.fence == Until(BARRIER_TTL) && s.duplicates == 0
  {
    FinishedState();
    var waited := FINISHED + [Elapse(1)];
    FinishAppend(START, 1, FINISHED, Elapse(1));
    LateReport(Run(START, 1, waited));
    FinishAppend(START, 1, waited, Report(Slot(0, true)));
    FinishAppend(START, 1, waited + [Report(Slot(0, true))], Elapse(BARRIER_TTL - 1));
    var s := Run(START, 1, REOPENED);
    assert s.keys.pending == Some(BARRIER_TTL + 1) && s.keys.done == None && s.keys.clock == BARRIER_TTL;
  }

  /**
   A late enqueue-failed report after a finished refresh: a second claim is won and adds again, with every holder
   prompt throughout.
   */
  lemma LateSlotReopensTheRefresh()
    ensures
      var s := Run(START, 1, REOPENED);
      ClaimOf(s.keys) == ClaimWon && s.holders == map[] && s.duplicates == 0
    ensures
      var t := Run(START, 1, REOPENED + [Claim(2)] + [AddJob(2, true)]);
      t.holders == map[2 := Added(BARRIER_TTL + LEASE_TTL)] && t.duplicates == 0
    ensures HoldersFinish(START, 1, REOPENED + [Claim(2)] + [AddJob(2, true)])
  {
    ReopenedState();
    FinishAppend(START, 1, REOPENED, Claim(2));
    FinishAppend(START, 1, REOPENED + [Claim(2)], AddJob(2, true));
  }

  lemma LateReport(s: System)
    requires s == Next(AfterFinish(), 1, Elapse(1))
    ensures
      var s' := Next(s, 1, Report(Slot(0, true)));
      s'.keys.pending == Some(BARRIER_TTL + 1) && s'.keys.done == Some(BARRIER_TTL) && s'.keys.lease == None
      && s'.keys.clock == 1 && s'.holders == map[] && s'.fence == Until(BARRIER_TTL) && s'.duplicates == 0
  {
    var slots := s.keys.slots[Slot(0, true) := 0];
    assert RoleDone(slots, 0);
    assert CountDone(slots, 1) == 1;
  }

  /** A worker that ends well leaves the keys as MarkEnqueued does. */
  lemma EnqueueIsMarkedInThreeSteps(s: System, roles: nat, w: nat)
    requires w in s.holders && s.holders[w].Added?
    ensures
      var t := Next(Next(Next(s, roles, SetDone(w, true)), roles, DropPending(w)), roles, DropLease(w));
      t.keys == DropLeaseKey(DropPendingKey(SetDoneKey(s.keys))) && w !in t.holders
        && ClaimOf(t.keys) == AlreadyEnqueued
  {
  }

  /** A worker whose enqueue failed leaves the keys as ReleaseClaim does, and the refresh claimable at once. */
  lemma FailedEnqueueIsReleased(s: System, roles: nat, w: nat)
    requires w in s.holders && s.holders[w].Adding?
    ensures
      var t := Next(Next(s, roles, AddJob(w, false)), roles, DropLease(w));
      && t.keys == DropLeaseKey(s.keys) && w !in t.holders
      && (ClaimOf(t.keys) == ClaimWon <==> s.keys.pending.Some? && s.keys.done.None?)
  {
  }

  /** A worker that meets an error after its done mark ends in the same release, with pending left as it was. */
  lemma ErrorAfterTheMarkIsReleased(s: System, roles: nat, w: nat)
    requires w in s.holders && s.holders[w].Marked? && s.keys.done.Some?
    ensures
      var t := Next(Next(s, roles, Throw(w)), roles, DropLease(w));
      t.keys == DropLeaseKey(s.keys) && w !in t.holders && t.fence == s.fence && ClaimOf(t.keys) == AlreadyEnqueued
  {
  }

  // --------------------------------------------------------------- the keys

  /** The coordination keys of one cascade. Each method is one script or command. */
  class CascadeKeys {
    const roles: nat
    var clock: int
    var slots: map<Slot, int>
    var pending: Option<int>
    var lease: Option<int>
    var done: Option<int>

    function View(): Keys
      reads this
    {
      Keys(clock, slots, pending, lease, done)
    }

    constructor (roles: nat)
      ensures this.roles == roles && View() == Keys(0, map[], None, None, None)
    {
      this.roles := roles;
      clock, slots, pending, lease, done := 0, map[], None, None, None;
    }

    /** Claim the slot, count and refresh the finished roles, and set pending once all are in. */
    method NoteComplete(slot: Slot) returns (result: NoteResult)
      modifies this`slots, this`pending
      ensures result == NoteOf(old(View()), roles, slot) && View() == Note(old(View()), roles, slot)
    {
      if slot in slots {
        return AlreadyClaimed;
      }
      var expiry := clock + BARRIER_TTL;
      slots := slots[slot := expiry];
      SameCount(slots, old(slots)[slot := 0], roles);
      var count := RefreshDone(expiry);
      assert count == CountDone(old(slots)[slot := 0], roles);
      if count >= roles {
        pending := Some(expiry);
        return BarrierComplete;
      }
      return Remaining(roles - count);
    }

    /** Count the finished roles and refresh all their slots. */
    method RefreshDone(expiry: int) returns (count: nat)
      modifies this`slots
      ensures count == CountDone(old(slots), roles) && slots == Refreshed(old(slots), roles, expiry)
    {
      count := 0;
      for role := 0 to roles
        invariant count == CountDone(old(slots), role)
        invariant slots == Refreshed(old(slots), role, expiry)
      {
        assert RoleDone(slots, role) == RoleDone(old(slots), role);
        RefreshOneMore(old(slots), role, expiry);
        var finished := RefreshRole(role, expiry);
        if finished {
          count := count + 1;
        }
      }
    }

    /** EXPIRE whichever of the role's two slots exist. */
    method RefreshRole(role: nat, expiry: int) returns (finished: bool)
      modifies this`slots
      ensures finished == RoleDone(old(slots), role) && slots == RefreshedRole(old(slots), role, expiry)
    {
      var okKey, failKey := Slot(role, false), Slot(role, true);
      assert forall k: Slot :: k.role == role <==> k == okKey || k == failKey;
      finished := okKey in slots || failKey in slots;
      if okKey in slots {
        slots := slots[okKey := expiry];
      }
      if failKey in slots {
        slots := slots[failKey := expiry];
      }
    }

    method TryClaimRefresh() returns (result: ClaimResult)
      modifies this`lease
      ensures result == ClaimOf(old(View())) && View() == TryClaim(old(View()))
    {
      if done.Some? {
        return AlreadyEnqueued;
      }
      if pending.None? {
        return NotPending;
      }
      if lease.Some? {
        return LeaseBusy;
      }
      lease := Some(clock + LEASE_TTL);
      return ClaimWon;
    }

    /** The three commands that follow a successful enqueue. */
    method MarkEnqueued()
      modifies this`done, this`pending, this`lease
      ensures View() == DropLeaseKey(DropPendingKey(SetDoneKey(old(View()))))
      ensures ClaimOf(View()) == AlreadyEnqueued
    {
      done := Some(clock + BARRIER_TTL);
      pending := None;
      lease := None;
    }

    method ReleaseClaim()
      modifies this`lease
      ensures View() == DropLeaseKey(old(View()))
      ensures ClaimOf(View()) == ClaimWon <==> pending.Some? && done.None?
    {
      lease := None;
    }
  }

  lemma {:induction false} SameCount(a: map<Slot, int>, b: map<Slot, int>, roles: nat)
    requires a.Keys == b.Keys
    ensures CountDone(a, roles) == CountDone(b, roles)
  {
    if roles > 0 {
      assert forall k :: k in a <==> k in b;
      SameCount(a, b, roles - 1);
    }
  }

  function RefreshedRole(slots: map<Slot, int>, role: nat, at: int): map<Slot, int> {
    map k | k in slots :: if k.role == role then at else slots[k]
  }

  lemma RefreshOneMore(slots: map<Slot, int>, role: nat, at: int)
    ensures Refreshed(slots, role + 1, at) == RefreshedRole(Refreshed(slots, role, at), role, at)
  {
  }
}
