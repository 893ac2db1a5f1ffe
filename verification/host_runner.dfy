/**
 The execution and probe branches of src/content/host-grok-runner.ts. Each
 stretch between two awaits is one step; executions settle whenever they like.
 */
module HostRunner {
  import opened Wrappers

  const CONCURRENCY := 2
  const STORED_TTL_MS := 10 * 60_000
  const PROBE_MIN_INTERVAL_MS := 60_000
  const PROBE_MAX_AGE_MS := 30 * 60_000

  type RunId = string
  type Hash = nat

  /** `exec` identifies the execution whose response is stored or awaited. */
  datatype Stored = Stored(hash: Hash, exec: nat, expiresAt: int)
  datatype InFlight = InFlight(hash: Hash, exec: nat)

  datatype State = State(
    active: int,
    executions: map<RunId, Stored>,
    inFlight: map<RunId, InFlight>,
    probeInFlight: bool,
    lastProbeAt: Option<int>,
    lastProbeOk: Option<bool>)

  // -------------------------------------------------------------- stretches

  datatype Decision =
    | Replay(exec: nat)
    | DuplicateRunId
    | Join(exec: nat)
    | Saturated
    | Start

  /** The handler up to its first await, in source order. */
  function Decide(s: State, run: RunId, hash: Hash, now: int): Decision {
    if run in s.executions && s.executions[run].expiresAt > now then
      if s.executions[run].hash != hash then DuplicateRunId else Replay(s.executions[run].exec)
    else if run in s.inFlight then
      if s.inFlight[run].hash != hash then DuplicateRunId else Join(s.inFlight[run].exec)
    else if s.active >= CONCURRENCY then Saturated
    else Start
  }

  function Begin(s: State, run: RunId, hash: Hash, exec: nat): State {
    s.(active := s.active + 1, inFlight := s.inFlight[run := InFlight(hash, exec)])
  }

  function Swept(executions: map<RunId, Stored>, now: int): (r: map<RunId, Stored>)
    ensures r.Keys <= executions.Keys
  {
    map k | k in executions && executions[k].expiresAt > now :: executions[k]
  }

  /** The owner's continuation: store the response, sweep, and leave. */
  function Complete(s: State, run: RunId, hash: Hash, exec: nat, ok: bool, now: int): State {
    s.(active := s.active - 1,
       executions := Swept(s.executions[run := Stored(hash, exec, now + STORED_TTL_MS)], now),
       inFlight := s.inFlight - {run},
       lastProbeAt := if ok then Some(now) else s.lastProbeAt,
       lastProbeOk := if ok then Some(true) else s.lastProbeOk)
  }

  datatype ProbeDecision = ProbeBusy | ProbeRateLimited | ProbeSaturated | ProbeStart

  function DecideProbe(s: State, now: int): ProbeDecision {
    if s.probeInFlight then ProbeBusy
    else if s.lastProbeAt.Some? && now - s.lastProbeAt.value < PROBE_MIN_INTERVAL_MS then ProbeRateLimited
    else if s.active >= CONCURRENCY then ProbeSaturated
    else ProbeStart
  }

  function BeginProbe(s: State): State {
    s.(active := s.active + 1, probeInFlight := true)
  }

  function CompleteProbe(s: State, ok: bool, now: int): State {
    s.(active := s.active - 1, probeInFlight := false, lastProbeAt := Some(now), lastProbeOk := Some(ok))
  }

  /** The health answer: the last proof of the provider is a success and fresh. */
  predicate Ready(s: State, now: int) {
    s.lastProbeOk == Some(true) && s.lastProbeAt.Some? && s.lastProbeAt.value >= now - PROBE_MAX_AGE_MS
  }

  // ------------------------------------------------------------ the machine

  /** One execution: when it started, what it settled to, and when its owner finished with it. */
  datatype Execution = Execution(run: RunId, hash: Hash, startedAt: int, settled: Option<bool>, finishedAt: Option<int>)

  /** A request that received an execution's result. */
  datatype Answer = Answer(run: RunId, hash: Hash, exec: nat)

  datatype Waiter = Waiter(run: RunId, hash: Hash, exec: nat)

  /** `log` lists all executions by number, `answers` every result handed to a request. */
  datatype System = System(
    runner: State,
    clock: int,
    log: seq<Execution>,
    waiters: map<nat, Waiter>,
    answers: seq<Answer>)

  datatype Event =
    | Request(id: nat, run: RunId, hash: Hash)
    | Settle(exec: nat, ok: bool)
    | Continue(exec: nat)
    | Resume(id: nat)
    | Probe
    | ProbeDone(ok: bool)
    | Elapse(elapsed: nat)

  const START := System(State(0, map[], map[], false, None, None), 0, [], map[], [])

  function OnRequest(s: System, id: nat, run: RunId, hash: Hash): System {
    match Decide(s.runner, run, hash, s.clock)
    case Replay(exec) => s.(answers := s.answers + [Answer(run, hash, exec)])
    case DuplicateRunId => s
    case Join(exec) => s.(waiters := s.waiters[id := Waiter(run, hash, exec)])
    case Saturated => s
    case Start =>
      s.(runner := Begin(s.runner, run, hash, |s.log|),
         log := s.log + [Execution(run, hash, s.clock, None, None)])
  }

  predicate Continuable(s: System, exec: nat) {
    exec < |s.log| && s.log[exec].settled.Some? && s.log[exec].finishedAt.None?
  }

  function OnContinue(s: System, exec: nat): System
    requires Continuable(s, exec)
  {
    var e := s.log[exec];
    s.(runner := Complete(s.runner, e.run, e.hash, exec, e.settled.value, s.clock),
       log := s.log[exec := e.(finishedAt := Some(s.clock))],
       answers := s.answers + [Answer(e.run, e.hash, exec)])
  }

  function Next(s: System, e: Event): System {
    match e
    case Request(id, run, hash) => OnRequest(s, id, run, hash)
    case Settle(exec, ok) =>
      if exec < |s.log| && s.log[exec].settled.None? then
        s.(log := s.log[exec := s.log[exec].(settled := Some(ok))])
      else s
    case Continue(exec) => if Continuable(s, exec) then OnContinue(s, exec) else s
    case Resume(id) =>
      if id in s.waiters && s.waiters[id].exec < |s.log| && s.log[s.waiters[id].exec].settled.Some? then
        var w := s.waiters[id];
        s.(waiters := s.waiters - {id}, answers := s.answers + [Answer(w.run, w.hash, w.exec)])
      else s
    case Probe => if DecideProbe(s.runner, s.clock).ProbeStart? then s.(runner := BeginProbe(s.runner)) else s
    case ProbeDone(ok) => if s.runner.probeInFlight then s.(runner := CompleteProbe(s.runner, ok, s.clock)) else s
    case Elapse(elapsed) => s.(clock := s.clock + elapsed)
  }

  function Run(s: System, events: seq<Event>): System
    decreases |events|
  {
    if events == [] then s else Run(Next(s, events[0]), events[1..])
  }

  // -------------------------------------------------------------- invariant

  /** An unfinished execution is the one in flight for its run; a finished one is stored until its TTL. */
  predicate LogOk(s: System, i: nat)
    requires i < |s.log|
  {
    var e := s.log[i];
    && e.startedAt <= s.clock
    && (e.finishedAt.None? ==> e.run in s.runner.inFlight && s.runner.inFlight[e.run] == InFlight(e.hash, i))
    && (e.finishedAt.Some? ==> e.settled.Some? && e.startedAt <= e.finishedAt.value <= s.clock)
    && (e.finishedAt.Some? && s.clock < e.finishedAt.value + STORED_TTL_MS ==>
          e.run in s.runner.executions
          && s.runner.executions[e.run] == Stored(e.hash, i, e.finishedAt.value + STORED_TTL_MS))
  }

  predicate Matches(log: seq<Execution>, run: RunId, hash: Hash, exec: nat) {
    exec < |log| && log[exec].run == run && log[exec].hash == hash
  }

  predicate StoredOk(log: seq<Execution>, run: RunId, stored: Stored) {
    Matches(log, run, stored.hash, stored.exec)
    && log[stored.exec].finishedAt == Some(stored.expiresAt - STORED_TTL_MS)
  }

  /** Two executions of one run are a whole stored TTL apart. */
  predicate Apart(first: Execution, second: Execution) {
    first.run == second.run ==>
      first.finishedAt.Some? && first.finishedAt.value + STORED_TTL_MS <= second.startedAt
  }

  predicate CountInv(st: State) {
    st.active == |st.inFlight| + (if st.probeInFlight then 1 else 0) <= CONCURRENCY
  }

  ghost predicate LogInv(s: System) {
    && (forall i | 0 <= i < |s.log| :: LogOk(s, i))
    && (forall i, j | 0 <= i < j < |s.log| :: Apart(s.log[i], s.log[j]))
    && (forall r | r in s.runner.inFlight ::
          var f := s.runner.inFlight[r];
          Matches(s.log, r, f.hash, f.exec) && s.log[f.exec].finishedAt.None?)
  }

  ghost predicate AnswerInv(s: System) {
    && (forall r | r in s.runner.executions :: StoredOk(s.log, r, s.runner.executions[r]))
    && (forall id | id in s.waiters :: Matches(s.log, s.waiters[id].run, s.waiters[id].hash, s.waiters[id].exec))
    && (forall i | 0 <= i < |s.answers| :: Matches(s.log, s.answers[i].run, s.answers[i].hash, s.answers[i].exec))
  }

  ghost predicate Inv(s: System) {
    CountInv(s.runner) && LogInv(s) && AnswerInv(s)
  }

  /** Steps add executions, settle them and finish them, but never rewrite what is settled. */
  predicate Grows(a: seq<Execution>, b: seq<Execution>) {
    && |a| <= |b|
    && forall i | 0 <= i < |a| ::
         b[i].run == a[i].run && b[i].hash == a[i].hash
           && (a[i].finishedAt.Some? ==> b[i].finishedAt == a[i].finishedAt)
  }

  lemma GrowingLogKeepsMatches(a: seq<Execution>, b: seq<Execution>)
    requires Grows(a, b)
    ensures forall r, h, x | Matches(a, r, h, x) :: Matches(b, r, h, x)
    ensures forall r, stored | StoredOk(a, r, stored) :: StoredOk(b, r, stored)
  {
  }

  lemma StartKeepsLogInv(s: System, id: nat, run: RunId, hash: Hash)
    requires LogInv(s) && AnswerInv(s) && Decide(s.runner, run, hash, s.clock).Start?
    ensures LogInv(OnRequest(s, id, run, hash))
  {
    var s' := OnRequest(s, id, run, hash);
    var last := |s.log|;
    forall i | 0 <= i < |s'.log| ensures LogOk(s', i) {
      if i < last { assert s'.log[i] == s.log[i] && LogOk(s, i); }
    }
    forall i, j | 0 <= i < j < |s'.log| ensures Apart(s'.log[i], s'.log[j]) {
      assert LogOk(s, i);
      if j < last { assert Apart(s.log[i], s.log[j]); }
    }
  }

  lemma ContinueKeepsLogInv(s: System, exec: nat)
    requires LogInv(s) && Continuable(s, exec)
    ensures LogInv(OnContinue(s, exec))
  {
    var s' := OnContinue(s, exec);
    var e := s.log[exec];
    assert LogOk(s, exec);
    forall i | 0 <= i < |s'.log| ensures LogOk(s', i) {
      assert LogOk(s, i);
      assert i < exec ==> Apart(s.log[i], s.log[exec]);
      assert exec < i ==> Apart(s.log[exec], s.log[i]);
    }
    forall i, j | 0 <= i < j < |s'.log| ensures Apart(s'.log[i], s'.log[j]) { assert Apart(s.log[i], s.log[j]); }
  }

  lemma NextKeepsLogInv(s: System, e: Event)
    requires LogInv(s) && AnswerInv(s)
    ensures LogInv(Next(s, e)) && Grows(s.log, Next(s, e).log)
  {
    if e.Request? && Decide(s.runner, e.run, e.hash, s.clock).Start? {
      StartKeepsLogInv(s, e.id, e.run, e.hash);
    } else if e.Continue? {
      if Continuable(s, e.exec) { ContinueKeepsLogInv(s, e.exec); }
    } else {
      OtherStepKeepsLogInv(s, e);
    }
  }

  lemma OtherStepKeepsLogInv(s: System, e: Event)
    requires LogInv(s) && AnswerInv(s) && !e.Continue?
    requires e.Request? ==> !Decide(s.runner, e.run, e.hash, s.clock).Start?
    ensures LogInv(Next(s, e)) && Grows(s.log, Next(s, e).log)
  {
    if e.Settle? {
      SettleKeepsLogInv(s, e.exec, e.ok);
    } else {
      SameLogKeepsLogInv(s, Next(s, e));
    }
  }

  lemma SettleKeepsLogInv(s: System, exec: nat, ok: bool)
    requires LogInv(s)
    ensures LogInv(Next(s, Settle(exec, ok))) && Grows(s.log, Next(s, Settle(exec, ok)).log)
  {
    var s' := Next(s, Settle(exec, ok));
    forall i | 0 <= i < |s'.log| ensures LogOk(s', i) { assert LogOk(s, i); }
    forall i, j | 0 <= i < j < |s'.log| ensures Apart(s'.log[i], s'.log[j]) { assert Apart(s.log[i], s.log[j]); }
  }

  /** Time, probes and answers leave the log and what the runner remembers of it alone. */
  lemma SameLogKeepsLogInv(s: System, s': System)
    requires LogInv(s) && s'.log == s.log && s'.clock >= s.clock
    requires s'.runner.inFlight == s.runner.inFlight && s'.runner.executions == s.runner.executions
    ensures LogInv(s') && Grows(s.log, s'.log)
  {
    forall i | 0 <= i < |s'.log| ensures LogOk(s', i) { assert LogOk(s, i); }
    forall i, j | 0 <= i < j < |s'.log| ensures Apart(s'.log[i], s'.log[j]) { assert Apart(s.log[i], s.log[j]); }
  }

  lemma NextKeepsAnswerInv(s: System, e: Event)
    requires LogInv(s) && AnswerInv(s) && Grows(s.log, Next(s, e).log)
    ensures AnswerInv(Next(s, e))
  {
    GrowingLogKeepsMatches(s.log, Next(s, e).log);
  }

  lemma BeginCounts(st: State, run: RunId, hash: Hash, exec: nat)
    requires CountInv(st) && run !in st.inFlight && st.active < CONCURRENCY
    ensures CountInv(Begin(st, run, hash, exec))
  {
    OneMore(st.inFlight, run, InFlight(hash, exec));
  }

  lemma CompleteCounts(st: State, run: RunId, hash: Hash, exec: nat, ok: bool, now: int)
    requires CountInv(st) && run in st.inFlight
    ensures CountInv(Complete(st, run, hash, exec, ok, now))
  {
    OneLess(st.inFlight, run);
  }

  lemma NextKeepsCountInv(s: System, e: Event)
    requires CountInv(s.runner)
    requires e.Continue? && Continuable(s, e.exec) ==> s.log[e.exec].run in s.runner.inFlight
    ensures CountInv(Next(s, e).runner)
  {
    match e
    case Request(id, run, hash) =>
      if Decide(s.runner, run, hash, s.clock).Start? { BeginCounts(s.runner, run, hash, |s.log|); }
    case Continue(exec) =>
      if Continuable(s, exec) {
        var x := s.log[exec];
        CompleteCounts(s.runner, x.run, x.hash, exec, x.settled.value, s.clock);
      }
    case _ =>
  }

  lemma OneMore<K, V>(m: map<K, V>, k: K, v: V)
    requires k !in m
    ensures |m[k := v]| == |m| + 1
  {
    assert m[k := v].Keys == m.Keys + {k};
  }

  lemma OneLess<K, V>(m: map<K, V>, k: K)
    requires k in m
    ensures |m - {k}| == |m| - 1
  {
    assert (m - {k}).Keys == m.Keys - {k};
  }

  lemma {:induction false} RunKeepsInv(s: System, events: seq<Event>)
    requires Inv(s)
    ensures Inv(Run(s, events))
    decreases |events|
  {
    if events != [] {
      NextKeepsLogInv(s, events[0]);
      NextKeepsAnswerInv(s, events[0]);
      if events[0].Continue? && Continuable(s, events[0].exec) { assert LogOk(s, events[0].exec); }
      NextKeepsCountInv(s, events[0]);
      RunKeepsInv(Next(s, events[0]), events[1..]);
    }
  }

  // --------------------------------------------------------------- theorems

  /** The counter is exactly the executions and the probe in flight, and never exceeds the capacity. */
  lemma ActiveCountsWorkInFlight(events: seq<Event>)
    ensures
      var s := Run(START, events).runner;
      s.active == |s.inFlight| + (if s.probeInFlight then 1 else 0) <= CONCURRENCY
  {
    RunKeepsInv(START, events);
  }

  /** Two executions of one run never overlap, and the second starts only after the first's response expired. */
  lemma RunIsNotRepeatedWhileRemembered(events: seq<Event>, i: nat, j: nat)
    ensures
      var log := Run(START, events).log;
      i < j < |log| && log[i].run == log[j].run ==>
        log[i].finishedAt.Some? && log[i].finishedAt.value + STORED_TTL_MS <= log[j].startedAt
  {
    RunKeepsInv(START, events);
    var log := Run(START, events).log;
    if i < j < |log| { assert Apart(log[i], log[j]); }
  }

  /** Every result a request receives comes from an execution of its own run id and request hash. */
  lemma AnswersMatchTheirRequest(events: seq<Event>, i: nat)
    ensures
      var s := Run(START, events);
      i < |s.answers| ==>
        && s.answers[i].exec < |s.log|
        && s.log[s.answers[i].exec].run == s.answers[i].run
        && s.log[s.answers[i].exec].hash == s.answers[i].hash
  {
    RunKeepsInv(START, events);
    var s := Run(START, events);
    if i < |s.answers| { assert Matches(s.log, s.answers[i].run, s.answers[i].hash, s.answers[i].exec); }
  }

  /** While an execution is in flight or remembered, its run id is answered by it or refused as a duplicate. */
  lemma RememberedRunIsReplayedJoinedOrRefused(events: seq<Event>, i: nat, hash: Hash)
    ensures
      var s := Run(START, events);
      i < |s.log| && (s.log[i].finishedAt.None? || s.clock < s.log[i].finishedAt.value + STORED_TTL_MS) ==>
        Decide(s.runner, s.log[i].run, hash, s.clock)
        == (if hash != s.log[i].hash then DuplicateRunId
            else if s.log[i].finishedAt.None? then Join(i)
            else Replay(i))
  {
    RunKeepsInv(START, events);
    var s := Run(START, events);
    if i < |s.log| {
      assert LogOk(s, i);
      var run := s.log[i].run;
      if run in s.runner.executions {
        var k := s.runner.executions[run].exec;
        assert StoredOk(s.log, run, s.runner.executions[run]) && LogOk(s, k);
        assert k < i ==> Apart(s.log[k], s.log[i]);
        assert i < k ==> Apart(s.log[i], s.log[k]);
      }
    }
  }

  /** The run has an execution that is still going or whose response has not expired. */
  predicate Remembered(s: System, run: RunId) {
    exists i | 0 <= i < |s.log| :: s.log[i].run == run
      && (s.log[i].finishedAt.None? || s.clock < s.log[i].finishedAt.value + STORED_TTL_MS)
  }

  /** Executions and probe in flight. */
  function WorkInFlight(s: System): nat {
    |s.runner.inFlight| + if s.runner.probeInFlight then 1 else 0
  }

  /** A run id nobody remembers starts an execution exactly while fewer than two pieces of work are in flight. */
  lemma ForgottenRunStartsIffThereIsCapacity(events: seq<Event>, id: nat, run: RunId, hash: Hash)
    requires !Remembered(Run(START, events), run)
    ensures
      var s := Run(START, events);
      var t := Next(s, Request(id, run, hash));
      && Decide(s.runner, run, hash, s.clock) == (if WorkInFlight(s) < 2 then Start else Saturated)
      && (WorkInFlight(s) < 2 ==> t.log == s.log + [Execution(run, hash, s.clock, None, None)])
      && (WorkInFlight(s) >= 2 ==> t == s)
  {
    var s := Run(START, events);
    RunKeepsInv(START, events);
    if Kept(s, run) { KeptIsRemembered(s, run); }
  }

  /** The runner still holds the run's execution or its response. */
  predicate Kept(s: System, run: RunId) {
    run in s.runner.inFlight || (run in s.runner.executions && s.runner.executions[run].expiresAt > s.clock)
  }

  lemma KeptIsRemembered(s: System, run: RunId)
    requires Inv(s) && Kept(s, run)
    ensures Remembered(s, run)
  {
    if run in s.runner.inFlight {
      var f := s.runner.inFlight[run];
      assert Matches(s.log, run, f.hash, f.exec);
      assert s.log[f.exec].run == run;
    } else {
      var stored := s.runner.executions[run];
      assert StoredOk(s.log, run, stored);
      assert s.log[stored.exec].run == run;
    }
  }

  /** After an execution was finished exactly the unexpired responses are stored. */
  lemma FinishingKeepsExactlyTheFresh(events: seq<Event>, exec: nat, i: nat)
    requires Continuable(Run(START, events), exec)
    requires i < |Next(Run(START, events), Continue(exec)).log|
    ensures
      var t := Next(Run(START, events), Continue(exec));
      var unexpired := t.log[i].finishedAt.Some? && t.clock < t.log[i].finishedAt.value + STORED_TTL_MS;
      && (unexpired ==> t.log[i].run in t.runner.executions && t.runner.executions[t.log[i].run].exec == i)
      && (forall r | r in t.runner.executions :: t.clock < t.runner.executions[r].expiresAt)
  {
    RunKeepsInv(START, events);
    var s := Run(START, events);
    NextKeepsLogInv(s, Continue(exec));
    assert LogOk(Next(s, Continue(exec)), i);
  }

  /** Evidence about the provider: when, and whether it answered. */
  datatype Proof = Proof(at: int, ok: bool)

  /** The last finished probe or successful execution of a run. */
  function LastProof(s: System, events: seq<Event>, before: Option<Proof>): Option<Proof>
    decreases |events|
  {
    if events == [] then before
    else LastProof(Next(s, events[0]), events[1..], ProofAfter(s, events[0], before))
  }

  function ProofAfter(s: System, e: Event, before: Option<Proof>): Option<Proof> {
    if e.ProbeDone? && s.runner.probeInFlight then Some(Proof(s.clock, e.ok))
    else if e.Continue? && Continuable(s, e.exec) && s.log[e.exec].settled == Some(true) then Some(Proof(s.clock, true))
    else before
  }

  lemma {:induction false} ProofIsRecorded(s: System, events: seq<Event>, before: Option<Proof>)
    requires Records(s.runner, before)
    ensures Records(Run(s, events).runner, LastProof(s, events, before))
    decreases |events|
  {
    if events != [] {
      assert Records(Next(s, events[0]).runner, ProofAfter(s, events[0], before));
      ProofIsRecorded(Next(s, events[0]), events[1..], ProofAfter(s, events[0], before));
    }
  }

  predicate Records(st: State, proof: Option<Proof>) {
    && st.lastProbeAt == (if proof.Some? then Some(proof.value.at) else None)
    && st.lastProbeOk == (if proof.Some? then Some(proof.value.ok) else None)
  }

  /** The runner calls itself ready exactly when its last proof is a success of at most the maximal age. */
  lemma ReadyIffLastProofIsFresh(events: seq<Event>)
    ensures
      var s, proof := Run(START, events), LastProof(START, events, None);
      Ready(s.runner, s.clock) <==>
        proof.Some? && proof.value.ok && s.clock - proof.value.at <= 30 * 60_000
  {
    ProofIsRecorded(START, events, None);
  }

  /** A probe starts exactly when none is in flight, the last proof is a minute old, and there is capacity. */
  lemma ProbeStartsIff(events: seq<Event>)
    ensures
      var s, proof := Run(START, events), LastProof(START, events, None);
      var recent := proof.Some? && s.clock < proof.value.at + 60_000;
      && DecideProbe(s.runner, s.clock) ==
           (if s.runner.probeInFlight then ProbeBusy
            else if recent then ProbeRateLimited
            else if WorkInFlight(s) < 2 then ProbeStart
            else ProbeSaturated)
      && Next(s, Probe).runner.probeInFlight ==
           (s.runner.probeInFlight || (!recent && WorkInFlight(s) < 2))
  {
    ProofIsRecorded(START, events, None);
    ActiveCountsWorkInFlight(events);
  }

  lemma RunThree(s: System, a: Event, b: Event, c: Event)
    ensures Run(s, [a, b, c]) == Next(Next(Next(s, a), b), c)
  {
    assert [a, b, c][1..] == [b, c] && [b, c][1..] == [c] && [c][1..] == [];
    assert Run(Next(Next(s, a), b), [c]) == Run(Next(Next(Next(s, a), b), c), []);
    assert Run(Next(s, a), [b, c]) == Run(Next(Next(s, a), b), [c]);
  }

  /**
   A started execution that settles is answered when its owner continues, and its response is replayed to the same
   request for exactly the stored TTL.
   */
  lemma StartedExecutionIsAnsweredAndReplayed(s: System, id: nat, run: RunId, hash: Hash, ok: bool, later: nat)
    requires Decide(s.runner, run, hash, s.clock).Start?
    ensures
      var exec := |s.log|;
      var t := Run(s, [Request(id, run, hash), Settle(exec, ok), Continue(exec)]);
      var u := Next(t, Elapse(later));
      && t.log == s.log + [Execution(run, hash, s.clock, Some(ok), Some(s.clock))]
      && t.answers == s.answers + [Answer(run, hash, exec)]
      && t.runner.active == s.runner.active && t.runner.inFlight == s.runner.inFlight
      && (Decide(u.runner, run, hash, u.clock) == Replay(exec) <==> later < 10 * 60_000)
      && (later < 10 * 60_000 ==> Next(u, Request(id, run, hash)).answers == t.answers + [Answer(run, hash, exec)])
  {
    var exec := |s.log|;
    RunThree(s, Request(id, run, hash), Settle(exec, ok), Continue(exec));
    var s1 := Next(s, Request(id, run, hash));
    assert s1.log[exec] == Execution(run, hash, s.clock, None, None);
    var s2 := Next(s1, Settle(exec, ok));
    assert s2.log == s.log + [Execution(run, hash, s.clock, Some(ok), None)];
    assert s.runner.inFlight[run := InFlight(hash, exec)] - {run} == s.runner.inFlight;
  }

  /** A joined request waits for its execution, however often it is woken, and is answered by it once. */
  lemma JoinedRequestIsAnswered(s: System, id: nat, run: RunId, hash: Hash, exec: nat, ok: bool)
    requires Decide(s.runner, run, hash, s.clock) == Join(exec) && exec < |s.log| && s.log[exec].settled.None?
    ensures
      var joined := Next(s, Request(id, run, hash));
      var t := Run(s, [Request(id, run, hash), Settle(exec, ok), Resume(id)]);
      && Next(joined, Resume(id)) == joined && joined.answers == s.answers
      && t.answers == s.answers + [Answer(run, hash, exec)]
      && t.log == s.log[exec := s.log[exec].(settled := Some(ok))]
      && Next(t, Resume(id)) == t
  {
    RunThree(s, Request(id, run, hash), Settle(exec, ok), Resume(id));
  }

  /** The first settlement of an execution is final. */
  lemma {:induction false} SettledOnce(s: System, events: seq<Event>, exec: nat)
    requires exec < |s.log| && s.log[exec].settled.Some?
    ensures exec < |Run(s, events).log| && Run(s, events).log[exec].settled == s.log[exec].settled
    decreases |events|
  {
    if events != [] { SettledOnce(Next(s, events[0]), events[1..], exec); }
  }

  // ------------------------------------------------------------- the runner

  /** The mutable state of one server. Each method is one uninterrupted stretch of a handler. */
  class Runner {
    var active: int
    var executions: map<RunId, Stored>
    var inFlight: map<RunId, InFlight>
    var probeInFlight: bool
    var lastProbeAt: Option<int>
    var lastProbeOk: Option<bool>

    function View(): State
      reads this
    {
      State(active, executions, inFlight, probeInFlight, lastProbeAt, lastProbeOk)
    }

    constructor ()
      ensures View() == START.runner
    {
      active, executions, inFlight := 0, map[], map[];
      probeInFlight, lastProbeAt, lastProbeOk := false, None, None;
    }

    method HandleExecution(run: RunId, hash: Hash, exec: nat, now: int) returns (decision: Decision)
      modifies this`active, this`inFlight
      ensures decision == Decide(old(View()), run, hash, now)
      ensures View() == if decision.Start? then Begin(old(View()), run, hash, exec) else old(View())
    {
      if run in executions && executions[run].expiresAt > now {
        return if executions[run].hash != hash then DuplicateRunId else Replay(executions[run].exec);
      }
      if run in inFlight {
        return if inFlight[run].hash != hash then DuplicateRunId else Join(inFlight[run].exec);
      }
      if active >= CONCURRENCY {
        return Saturated;
      }
      active := active + 1;
      inFlight := inFlight[run := InFlight(hash, exec)];
      return Start;
    }

    method CompleteExecution(run: RunId, hash: Hash, exec: nat, ok: bool, now: int)
      modifies this`active, this`executions, this`inFlight, this`lastProbeAt, this`lastProbeOk
      ensures View() == Complete(old(View()), run, hash, exec, ok, now)
    {
      if ok {
        lastProbeAt, lastProbeOk := Some(now), Some(true);
      }
      executions := executions[run := Stored(hash, exec, now + STORED_TTL_MS)];
      Sweep(now);
      inFlight := inFlight - {run};
      active := active - 1;
    }

    /** Visit every stored response and delete the expired ones. */
    method Sweep(now: int)
      modifies this`executions
      ensures executions == Swept(old(executions), now)
    {
      var pending := executions.Keys;
      while pending != {}
        invariant pending <= old(executions).Keys
        invariant executions == map k | k in old(executions) && (k in pending || old(executions)[k].expiresAt > now) ::
          old(executions)[k]
        decreases |pending|
      {
        var run :| run in pending;
        if executions[run].expiresAt <= now {
          executions := executions - {run};
        }
        pending := pending - {run};
      }
    }

    method Health(now: int) returns (ready: bool)
      ensures ready == Ready(View(), now)
    {
      ready := lastProbeOk == Some(true) && lastProbeAt.Some? && lastProbeAt.value >= now - PROBE_MAX_AGE_MS;
    }

    method HandleProbe(now: int) returns (decision: ProbeDecision)
      modifies this`active, this`probeInFlight
      ensures decision == DecideProbe(old(View()), now)
      ensures View() == if decision.ProbeStart? then BeginProbe(old(View())) else old(View())
    {
      if probeInFlight {
        return ProbeBusy;
      }
      if lastProbeAt.Some? && now - lastProbeAt.value < PROBE_MIN_INTERVAL_MS {
        return ProbeRateLimited;
      }
      if active >= CONCURRENCY {
        return ProbeSaturated;
      }
      probeInFlight := true;
      active := active + 1;
      return ProbeStart;
    }

    method FinishProbe(ok: bool, now: int)
      modifies this`active, this`probeInFlight, this`lastProbeAt, this`lastProbeOk
      ensures View() == CompleteProbe(old(View()), ok, now)
    {
      active := active - 1;
      probeInFlight := false;
      lastProbeAt, lastProbeOk := Some(now), Some(ok);
    }
  }
}
