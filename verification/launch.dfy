/**
 The send-once launch notification of src/jobs/launch.jobs.ts. Workers share a
 done marker and one lock in Redis; each await of sendLaunchNotificationOnce is
 one step, and a worker may crash, or a reply may be lost, at any of them.
 */
module LaunchNotification {
  import opened Wrappers

  const MARKER_ATTEMPTS := 3
  const PRE_DELIVERY_LEASE_MS := 60_000

  type Token = nat

  /** A lock without expiry is the durable ambiguity lock. */
  datatype Lock = Lock(token: Token, expiresAt: Option<int>)

  /** Where a worker stands, with the local flags its cleanup looks at. */
  datatype Worker =
    | CheckDone
    | Acquire
    | Recheck
    | Persist
    | Send
    | Marker(attempt: nat)
    | RestoreLease
    | Release

  datatype Redis = Redis(done: bool, lock: Option<Lock>, clock: int)

  /** `delivered` lists the tokens whose message reached Telegram, `limbo` those whose message still may. */
  datatype System = System(
    redis: Redis,
    workers: map<Token, Worker>,
    used: set<Token>,
    delivered: seq<Token>,
    limbo: set<Token>)

  /** What a Redis call does to its caller: reply, reply lost after the effect, or no effect at all. */
  datatype Fate = Replied | ReplyLost | NotApplied

  datatype SendOutcome = Sent | Skipped | Rejected | Ambiguous(arrived: bool, mayArriveLater: bool)

  datatype Event =
    | Start(w: Token)
    | Step(w: Token, fate: Fate, send: SendOutcome)
    | Crash(w: Token)
    | LateArrival(w: Token)
    | Tick(elapsed: nat)

  const START := System(Redis(false, None, 0), map[], {}, [], {})

  // ------------------------------------------------------------ Redis calls

  /** SET lock token PX lease NX */
  function SetIfAbsent(r: Redis, w: Token): Redis {
    if r.lock.Some? then r else r.(lock := Some(Lock(w, Some(r.clock + PRE_DELIVERY_LEASE_MS))))
  }

  /** The persist script answers 1 only when it removed this token's expiry. */
  predicate Persists(r: Redis, w: Token) {
    r.lock.Some? && r.lock.value.token == w && r.lock.value.expiresAt.Some?
  }

  function PersistLock(r: Redis, w: Token): Redis {
    if Persists(r, w) then r.(lock := Some(Lock(w, None))) else r
  }

  /** SET lock token PX lease XX: overwrites whatever lock is there. */
  function SetIfPresent(r: Redis, w: Token): Redis {
    if r.lock.Some? then r.(lock := Some(Lock(w, Some(r.clock + PRE_DELIVERY_LEASE_MS)))) else r
  }

  function ReleaseLock(r: Redis, w: Token): Redis {
    if r.lock.Some? && r.lock.value.token == w then r.(lock := None) else r
  }

  function Elapse(r: Redis, elapsed: nat): Redis {
    var now := r.clock + elapsed;
    Redis(r.done,
          if r.lock.Some? && r.lock.value.expiresAt.Some? && r.lock.value.expiresAt.value <= now then None else r.lock,
          now)
  }

  // ------------------------------------------------------------------ steps

  function At(s: System, w: Token, next: Worker): System {
    s.(workers := s.workers[w := next])
  }

  function Exit(s: System, w: Token): System {
    s.(workers := s.workers - {w})
  }

  function Applied(fate: Fate, before: Redis, after: Redis): Redis {
    if fate.NotApplied? then before else after
  }

  /** One await. The cleanup releases the lock except after a delivered or ambiguous send without marker. */
  function WorkerStep(s: System, w: Token, fate: Fate, send: SendOutcome): System
    requires w in s.workers
  {
    var r := s.redis;
    match s.workers[w]
    case CheckDone => if fate.Replied? && !r.done then At(s, w, Acquire) else Exit(s, w)
    case Acquire =>
      var s' := s.(redis := Applied(fate, r, SetIfAbsent(r, w)));
      if fate.Replied? && r.lock.None? then At(s', w, Recheck) else Exit(s', w)
    case Recheck => if fate.Replied? && !r.done then At(s, w, Persist) else At(s, w, Release)
    case Persist =>
      var s' := s.(redis := Applied(fate, r, PersistLock(r, w)));
      if fate.Replied? && Persists(r, w) then At(s', w, Send) else At(s', w, Release)
    case Send =>
      (match send
       case Sent => At(s.(delivered := s.delivered + [w]), w, Marker(1))
       case Skipped => At(s, w, RestoreLease)
       case Rejected => At(s, w, RestoreLease)
       case Ambiguous(arrived, later) =>
         Exit(s.(delivered := if arrived then s.delivered + [w] else s.delivered,
                 limbo := if !arrived && later then s.limbo + {w} else s.limbo), w))
    case Marker(attempt) =>
      var s' := s.(redis := Applied(fate, r, r.(done := true)));
      if fate.Replied? then At(s', w, Release)
      else if attempt < MARKER_ATTEMPTS then At(s', w, Marker(attempt + 1))
      else Exit(s', w)
    case RestoreLease => At(s.(redis := Applied(fate, r, SetIfPresent(r, w))), w, Release)
    case Release => Exit(s.(redis := Applied(fate, r, ReleaseLock(r, w))), w)
  }

  function Next(s: System, e: Event): System {
    match e
    case Start(w) => if w in s.used then s else At(s.(used := s.used + {w}), w, CheckDone)
    case Step(w, fate, send) => if w in s.workers then WorkerStep(s, w, fate, send) else s
    case Crash(w) => Exit(s, w)
    case LateArrival(w) =>
      if w in s.limbo then s.(delivered := s.delivered + [w], limbo := s.limbo - {w}) else s
    case Tick(elapsed) => s.(redis := Elapse(s.redis, elapsed))
  }

  function Run(s: System, events: seq<Event>): System
    decreases |events|
  {
    if events == [] then s else Run(Next(s, events[0]), events[1..])
  }

  // -------------------------------------------------------------- invariant

  predicate Holds(s: System, w: Token) {
    s.redis.lock.Some? && s.redis.lock.value.token == w
  }

  predicate HoldsForever(s: System, w: Token) {
    s.redis.lock == Some(Lock(w, None))
  }

  predicate HoldsAtMostALease(s: System, w: Token) {
    Holds(s, w) ==> s.redis.lock.value.expiresAt.Some?
  }

  predicate NothingSent(s: System) {
    s.delivered == [] && s.limbo == {}
  }

  predicate WorkerOk(s: System, w: Token)
    requires w in s.workers
  {
    && w in s.used
    && match s.workers[w]
       case CheckDone => w !in s.delivered && w !in s.limbo
       case Acquire => w !in s.delivered && w !in s.limbo
       case Recheck => w !in s.delivered && w !in s.limbo && HoldsAtMostALease(s, w)
       case Persist => w !in s.delivered && w !in s.limbo && HoldsAtMostALease(s, w) && (Holds(s, w) ==> NothingSent(s))
       case Send => HoldsForever(s, w) && NothingSent(s)
       case Marker(attempt) => (HoldsForever(s, w) || s.redis.done) && s.delivered == [w]
       case RestoreLease => HoldsForever(s, w) && NothingSent(s)
       case Release => s.redis.done || (w !in s.delivered && w !in s.limbo)
  }

  ghost predicate Inv(s: System) {
    && |s.delivered| + |s.limbo| <= 1
    && (forall w | w in s.workers :: WorkerOk(s, w))
    && (forall w | w in s.delivered || w in s.limbo :: w in s.used && (s.redis.done || HoldsForever(s, w)))
    && (s.redis.lock.Some? ==> s.redis.lock.value.token in s.used)
    && (s.redis.lock.Some? && s.redis.lock.value.expiresAt.Some? ==>
          s.redis.lock.value.expiresAt.value <= s.redis.clock + PRE_DELIVERY_LEASE_MS)
    && (s.redis.done ==> |s.delivered| == 1)
    && (forall w | HoldsForever(s, w) && w !in s.delivered && w !in s.limbo :: NothingSent(s))
  }

  /** Without a marker, whoever holds the lock and has not sent knows that nobody has. */
  lemma HolderKnowsNothingWasSent(s: System, w: Token)
    requires Inv(s) && !s.redis.done && Holds(s, w) && w !in s.delivered && w !in s.limbo
    ensures NothingSent(s)
  {
    EmptyOrInhabited(s.delivered);
  }

  lemma EmptyOrInhabited(tokens: seq<Token>)
    ensures tokens == [] || exists w :: w in tokens
  {
    if tokens != [] { assert tokens[0] in tokens; }
  }

  lemma CheckKeepsInv(s: System, w: Token, fate: Fate, send: SendOutcome)
    requires Inv(s) && w in s.workers && s.workers[w] in {CheckDone, Recheck}
    ensures Inv(WorkerStep(s, w, fate, send))
  {
    var s' := WorkerStep(s, w, fate, send);
    assert WorkerOk(s, w);
    if !s.redis.done && Holds(s, w) { HolderKnowsNothingWasSent(s, w); }
    forall v | v in s'.workers ensures WorkerOk(s', v) { assert WorkerOk(s, v); }
  }

  lemma AcquireKeepsInv(s: System, w: Token, fate: Fate, send: SendOutcome)
    requires Inv(s) && w in s.workers && s.workers[w] == Acquire
    ensures Inv(WorkerStep(s, w, fate, send))
  {
    var s' := WorkerStep(s, w, fate, send);
    assert WorkerOk(s, w);
    forall v | v in s'.workers ensures WorkerOk(s', v) { assert WorkerOk(s, v); }
  }

  lemma PersistKeepsInv(s: System, w: Token, fate: Fate, send: SendOutcome)
    requires Inv(s) && w in s.workers && s.workers[w] == Persist
    ensures Inv(WorkerStep(s, w, fate, send))
  {
    var s' := WorkerStep(s, w, fate, send);
    assert WorkerOk(s, w);
    forall v | v in s'.workers ensures WorkerOk(s', v) { assert WorkerOk(s, v); }
  }

  lemma SendKeepsInv(s: System, w: Token, fate: Fate, send: SendOutcome)
    requires Inv(s) && w in s.workers && s.workers[w] == Send
    ensures Inv(WorkerStep(s, w, fate, send))
  {
    var s' := WorkerStep(s, w, fate, send);
    assert WorkerOk(s, w);
    forall v | v in s'.workers ensures WorkerOk(s', v) { assert WorkerOk(s, v); }
  }

  lemma MarkerKeepsInv(s: System, w: Token, fate: Fate, send: SendOutcome)
    requires Inv(s) && w in s.workers && s.workers[w].Marker?
    ensures Inv(WorkerStep(s, w, fate, send))
  {
    var s' := WorkerStep(s, w, fate, send);
    assert WorkerOk(s, w);
    forall v | v in s'.workers ensures WorkerOk(s', v) { assert WorkerOk(s, v); }
  }

  lemma CleanupKeepsInv(s: System, w: Token, fate: Fate, send: SendOutcome)
    requires Inv(s) && w in s.workers && s.workers[w] in {RestoreLease, Release}
    ensures Inv(WorkerStep(s, w, fate, send))
  {
    var s' := WorkerStep(s, w, fate, send);
    assert WorkerOk(s, w);
    forall v | v in s'.workers ensures WorkerOk(s', v) { assert WorkerOk(s, v); }
  }

  lemma StepKeepsInv(s: System, w: Token, fate: Fate, send: SendOutcome)
    requires Inv(s) && w in s.workers
    ensures Inv(WorkerStep(s, w, fate, send))
  {
    match s.workers[w]
    case CheckDone => CheckKeepsInv(s, w, fate, send);
    case Recheck => CheckKeepsInv(s, w, fate, send);
    case Acquire => AcquireKeepsInv(s, w, fate, send);
    case Persist => PersistKeepsInv(s, w, fate, send);
    case Send => SendKeepsInv(s, w, fate, send);
    case Marker(_) => MarkerKeepsInv(s, w, fate, send);
    case RestoreLease => CleanupKeepsInv(s, w, fate, send);
    case Release => CleanupKeepsInv(s, w, fate, send);
  }

  lemma NextKeepsInv(s: System, e: Event)
    requires Inv(s)
    ensures Inv(Next(s, e))
  {
    var s' := Next(s, e);
    match e
    case Step(w, fate, send) => if w in s.workers { StepKeepsInv(s, w, fate, send); }
    case _ =>
      forall v | v in s'.workers ensures WorkerOk(s', v) {
        if v in s.workers { assert WorkerOk(s, v); }
      }
  }

  lemma {:induction false} RunKeepsInv(s: System, events: seq<Event>)
    requires Inv(s)
    ensures Inv(Run(s, events))
    decreases |events|
  {
    if events != [] {
      NextKeepsInv(s, events[0]);
      RunKeepsInv(Next(s, events[0]), events[1..]);
    }
  }

  // --------------------------------------------------------------- theorems

  /** However workers interleave, crash, time out or lose replies, at most one message is delivered. */
  lemma AtMostOneDelivery(events: seq<Event>)
    ensures |Run(START, events).delivered| <= 1
  {
    RunKeepsInv(START, events);
  }

  /** The marker is never set without a delivery. */
  lemma MarkerMeansDelivered(events: seq<Event>)
    ensures Run(START, events).redis.done ==> |Run(START, events).delivered| == 1
  {
    RunKeepsInv(START, events);
  }

  /** After a delivery either the marker is set or the deliverer's lock is held with no expiry. */
  lemma DeliveryIsFenced(events: seq<Event>, w: Token)
    ensures
      var s := Run(START, events);
      w in s.delivered ==> s.redis.done || HoldsForever(s, w)
  {
    RunKeepsInv(START, events);
  }

  /** A fenced delivery is final: no continuation delivers again. */
  lemma {:induction false} DeliveredStaysDelivered(s: System, events: seq<Event>)
    requires Inv(s) && |s.delivered| == 1
    ensures Run(s, events).delivered == s.delivered
    decreases |events|
  {
    if events != [] {
      NextKeepsInv(s, events[0]);
      assert s.delivered <= Next(s, events[0]).delivered;
      DeliveredStaysDelivered(Next(s, events[0]), events[1..]);
    }
  }

  // ---------------------------------------------- what a crash leaves behind

  /** Whether w's persist script has taken effect and no lease of w's was restored since, after one more event. */
  predicate PersistStandsAfter(s: System, e: Event, w: Token, before: bool) {
    if e.Step? && e.w == w && w in s.workers && !e.fate.NotApplied? then
      (if s.workers[w] == Persist && Persists(s.redis, w) then true
       else if s.workers[w] == RestoreLease then false
       else before)
    else before
  }

  /** The same over a whole run. */
  predicate PersistStands(s: System, events: seq<Event>, w: Token, before: bool)
    decreases |events|
  {
    if events == [] then before
    else PersistStands(Next(s, events[0]), events[1..], w, PersistStandsAfter(s, events[0], w, before))
  }

  /**
   Before its persist step a token has persisted nothing; a lock it holds has no expiry exactly while the persist
   stands.
   */
  predicate StandsOk(s: System, w: Token, stands: bool) {
    && (w !in s.used || (w in s.workers && s.workers[w] in {CheckDone, Acquire}) ==> !stands && !Holds(s, w))
    && (Holds(s, w) ==> (s.redis.lock.value.expiresAt.None? <==> stands))
    && (w in s.workers ==> w in s.used)
  }

  lemma StepKeepsStands(s: System, v: Token, fate: Fate, send: SendOutcome, w: Token, before: bool)
    requires Inv(s) && StandsOk(s, w, before) && v in s.workers
    ensures StandsOk(WorkerStep(s, v, fate, send), w, PersistStandsAfter(s, Step(v, fate, send), w, before))
  {
    assert WorkerOk(s, v);
  }

  lemma NextKeepsStands(s: System, e: Event, w: Token, before: bool)
    requires Inv(s) && StandsOk(s, w, before)
    ensures StandsOk(Next(s, e), w, PersistStandsAfter(s, e, w, before))
  {
    if e.Step? && e.w in s.workers { StepKeepsStands(s, e.w, e.fate, e.send, w, before); }
  }

  lemma {:induction false} RunKeepsStands(s: System, events: seq<Event>, w: Token, before: bool)
    requires Inv(s) && StandsOk(s, w, before)
    ensures StandsOk(Run(s, events), w, PersistStands(s, events, w, before))
    decreases |events|
  {
    if events != [] {
      NextKeepsInv(s, events[0]);
      NextKeepsStands(s, events[0], w, before);
      RunKeepsStands(Next(s, events[0]), events[1..], w, PersistStandsAfter(s, events[0], w, before));
    }
  }

  /**
   Whoever holds the lock: a crash and one lease's wait free it if and only if the holder's persist does not stand.
   */
  lemma CrashRecoversIffPersistDoesNotStand(events: seq<Event>, w: Token, elapsed: nat)
    requires Holds(Run(START, events), w) && elapsed >= PRE_DELIVERY_LEASE_MS
    ensures Next(Next(Run(START, events), Crash(w)), Tick(elapsed)).redis.lock.None?
      <==> !PersistStands(START, events, w, false)
  {
    RunKeepsInv(START, events);
    RunKeepsStands(START, events, w, false);
  }

  /** The lock of a gone worker that sent nothing, with no expiry: nobody else may release it. */
  predicate Stranded(s: System, w: Token) {
    HoldsForever(s, w) && w !in s.workers && w in s.used && NothingSent(s) && !s.redis.done
  }

  lemma NextKeepsStranded(s: System, e: Event, w: Token)
    requires Inv(s) && Stranded(s, w)
    ensures Stranded(Next(s, e), w)
  {
    if e.Step? && e.w in s.workers { assert WorkerOk(s, e.w); }
  }

  /** A stranded lock stays for ever: no continuation frees it, sends the message or sets the marker. */
  lemma {:induction false} StrandedForever(s: System, events: seq<Event>, w: Token)
    requires Inv(s) && Stranded(s, w)
    ensures Stranded(Run(s, events), w)
    decreases |events|
  {
    if events != [] {
      NextKeepsInv(s, events[0]);
      NextKeepsStranded(s, events[0], w);
      StrandedForever(Next(s, events[0]), events[1..], w);
    }
  }

  /**
   The other half of the condition: a crash of an unsent holder whose persist stands ends all notification for good.
   */
  lemma CrashAfterPersistStrands(events: seq<Event>, w: Token, later: seq<Event>)
    requires var s := Run(START, events); Holds(s, w) && w !in s.delivered && w !in s.limbo
    requires PersistStands(START, events, w, false)
    ensures Stranded(Run(Next(Run(START, events), Crash(w)), later), w)
  {
    var s := Run(START, events);
    RunKeepsInv(START, events);
    RunKeepsStands(START, events, w, false);
    assert HoldsForever(s, w);
    NextKeepsInv(s, Crash(w));
    StrandedForever(Next(s, Crash(w)), later, w);
  }

  lemma {:induction false} RunAppend(s: System, events: seq<Event>, e: Event)
    ensures Run(s, events + [e]) == Next(Run(s, events), e)
    decreases |events|
  {
    if events == [] {
      assert events + [e] == [e] && [e][1..] == [];
      assert Run(s, [e]) == Run(Next(s, e), []);
    } else {
      assert (events + [e])[1..] == events[1..] + [e];
      RunAppend(Next(s, events[0]), events[1..], e);
    }
  }

  /** The first awaits of a lone worker, up to its persist script. */
  const TO_PERSIST := [Start(1), Step(1, Replied, Sent), Step(1, Replied, Sent), Step(1, Replied, Sent)]

  lemma LoneWorkerReachesPersist()
    ensures
      var s := Run(START, TO_PERSIST);
      && s.workers == map[1 := Persist] && s.used == {1} && NothingSent(s)
      && s.redis == Redis(false, Some(Lock(1, Some(PRE_DELIVERY_LEASE_MS))), 0)
  {
    RunAppend(START, [], Start(1));
    RunAppend(START, [Start(1)], Step(1, Replied, Sent));
    RunAppend(START, [Start(1), Step(1, Replied, Sent)], Step(1, Replied, Sent));
    RunAppend(START, [Start(1), Step(1, Replied, Sent), Step(1, Replied, Sent)], Step(1, Replied, Sent));
    assert TO_PERSIST[..1] == [Start(1)] && TO_PERSIST[..2] == [Start(1), Step(1, Replied, Sent)];
    assert TO_PERSIST == TO_PERSIST[..3] + [Step(1, Replied, Sent)];
  }

  /** A process that dies between the persist script and its request: nothing is sent, ever. */
  lemma CrashBetweenPersistAndRequestStrands(later: seq<Event>)
    ensures Stranded(Run(Run(START, TO_PERSIST + [Step(1, Replied, Sent), Crash(1)]), later), 1)
  {
    var persisted := TO_PERSIST + [Step(1, Replied, Sent)];
    LoneWorkerReachesPersist();
    RunAppend(START, TO_PERSIST, Step(1, Replied, Sent));
    RunAppend(START, persisted, Crash(1));
    assert persisted + [Crash(1)] == TO_PERSIST + [Step(1, Replied, Sent), Crash(1)];
    RunKeepsInv(START, persisted + [Crash(1)]);
    StrandedForever(Run(START, persisted + [Crash(1)]), later, 1);
  }

  /** A worker that never learns of its persist and whose release fails too: the same, without any crash. */
  lemma LostPersistReplyStrands(later: seq<Event>)
    ensures Stranded(Run(Run(START, TO_PERSIST + [Step(1, ReplyLost, Sent), Step(1, NotApplied, Sent)]), later), 1)
  {
    var persisted := TO_PERSIST + [Step(1, ReplyLost, Sent)];
    LoneWorkerReachesPersist();
    RunAppend(START, TO_PERSIST, Step(1, ReplyLost, Sent));
    RunAppend(START, persisted, Step(1, NotApplied, Sent));
    assert persisted + [Step(1, NotApplied, Sent)] == TO_PERSIST
      + [Step(1, ReplyLost, Sent), Step(1, NotApplied, Sent)];
    RunKeepsInv(START, persisted + [Step(1, NotApplied, Sent)]);
    StrandedForever(Run(START, persisted + [Step(1, NotApplied, Sent)]), later, 1);
  }

  // ------------------------------------------------ what a worker can achieve

  lemma RunThree(s: System, a: Event, b: Event, c: Event)
    ensures Run(s, [a, b, c]) == Next(Next(Next(s, a), b), c)
  {
    assert [a, b, c][1..] == [b, c] && [b, c][1..] == [c] && [c][1..] == [];
    assert Run(Next(Next(s, a), b), [c]) == Run(Next(Next(Next(s, a), b), c), []);
    assert Run(Next(s, a), [b, c]) == Run(Next(Next(s, a), b), [c]);
  }

  /** The steps of a worker whose send did not deliver, up to its exit. */
  function Cleanup(w: Token, unsent: SendOutcome, restored: Fate, released: Fate): seq<Event> {
    [Step(w, Replied, unsent), Step(w, restored, unsent), Step(w, released, unsent)]
  }

  lemma CleanupEnds(s: System, w: Token, unsent: SendOutcome, restored: Fate, released: Fate)
    requires w in s.workers && s.workers[w] == Send && HoldsForever(s, w)
    requires unsent == Skipped || unsent == Rejected
    ensures
      var t := Run(s, Cleanup(w, unsent, restored, released));
      && w !in t.workers && t.used == s.used && t.delivered == s.delivered && t.limbo == s.limbo
      && t.redis.clock == s.redis.clock && t.redis.done == s.redis.done
      && t.redis.lock ==
           if released != NotApplied then None
           else if restored != NotApplied then Some(Lock(w, Some(s.redis.clock + PRE_DELIVERY_LEASE_MS)))
           else Some(Lock(w, None))
  {
    RunThree(s, Step(w, Replied, unsent), Step(w, restored, unsent), Step(w, released, unsent));
  }

  /**
   A send that certainly did not deliver: its worker leaves with nothing sent. The lock is free at once exactly when
   the release took effect, free after one lease exactly when the restored lease or the release did, and stranded for
   ever otherwise.
   */
  lemma UnsentMessageFreesTheLock(events: seq<Event>, w: Token, unsent: SendOutcome, restored: Fate, released: Fate,
    elapsed: nat)
    requires var s := Run(START, events); w in s.workers && s.workers[w] == Send
    requires unsent == Skipped || unsent == Rejected
    ensures
      var t := Run(Run(START, events), Cleanup(w, unsent, restored, released));
      && w !in t.workers && NothingSent(t) && !t.redis.done
      && (t.redis.lock.None? <==> released != NotApplied)
      && (Next(t, Tick(elapsed)).redis.lock.None? <==>
            released != NotApplied || (restored != NotApplied && elapsed >= PRE_DELIVERY_LEASE_MS))
      && (Stranded(t, w) <==> released == NotApplied && restored == NotApplied)
  {
    var s := Run(START, events);
    RunKeepsInv(START, events);
    assert WorkerOk(s, w);
    CleanupEnds(s, w, unsent, restored, released);
  }

  /** An undisturbed attempt up to its send. */
  function Attempt(w: Token): seq<Event> {
    [Start(w), Step(w, Replied, Sent), Step(w, Replied, Sent)] + [Step(w, Replied, Sent), Step(w, Replied, Sent)]
  }

  /** A delivered send, its marker and its release. */
  function Delivery(w: Token): seq<Event> {
    [Step(w, Replied, Sent), Step(w, Replied, Sent), Step(w, Replied, Sent)]
  }

  lemma AttemptReachesSend(s: System, w: Token)
    requires s.redis.lock.None? && !s.redis.done && w !in s.used
    ensures
      var t := Run(s, Attempt(w));
      && t.redis == s.redis.(lock := Some(Lock(w, None))) && t.delivered == s.delivered && t.limbo == s.limbo
      && w in t.workers && t.workers[w] == Send
  {
    var step := Step(w, Replied, Sent);
    RunThree(s, Start(w), step, step);
    RunAppend(s, [Start(w), step, step], step);
    RunAppend(s, [Start(w), step, step] + [step], step);
    assert Attempt(w) == [Start(w), step, step] + [step] + [step];
  }

  lemma DeliveryEnds(s: System, w: Token)
    requires w in s.workers && s.workers[w] == Send && HoldsForever(s, w) && NothingSent(s)
    ensures Delivered(Run(s, Delivery(w)), w)
  {
    RunThree(s, Step(w, Replied, Sent), Step(w, Replied, Sent), Step(w, Replied, Sent));
  }

  /** One message, marked, with the lock free and its worker gone. */
  predicate Delivered(s: System, w: Token) {
    s.redis.done && s.redis.lock.None? && s.delivered == [w] && s.limbo == {} && w !in s.workers
  }

  lemma AttemptDelivers(s: System, w: Token)
    requires s.redis.lock.None? && !s.redis.done && w !in s.used && NothingSent(s)
    ensures Delivered(Run(Run(s, Attempt(w)), Delivery(w)), w)
  {
    AttemptReachesSend(s, w);
    DeliveryEnds(Run(s, Attempt(w)), w);
  }

  lemma FreeLockMeansNothingSent(s: System)
    requires Inv(s) && s.redis.lock.None? && !s.redis.done
    ensures NothingSent(s)
  {
    EmptyOrInhabited(s.delivered);
  }

  /**
   While nothing is marked and the lock is free, a fresh worker whose replies all arrive delivers the one message, sets
   the marker and frees the lock.
   */
  lemma FreshWorkerDelivers(events: seq<Event>, w: Token)
    requires var s := Run(START, events); s.redis.lock.None? && !s.redis.done && w !in s.used
    ensures Delivered(Run(Run(Run(START, events), Attempt(w)), Delivery(w)), w)
  {
    RunKeepsInv(START, events);
    FreeLockMeansNothingSent(Run(START, events));
    AttemptDelivers(Run(START, events), w);
  }

  /** So a rejected send is made good by the next worker. */
  lemma RejectedSendIsRetried(events: seq<Event>, w: Token, unsent: SendOutcome, next: Token)
    requires var s := Run(START, events); w in s.workers && s.workers[w] == Send && next !in s.used
    requires unsent == Skipped || unsent == Rejected
    ensures
      var t := Run(Run(START, events), Cleanup(w, unsent, Replied, Replied));
      Delivered(Run(Run(t, Attempt(next)), Delivery(next)), next)
  {
    RunKeepsInv(START, events);
    assert WorkerOk(Run(START, events), w);
    CleanupEnds(Run(START, events), w, unsent, Replied, Replied);
    UnsentMessageFreesTheLock(events, w, unsent, Replied, Replied, 0);
    AttemptDelivers(Run(Run(START, events), Cleanup(w, unsent, Replied, Replied)), next);
  }

  /**
   The marker of a delivered message is tried three times: it is set if any try took effect, the lock is released once
   a reply came, and without any reply the worker leaves its lock standing.
   */
  lemma MarkerIsTriedThreeTimes(s: System, w: Token, first: Fate, second: Fate, third: Fate)
    requires Inv(s) && w in s.workers && s.workers[w] == Send && first != Replied && second != Replied
    ensures
      var sent := Next(s, Step(w, Replied, Sent));
      var t := Run(sent, [Step(w, first, Sent), Step(w, second, Sent), Step(w, third, Sent)]);
      && t.delivered == [w]
      && t.redis.done == (first != NotApplied || second != NotApplied || third != NotApplied)
      && HoldsForever(t, w)
      && (third != Replied ==> w !in t.workers)
      && (third == Replied ==>
            w in t.workers && t.workers[w] == Release
            && Next(t, Step(w, Replied, Sent)).redis.lock.None? && w !in Next(t, Step(w, Replied, Sent)).workers)
  {
    assert WorkerOk(s, w);
    var sent := Next(s, Step(w, Replied, Sent));
    RunThree(sent, Step(w, first, Sent), Step(w, second, Sent), Step(w, third, Sent));
  }

  /** After an ambiguous send nobody cleans up: the lock stands, and the message counts once, now or when it arrives. */
  lemma AmbiguousSendIsLeftAlone(s: System, w: Token, arrived: bool, mayArriveLater: bool)
    requires Inv(s) && w in s.workers && s.workers[w] == Send
    ensures
      var t := Next(s, Step(w, Replied, Ambiguous(arrived, mayArriveLater)));
      && HoldsForever(t, w) && w !in t.workers
      && t.delivered == (if arrived then [w] else [])
      && Next(t, LateArrival(w)).delivered == (if arrived || mayArriveLater then [w] else [])
  {
    assert WorkerOk(s, w);
  }

  /** Once the marker is set, a new worker leaves without touching Redis. */
  lemma MarkedNotificationIsSkipped(s: System, w: Token, fate: Fate, send: SendOutcome)
    requires s.redis.done && w !in s.used
    ensures
      var t := Next(Next(s, Start(w)), Step(w, fate, send));
      t.redis == s.redis && w !in t.workers && t.delivered == s.delivered
  {
  }

  /** A reply lost before the send ends the attempt: the worker sends nothing and is gone after at most its release. */
  lemma LostReplyEndsTheAttempt(s: System, w: Token, lost: Fate, next: Fate, send: SendOutcome)
    requires w in s.workers && s.workers[w] in {CheckDone, Acquire, Recheck, Persist} && lost != Replied
    ensures
      var t := Next(s, Step(w, lost, send));
      var u := Next(t, Step(w, next, send));
      && (w in t.workers ==> t.workers[w] == Release && s.workers[w] in {Recheck, Persist})
      && w !in u.workers && u.delivered == s.delivered && u.limbo == s.limbo && u.redis.done == s.redis.done
  {
  }

  // ------------------------------------------------------------ the monitor

  /** The shared keys and the workers running against them. */
  class LaunchMonitor {
    var done: bool
    var lock: Option<Lock>
    var clock: int
    var workers: map<Token, Worker>
    var used: set<Token>
    var delivered: seq<Token>
    var limbo: set<Token>

    ghost function View(): System
      reads this
    {
      System(Redis(done, lock, clock), workers, used, delivered, limbo)
    }

    constructor ()
      ensures View() == START
    {
      done, lock, clock, workers, used, delivered, limbo := false, None, 0, map[], {}, [], {};
    }

    method Begin(w: Token)
      modifies this
      ensures View() == Next(old(View()), Start(w))
    {
      if w !in used {
        used := used + {w};
        workers := workers[w := CheckDone];
      }
    }

    /** Run one worker up to its next await. */
    method Advance(w: Token, fate: Fate, send: SendOutcome)
      modifies this
      ensures View() == Next(old(View()), Step(w, fate, send))
    {
      if w !in workers {
        return;
      }
      match workers[w] {
        case CheckDone => StepBeforeSend(w, fate, send);
        case Acquire => StepBeforeSend(w, fate, send);
        case Recheck => StepBeforeSend(w, fate, send);
        case Persist => StepBeforeSend(w, fate, send);
        case Send => StepSend(w, fate, send);
        case Marker(attempt) => StepAfterSend(w, fate, send);
        case RestoreLease => StepAfterSend(w, fate, send);
        case Release => StepAfterSend(w, fate, send);
      }
    }

    method StepBeforeSend(w: Token, fate: Fate, ghost send: SendOutcome)
      requires w in workers && workers[w] in {CheckDone, Acquire, Recheck, Persist}
      modifies this
      ensures View() == WorkerStep(old(View()), w, fate, send)
    {
      var next: Option<Worker> := None;
      match workers[w] {
        case CheckDone =>
          if fate.Replied? && !done { next := Some(Acquire); }
        case Acquire =>
          if lock.None? && !fate.NotApplied? {
            lock := Some(Lock(w, Some(clock + PRE_DELIVERY_LEASE_MS)));
            if fate.Replied? { next := Some(Recheck); }
          }
        case Recheck =>
          next := Some(if fate.Replied? && !done then Persist else Release);
        case Persist =>
          next := Some(Release);
          if lock.Some? && lock.value.token == w && lock.value.expiresAt.Some? && !fate.NotApplied? {
            lock := Some(Lock(w, None));
            if fate.Replied? { next := Some(Send); }
          }
      }
      MoveTo(w, next);
    }

    method StepSend(w: Token, ghost fate: Fate, send: SendOutcome)
      requires w in workers && workers[w] == Send
      modifies this
      ensures View() == WorkerStep(old(View()), w, fate, send)
    {
      match send {
        case Sent =>
          delivered := delivered + [w];
          MoveTo(w, Some(Marker(1)));
        case Skipped => MoveTo(w, Some(RestoreLease));
        case Rejected => MoveTo(w, Some(RestoreLease));
        case Ambiguous(arrived, later) =>
          if arrived {
            delivered := delivered + [w];
          } else if later {
            limbo := limbo + {w};
          }
          MoveTo(w, None);
      }
    }

    method StepAfterSend(w: Token, fate: Fate, ghost send: SendOutcome)
      requires w in workers && (workers[w].Marker? || workers[w] in {RestoreLease, Release})
      modifies this
      ensures View() == WorkerStep(old(View()), w, fate, send)
    {
      var next: Option<Worker> := None;
      match workers[w] {
        case Marker(attempt) =>
          if !fate.NotApplied? { done := true; }
          if fate.Replied? {
            next := Some(Release);
          } else if attempt < MARKER_ATTEMPTS {
            next := Some(Marker(attempt + 1));
          }
        case RestoreLease =>
          if lock.Some? && !fate.NotApplied? {
            lock := Some(Lock(w, Some(clock + PRE_DELIVERY_LEASE_MS)));
          }
          next := Some(Release);
        case Release =>
          if lock.Some? && lock.value.token == w && !fate.NotApplied? {
            lock := None;
          }
      }
      MoveTo(w, next);
    }

    /** The next await of a worker, or its end. */
    method MoveTo(w: Token, next: Option<Worker>)
      modifies this`workers
      ensures workers == if next.Some? then old(workers)[w := next.value] else old(workers) - {w}
    {
      workers := if next.Some? then workers[w := next.value] else workers - {w};
    }

    method Elapse(elapsed: nat)
      modifies this`lock, this`clock
      ensures View() == Next(old(View()), Tick(elapsed))
    {
      clock := clock + elapsed;
      if lock.Some? && lock.value.expiresAt.Some? && lock.value.expiresAt.value <= clock {
        lock := None;
      }
    }
  }
}
