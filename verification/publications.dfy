/**
 Immutable publications in Redis: src/cache/data-publication.ts and the heartbeat
 of src/cache/live-snapshot-cache.ts. Item payloads are staged with a TTL, one
 Lua script activates a manifest by persisting its items, others swap or retire
 the pointer, and readers GET the pointer and MGET its items in two steps.
 */
module Publications {
  import opened Wrappers

  const STAGING_TTL_MS := 15 * 60 * 1000
  const RETIRED_TTL_MS := 24 * 60 * 60 * 1000

  datatype Dataset = Core | Live | Market

  datatype Scope = Scope(dataset: Dataset, season: string, eventId: Option<nat>)

  datatype ItemKey = ItemKey(scope: Scope, revision: nat, name: string)

  /** A serialised item: its bytes and the number of elements they decode to. */
  datatype Payload = Payload(bytes: string, count: nat)

  /** SHA-256 of a payload, taken as injective. */
  datatype Digest = Sha256(preimage: Payload)

  datatype Item = Item(name: string, key: ItemKey, count: nat, bytes: nat, sha256: Digest)

  datatype Manifest = Manifest(
    scope: Scope,
    revision: nat,
    publicationId: string,
    sourceCheckedAt: int,
    lastFetchAt: Option<int>,
    publishedAt: int,
    state: string,
    items: seq<Item>)
  {
    /** Every item key lies in the manifest's own scope and revision. */
    predicate WellKeyed() {
      forall i | 0 <= i < |items| :: items[i].key == ItemKey(scope, revision, items[i].name)
    }
  }

  datatype Cell = Cell(payload: Payload, expiresAt: Option<int>)

  datatype Store = Store(clock: int, cells: map<ItemKey, Cell>, active: map<Scope, Manifest>)

  // ------------------------------------------------------------- key effects

  function Keys(items: seq<Item>): (keys: set<ItemKey>)
    ensures forall i | 0 <= i < |items| :: items[i].key in keys
  {
    set i | 0 <= i < |items| :: items[i].key
  }

  lemma KeysOfLonger(items: seq<Item>, n: nat)
    requires n < |items|
    ensures Keys(items[..n + 1]) == Keys(items[..n]) + {items[n].key}
  {
    assert items[..n + 1] == items[..n] + [items[n]];
    forall k | k in Keys(items[..n]) ensures k in Keys(items[..n + 1]) {
      var i :| 0 <= i < n && items[..n][i].key == k;
      assert items[..n + 1][i].key == k;
    }
    assert items[..n + 1][n].key in Keys(items[..n + 1]);
  }

  /** PERSIST on every listed key that exists. */
  function Persisted(cells: map<ItemKey, Cell>, keys: set<ItemKey>): (r: map<ItemKey, Cell>)
    ensures r.Keys == cells.Keys
  {
    map k | k in cells :: if k in keys then cells[k].(expiresAt := None) else cells[k]
  }

  /** PEXPIRE on every listed key that exists. */
  function Expiring(cells: map<ItemKey, Cell>, keys: set<ItemKey>, at: int): (r: map<ItemKey, Cell>)
    ensures r.Keys == cells.Keys
  {
    map k | k in cells :: if k in keys then cells[k].(expiresAt := Some(at)) else cells[k]
  }

  // ------------------------------------------------------------------- steps

  /** SET key payload PX ttl NX. */
  function StageItem(s: Store, key: ItemKey, payload: Payload): Store {
    if key in s.cells then s
    else s.(cells := s.cells[key := Cell(payload, Some(s.clock + STAGING_TTL_MS))])
  }

  datatype Activation =
    | Published
    | Idempotent
    | Stale
    | IdConflict
    | MissingStage(missing: ItemKey)
    | WrongStageSize(wrong: ItemKey)

  /** The fields the script compares when a publication id comes back. */
  predicate SameProof(a: Manifest, b: Manifest) {
    a.scope == b.scope && a.revision == b.revision && a.sourceCheckedAt == b.sourceCheckedAt
    && a.lastFetchAt == b.lastFetchAt && a.state == b.state && a.items == b.items
  }

  /** (sourceCheckedAt, revision), lexicographically. */
  predicate Newer(a: Manifest, b: Manifest) {
    a.sourceCheckedAt > b.sourceCheckedAt || (a.sourceCheckedAt == b.sourceCheckedAt && a.revision > b.revision)
  }

  predicate StagedWithSize(s: Store, item: Item) {
    item.key in s.cells && |s.cells[item.key].payload.bytes| == item.bytes
  }

  /** The first staging problem among the items, if any. */
  function StageProblem(s: Store, items: seq<Item>): (r: Option<Activation>)
    ensures r.None? <==> forall i | 0 <= i < |items| :: StagedWithSize(s, items[i])
    ensures r.Some? ==> r.value.MissingStage? || r.value.WrongStageSize?
  {
    if items == [] then None
    else if items[0].key !in s.cells then Some(MissingStage(items[0].key))
    else if |s.cells[items[0].key].payload.bytes| != items[0].bytes then Some(WrongStageSize(items[0].key))
    else StageProblem(s, items[1..])
  }

  function Publish(s: Store, m: Manifest): Store {
    var persisted := Persisted(s.cells, Keys(m.items));
    s.(active := s.active[m.scope := m],
       cells :=
         if m.scope in s.active
         then Expiring(persisted, Keys(s.active[m.scope].items) - Keys(m.items), s.clock + RETIRED_TTL_MS)
         else persisted)
  }

  function ActivationOf(s: Store, m: Manifest): Activation {
    if m.scope in s.active && s.active[m.scope].publicationId == m.publicationId then
      if SameProof(s.active[m.scope], m) then Idempotent else IdConflict
    else if m.scope in s.active && !Newer(m, s.active[m.scope]) then Stale
    else StageProblem(s, m.items).GetOr(Published)
  }

  function Activate(s: Store, m: Manifest): Store {
    if ActivationOf(s, m) == Published then Publish(s, m) else s
  }

  datatype SwapOutcome = Replaced | Removed | Missing | Changed | SwapMissingStage

  /** The items persisted before the script meets a missing one. */
  function PresentPrefix(s: Store, items: seq<Item>): (n: nat)
    ensures n <= |items|
    ensures forall i | 0 <= i < n :: items[i].key in s.cells
    ensures n < |items| ==> items[n].key !in s.cells
  {
    if items == [] || items[0].key !in s.cells then 0 else 1 + PresentPrefix(s, items[1..])
  }

  function SwapOf(s: Store, scope: Scope, expected: string, replacement: Option<Manifest>): SwapOutcome {
    if scope !in s.active then Missing
    else if s.active[scope].publicationId != expected then Changed
    else if replacement.None? then Removed
    else if PresentPrefix(s, replacement.value.items) < |replacement.value.items| then SwapMissingStage
    else Replaced
  }

  function CompareAndSwap(s: Store, scope: Scope, expected: string, replacement: Option<Manifest>): Store {
    match SwapOf(s, scope, expected, replacement)
    case Missing => s
    case Changed => s
    case Removed => s.(active := s.active - {scope})
    case SwapMissingStage =>
      var items := replacement.value.items;
      s.(cells := Persisted(s.cells, Keys(items[..PresentPrefix(s, items)])))
    case Replaced =>
      s.(cells := Persisted(s.cells, Keys(replacement.value.items)), active := s.active[scope := replacement.value])
  }

  function RetireActive(s: Store, scope: Scope): Store {
    if scope !in s.active then s
    else
      s.(cells := Expiring(s.cells, Keys(s.active[scope].items), s.clock + RETIRED_TTL_MS),
         active := s.active - {scope})
  }

  /** The clock moves and Redis drops what has expired. */
  function Tick(s: Store, elapsed: nat): Store {
    var now := s.clock + elapsed;
    s.(clock := now,
       cells := map k | k in s.cells && (s.cells[k].expiresAt.None? || s.cells[k].expiresAt.value > now) :: s.cells[k])
  }

  datatype Event =
    | Stage(key: ItemKey, payload: Payload)
    | Deliver(manifest: Manifest)
    | Swap(scope: Scope, expected: string, replacement: Option<Manifest>)
    | Retire(scope: Scope)
    | Elapse(elapsed: nat)

  /** Manifests come from createManifest or the manifest parser, which fix the item keys. */
  predicate WellFormed(e: Event) {
    match e
    case Deliver(m) => m.WellKeyed()
    case Swap(scope, expected, replacement) =>
      replacement.Some? ==> replacement.value.WellKeyed() && replacement.value.scope == scope
    case _ => true
  }

  function Next(s: Store, e: Event): Store {
    if !WellFormed(e) then s
    else
      match e
      case Stage(key, payload) => StageItem(s, key, payload)
      case Deliver(m) => Activate(s, m)
      case Swap(scope, expected, replacement) => CompareAndSwap(s, scope, expected, replacement)
      case Retire(scope) => RetireActive(s, scope)
      case Elapse(elapsed) => Tick(s, elapsed)
  }

  function Run(s: Store, events: seq<Event>): Store
    decreases |events|
  {
    if events == [] then s else Run(Next(s, events[0]), events[1..])
  }

  // ---------------------------------------------------------- pointer safety

  predicate Pinned(s: Store, key: ItemKey) {
    key in s.cells && s.cells[key].expiresAt.None?
  }

  ghost predicate ManifestSafe(s: Store, scope: Scope)
    requires scope in s.active
  {
    var m := s.active[scope];
    && m.scope == scope
    && m.WellKeyed()
    && forall i | 0 <= i < |m.items| :: Pinned(s, m.items[i].key)
  }

  ghost predicate PointerSafe(s: Store) {
    forall scope | scope in s.active :: ManifestSafe(s, scope)
  }

  /** A manifest stays safe when its pointer and its scope's pinned cells do. */
  lemma StaysSafe(s: Store, s': Store, scope: Scope)
    requires scope in s.active && ManifestSafe(s, scope) && scope in s'.active && s'.active[scope] == s.active[scope]
    requires forall k: ItemKey | k.scope == scope && Pinned(s, k) :: Pinned(s', k)
    ensures ManifestSafe(s', scope)
  {
    var m := s.active[scope];
    forall i | 0 <= i < |m.items| ensures Pinned(s', m.items[i].key) { assert m.items[i].key.scope == scope; }
  }

  lemma ActivateIsSafe(s: Store, m: Manifest)
    requires PointerSafe(s) && m.WellKeyed()
    ensures PointerSafe(Activate(s, m))
  {
    var s' := Activate(s, m);
    if ActivationOf(s, m) == Published {
      forall scope | scope in s'.active ensures ManifestSafe(s', scope) {
        if scope == m.scope {
          forall i | 0 <= i < |m.items| ensures Pinned(s', m.items[i].key) { assert StagedWithSize(s, m.items[i]); }
        } else {
          assert ManifestSafe(s, scope);
          assert forall k | k in Keys(m.items) :: k.scope == m.scope;
          if m.scope in s.active {
            assert ManifestSafe(s, m.scope);
            assert forall k | k in Keys(s.active[m.scope].items) :: k.scope == m.scope;
          }
          StaysSafe(s, s', scope);
        }
      }
    }
  }

  lemma SwapIsSafe(s: Store, scope: Scope, expected: string, replacement: Option<Manifest>)
    requires PointerSafe(s) && WellFormed(Swap(scope, expected, replacement))
    ensures PointerSafe(CompareAndSwap(s, scope, expected, replacement))
  {
    var s' := CompareAndSwap(s, scope, expected, replacement);
    forall other | other in s'.active ensures ManifestSafe(s', other) {
      if other != scope || SwapOf(s, scope, expected, replacement) != Replaced {
        assert ManifestSafe(s, other);
        StaysSafe(s, s', other);
      }
    }
  }

  lemma RetireIsSafe(s: Store, scope: Scope)
    requires PointerSafe(s)
    ensures PointerSafe(RetireActive(s, scope))
  {
    var s' := RetireActive(s, scope);
    forall other | other in s'.active ensures ManifestSafe(s', other) {
      assert ManifestSafe(s, other);
      if scope in s.active {
        assert ManifestSafe(s, scope);
        assert forall k | k in Keys(s.active[scope].items) :: k.scope == scope;
      }
      StaysSafe(s, s', other);
    }
  }

  lemma NextIsSafe(s: Store, e: Event)
    requires PointerSafe(s)
    ensures PointerSafe(Next(s, e))
  {
    if WellFormed(e) {
      match e
      case Deliver(m) => ActivateIsSafe(s, m);
      case Swap(scope, expected, replacement) => SwapIsSafe(s, scope, expected, replacement);
      case Retire(scope) => RetireIsSafe(s, scope);
      case _ =>
        forall scope | scope in Next(s, e).active ensures ManifestSafe(Next(s, e), scope) {
          StaysSafe(s, Next(s, e), scope);
        }
    }
  }

  /** Whatever interleaves, every item an active manifest names exists and has no expiry. */
  lemma {:induction false} ActiveItemsNeverExpire(s: Store, events: seq<Event>)
    requires PointerSafe(s)
    ensures PointerSafe(Run(s, events))
    decreases |events|
  {
    if events != [] {
      NextIsSafe(s, events[0]);
      ActiveItemsNeverExpire(Next(s, events[0]), events[1..]);
    }
  }

  lemma {:induction false} RunSplit(s: Store, events: seq<Event>, k: nat)
    requires k <= |events|
    ensures Run(s, events) == Run(Run(s, events[..k]), events[k..])
    decreases k
  {
    if k == 0 {
      assert events[..0] == [] && events[0..] == events;
    } else {
      RunSplit(Next(s, events[0]), events[1..], k - 1);
      assert events[..k][1..] == events[1..][..k - 1] && events[1..][k - 1..] == events[k..];
    }
  }

  // ------------------------------------------- the pointer as a max-register

  /** What a publication id stands for: everything but the heartbeat and the publication time. */
  function Essence(m: Manifest): Manifest {
    m.(lastFetchAt := None, publishedAt := 0)
  }

  /** `book` gives the one publication behind each id. */
  predicate Registered(book: map<string, Manifest>, m: Manifest) {
    m.publicationId in book && book[m.publicationId] == Essence(m)
  }

  ghost predicate BookOk(s: Store, book: map<string, Manifest>) {
    forall scope | scope in s.active :: Registered(book, s.active[scope])
  }

  /** Stagings, ticks, deliveries and heartbeats, but no retirement or repair. */
  predicate Forward(book: map<string, Manifest>, e: Event) {
    match e
    case Stage(key, payload) => true
    case Elapse(elapsed) => true
    case Deliver(m) => Registered(book, m)
    case Swap(scope, expected, replacement) =>
      replacement.Some? && replacement.value.publicationId == expected && Registered(book, replacement.value)
    case Retire(scope) => false
  }

  /** A delivery either leaves the pointer alone or moves it strictly up. */
  lemma DeliveryMovesUp(s: Store, m: Manifest)
    ensures
      var s' := Activate(s, m);
      && (forall scope | scope != m.scope || ActivationOf(s, m) != Published ::
            (scope in s'.active <==> scope in s.active) && (scope in s.active ==> s'.active[scope] == s.active[scope]))
      && (ActivationOf(s, m) == Published ==>
            m.scope in s'.active && s'.active[m.scope] == m && (m.scope in s.active ==> Newer(m, s.active[m.scope])))
  {
  }

  lemma {:induction false} PointerNeverGoesBack(s: Store, events: seq<Event>, book: map<string, Manifest>, scope: Scope)
    requires BookOk(s, book) && forall i | 0 <= i < |events| :: Forward(book, events[i])
    requires scope in s.active
    ensures scope in Run(s, events).active
    ensures !Newer(s.active[scope], Run(s, events).active[scope])
    decreases |events|
  {
    if events != [] {
      var s1 := Next(s, events[0]);
      assert BookOk(s1, book) && scope in s1.active && !Newer(s.active[scope], s1.active[scope]);
      PointerNeverGoesBack(s1, events[1..], book, scope);
    }
  }

  lemma {:induction false} RunKeepsBook(s: Store, events: seq<Event>, book: map<string, Manifest>)
    requires BookOk(s, book) && forall i | 0 <= i < |events| :: Forward(book, events[i])
    ensures BookOk(Run(s, events), book)
    decreases |events|
  {
    if events != [] {
      assert BookOk(Next(s, events[0]), book);
      RunKeepsBook(Next(s, events[0]), events[1..], book);
    }
  }

  /** Whatever happens in between, the pointer ends no older than any delivery the script answered without an error. */
  lemma AcceptedDeliveryIsNeverLost(s: Store, events: seq<Event>, book: map<string, Manifest>, k: nat, m: Manifest)
    requires BookOk(s, book) && forall i | 0 <= i < |events| :: Forward(book, events[i])
    requires k < |events| && events[k] == Deliver(m) && m.WellKeyed()
    requires ActivationOf(Run(s, events[..k]), m) in {Published, Idempotent, Stale}
    ensures m.scope in Run(s, events).active && !Newer(m, Run(s, events).active[m.scope])
  {
    var before := Run(s, events[..k]);
    RunSplit(s, events, k);
    RunKeepsBook(s, events[..k], book);
    DeliveryMovesUp(before, m);
    var rest := events[k..];
    assert Run(before, rest) == Run(Activate(before, m), rest[1..]);
    assert BookOk(Activate(before, m), book);
    PointerNeverGoesBack(Activate(before, m), rest[1..], book, m.scope);
  }

  function DeliverAll(s: Store, ms: seq<Manifest>): Store {
    if ms == [] then s else Activate(DeliverAll(s, ms[..|ms| - 1]), ms[|ms| - 1])
  }

  /** Deliveries never remove or resize a cell. */
  lemma {:induction false} DeliveriesKeepCells(s: Store, ms: seq<Manifest>)
    ensures DeliverAll(s, ms).cells.Keys == s.cells.Keys
    ensures forall k | k in s.cells :: DeliverAll(s, ms).cells[k].payload == s.cells[k].payload
  {
    if ms != [] {
      DeliveriesKeepCells(s, ms[..|ms| - 1]);
    }
  }

  ghost predicate IsMaximum(m: Manifest, ms: seq<Manifest>) {
    m in ms && forall i | 0 <= i < |ms| :: !Newer(ms[i], m)
  }

  /** One more delivery of a staged publication keeps the pointer at the maximum. */
  lemma DeliveryKeepsMaximum(s: Store, ms: seq<Manifest>, m: Manifest)
    requires StageProblem(s, m.items) == None
    requires if ms == [] then m.scope !in s.active else m.scope in s.active && IsMaximum(s.active[m.scope], ms)
    requires forall i | 0 <= i < |ms| && ms[i].publicationId == m.publicationId :: ms[i] == m
    ensures m.scope in Activate(s, m).active && IsMaximum(Activate(s, m).active[m.scope], ms + [m])
  {
    DeliveryMovesUp(s, m);
  }

  /** Staged publications delivered in any order, with any repeats, leave the pointer at their maximum. */
  lemma {:induction false} AnyDeliveryOrderEndsAtTheMaximum(s: Store, ms: seq<Manifest>, scope: Scope)
    requires ms != [] && scope !in s.active
    requires forall i | 0 <= i < |ms| :: ms[i].scope == scope && StageProblem(s, ms[i].items) == None
    requires forall i, j | 0 <= i < |ms| && 0 <= j < |ms| && ms[i].publicationId == ms[j].publicationId ::
      ms[i] == ms[j]
    ensures scope in DeliverAll(s, ms).active && IsMaximum(DeliverAll(s, ms).active[scope], ms)
  {
    var last := |ms| - 1;
    var before := DeliverAll(s, ms[..last]);
    DeliveriesKeepCells(s, ms[..last]);
    var items := ms[last].items;
    forall i | 0 <= i < |items| ensures StagedWithSize(before, items[i]) { assert StagedWithSize(s, items[i]); }
    if last > 0 {
      AnyDeliveryOrderEndsAtTheMaximum(s, ms[..last], scope);
    } else {
      assert ms[..last] == [];
    }
    DeliveryKeepsMaximum(before, ms[..last], ms[last]);
    assert ms == ms[..last] + [ms[last]];
  }

  // ------------------------------------------------------------------ reads

  /** A cell carries exactly what the manifest item proves. */
  predicate Verified(s: Store, item: Item) {
    && item.key in s.cells
    && |s.cells[item.key].payload.bytes| == item.bytes
    && Sha256(s.cells[item.key].payload) == item.sha256
    && s.cells[item.key].payload.count == item.count
  }

  predicate Intact(s: Store, m: Manifest) {
    forall i | 0 <= i < |m.items| :: Verified(s, m.items[i])
  }

  /** The payloads a manifest was prepared from. */
  function PayloadsOf(m: Manifest): seq<Payload> {
    seq(|m.items|, i requires 0 <= i < |m.items| => m.items[i].sha256.preimage)
  }

  /** The MGET half of a read, on the manifest its GET returned. */
  function ReadItems(s: Store, m: Manifest): Option<seq<Payload>> {
    if m.items == [] || !Intact(s, m) then None
    else Some(seq(|m.items|,
      i requires 0 <= i < |m.items| && Verified(s, m.items[i]) => s.cells[m.items[i].key].payload))
  }

  /** Whatever store the MGET meets, it answers with the whole publication or not at all. */
  lemma ReadIsWhole(s: Store, m: Manifest)
    requires ReadItems(s, m).Some?
    ensures ReadItems(s, m).value == PayloadsOf(m)
  {
    forall i | 0 <= i < |m.items| ensures ReadItems(s, m).value[i] == PayloadsOf(m)[i] {
      assert Verified(s, m.items[i]);
    }
  }

  function Elapsed(events: seq<Event>): nat {
    if events == [] then 0
    else (if events[0].Elapse? then events[0].elapsed else 0) + Elapsed(events[1..])
  }

  /** The item is proved and no expiry set so far strikes before `deadline`. */
  predicate HeldUntil(s: Store, item: Item, deadline: int) {
    Verified(s, item) && (s.cells[item.key].expiresAt.None? || s.cells[item.key].expiresAt.value >= deadline)
  }

  /** Nothing but the clock takes a cell away, and every expiry set from now on is a day ahead. */
  lemma NextHolds(s: Store, e: Event, item: Item, deadline: int)
    requires HeldUntil(s, item, deadline) && deadline <= s.clock + RETIRED_TTL_MS
    requires Next(s, e).clock < deadline
    ensures HeldUntil(Next(s, e), item, deadline)
  {
  }

  lemma {:induction false} RunHolds(s: Store, events: seq<Event>, item: Item, deadline: int)
    requires HeldUntil(s, item, deadline) && deadline <= s.clock + RETIRED_TTL_MS
    requires s.clock + Elapsed(events) < deadline
    ensures HeldUntil(Run(s, events), item, deadline)
    decreases |events|
  {
    if events != [] {
      NextHolds(s, events[0], item, deadline);
      RunHolds(Next(s, events[0]), events[1..], item, deadline);
    }
  }

  /** Activations, swaps and retirements in between cannot fail a read that finishes within the retired TTL. */
  lemma ReadSurvivesInterveningSteps(s: Store, events: seq<Event>, scope: Scope)
    requires PointerSafe(s) && scope in s.active && s.active[scope].items != [] && Intact(s, s.active[scope])
    requires Elapsed(events) < RETIRED_TTL_MS
    ensures ReadItems(Run(s, events), s.active[scope]) == Some(PayloadsOf(s.active[scope]))
  {
    var m := s.active[scope];
    assert ManifestSafe(s, scope);
    forall i | 0 <= i < |m.items| ensures Verified(Run(s, events), m.items[i]) {
      assert Pinned(s, m.items[i].key);
      RunHolds(s, events, m.items[i], s.clock + RETIRED_TTL_MS);
    }
    ReadIsWhole(Run(s, events), m);
  }

  /** The bound is tight: a retirement followed by the retired TTL fails the read. */
  lemma ReadFailsAfterTheRetiredTtl(s: Store, scope: Scope)
    requires PointerSafe(s) && scope in s.active && s.active[scope].items != []
    ensures ReadItems(Run(s, [Retire(scope), Elapse(RETIRED_TTL_MS)]), s.active[scope]) == None
  {
    var m := s.active[scope];
    var s1 := Next(s, Retire(scope));
    var s2 := Next(s1, Elapse(RETIRED_TTL_MS));
    assert [Retire(scope), Elapse(RETIRED_TTL_MS)][1..] == [Elapse(RETIRED_TTL_MS)];
    assert Run(s1, [Elapse(RETIRED_TTL_MS)]) == Run(s2, []);
    assert m.items[0].key in Keys(m.items) && m.items[0].key !in s2.cells;
    assert !Verified(s2, m.items[0]);
  }

  /** A verified stage stays intact up to an activation that comes before its shortest remaining TTL. */
  lemma VerifiedStageActivatesIntact(s: Store, events: seq<Event>, m: Manifest, deadline: int)
    requires forall i | 0 <= i < |m.items| :: HeldUntil(s, m.items[i], deadline)
    requires deadline <= s.clock + RETIRED_TTL_MS && s.clock + Elapsed(events) < deadline
    ensures
      var s' := Run(s, events);
      StageProblem(s', m.items) == None && Intact(s', m) && Intact(Activate(s', m), m)
  {
    var s' := Run(s, events);
    forall i | 0 <= i < |m.items| ensures Verified(s', m.items[i]) && StagedWithSize(s', m.items[i]) {
      RunHolds(s, events, m.items[i], deadline);
    }
    forall i | 0 <= i < |m.items| ensures Verified(Activate(s', m), m.items[i]) { assert Verified(s', m.items[i]); }
  }

  /** Every manifest an event installs is intact when it is installed. */
  predicate InstallsIntact(s: Store, events: seq<Event>)
    decreases |events|
  {
    events == [] ||
    (&& (events[0].Deliver? ==> Intact(s, events[0].manifest))
     && (events[0].Swap? && events[0].replacement.Some? ==> Intact(s, events[0].replacement.value))
     && InstallsIntact(Next(s, events[0]), events[1..]))
  }

  ghost predicate AllIntact(s: Store) {
    PointerSafe(s) && forall scope | scope in s.active :: Intact(s, s.active[scope])
  }

  lemma NextStaysIntact(s: Store, e: Event)
    requires AllIntact(s) && InstallsIntact(s, [e])
    ensures AllIntact(Next(s, e))
  {
    NextIsSafe(s, e);
    var s' := Next(s, e);
    forall scope | scope in s'.active ensures Intact(s', s'.active[scope]) {
      var m := s'.active[scope];
      forall i | 0 <= i < |m.items| ensures Verified(s', m.items[i]) {
        assert ManifestSafe(s', scope) && Pinned(s', m.items[i].key);
        assert scope in s.active && s.active[scope] == m ==>
          ManifestSafe(s, scope) && Pinned(s, m.items[i].key) && Verified(s, m.items[i]);
      }
    }
  }

  /** If every installed manifest was intact, then in every reachable state every active one is, so reads succeed. */
  lemma {:induction false} ActivePublicationsStayIntact(s: Store, events: seq<Event>)
    requires AllIntact(s) && InstallsIntact(s, events)
    ensures AllIntact(Run(s, events))
    decreases |events|
  {
    if events != [] {
      assert [events[0]][1..] == [];
      NextStaysIntact(s, events[0]);
      ActivePublicationsStayIntact(Next(s, events[0]), events[1..]);
    }
  }

  // -------------------------------------------------------------- heartbeat

  /** The manifest a heartbeat writes back. */
  function Heartbeat(m: Manifest, at: int): Manifest {
    m.(lastFetchAt := Some(at))
  }

  /** However stale its read, a heartbeat replaces only its own publication and keeps its revision and items. */
  lemma HeartbeatKeepsPublication(s: Store, book: map<string, Manifest>, m: Manifest, at: int)
    requires BookOk(s, book) && Registered(book, m)
    ensures
      var s' := CompareAndSwap(s, m.scope, m.publicationId, Some(Heartbeat(m, at)));
      && s'.active.Keys == s.active.Keys
      && (forall scope | scope in s.active :: Essence(s'.active[scope]) == Essence(s.active[scope]))
      && (forall scope | scope in s.active && s'.active[scope] != s.active[scope] ::
            scope == m.scope && s.active[scope].publicationId == m.publicationId)
      && s'.cells.Keys == s.cells.Keys
      && (forall k | k in s.cells :: s'.cells[k].payload == s.cells[k].payload)
  {
    if m.scope in s.active { assert Registered(book, s.active[m.scope]); }
  }

  /** In a forward run the delivered publication stays active until a newer one replaces it for good. */
  lemma {:induction false} PublicationStaysUntilNewer(s: Store, events: seq<Event>, book: map<string, Manifest>,
    m: Manifest)
    requires BookOk(s, book) && forall i | 0 <= i < |events| :: Forward(book, events[i])
    requires m.scope in s.active && Essence(s.active[m.scope]) == Essence(m)
    ensures m.scope in Run(s, events).active
    ensures Essence(Run(s, events).active[m.scope]) == Essence(m) || Newer(Run(s, events).active[m.scope], m)
    decreases |events|
  {
    if events != [] {
      var s1 := Next(s, events[0]);
      StepKeepsOrReplaces(s, events[0], book, m);
      if Essence(s1.active[m.scope]) == Essence(m) {
        PublicationStaysUntilNewer(s1, events[1..], book, m);
      } else {
        PointerNeverGoesBack(s1, events[1..], book, m.scope);
      }
    }
  }

  lemma StepKeepsOrReplaces(s: Store, e: Event, book: map<string, Manifest>, m: Manifest)
    requires BookOk(s, book) && Forward(book, e)
    requires m.scope in s.active && Essence(s.active[m.scope]) == Essence(m)
    ensures BookOk(Next(s, e), book) && m.scope in Next(s, e).active
    ensures Essence(Next(s, e).active[m.scope]) == Essence(m) || Newer(Next(s, e).active[m.scope], m)
    ensures !(e.Swap? && e.scope == m.scope) ==>
      Next(s, e).active[m.scope] == s.active[m.scope] || Newer(Next(s, e).active[m.scope], m)
  {
    if e.Deliver? { DeliveryMovesUp(s, e.manifest); }
    assert Registered(book, s.active[m.scope]);
    assert s.active[m.scope].sourceCheckedAt == Essence(m).sourceCheckedAt
      && s.active[m.scope].revision == Essence(m).revision;
    if e.Swap? && e.scope in s.active { assert Registered(book, s.active[e.scope]); }
  }

  /** Without a swap on its scope the active manifest itself stays until a newer one. */
  lemma {:induction false} ManifestStaysWithoutHeartbeat(s: Store, events: seq<Event>, book: map<string, Manifest>,
    m: Manifest)
    requires BookOk(s, book)
    requires forall i | 0 <= i < |events| ::
      Forward(book, events[i]) && !(events[i].Swap? && events[i].scope == m.scope)
    requires m.scope in s.active && s.active[m.scope] == m
    ensures m.scope in Run(s, events).active
    ensures Run(s, events).active[m.scope] == m || Newer(Run(s, events).active[m.scope], m)
    decreases |events|
  {
    if events != [] {
      var s1 := Next(s, events[0]);
      StepKeepsOrReplaces(s, events[0], book, m);
      if s1.active[m.scope] == m {
        ManifestStaysWithoutHeartbeat(s1, events[1..], book, m);
      } else {
        PointerNeverGoesBack(s1, events[1..], book, m.scope);
      }
    }
  }

  /** A redelivery at a pointer that names the same publication, or a newer one. */
  lemma RedeliveryOutcome(s: Store, book: map<string, Manifest>, m: Manifest)
    requires BookOk(s, book) && Registered(book, m) && m.scope in s.active
    requires Essence(s.active[m.scope]) == Essence(m) || Newer(s.active[m.scope], m)
    ensures ActivationOf(s, m) ==
      if Newer(s.active[m.scope], m) then Stale
      else if s.active[m.scope].lastFetchAt == m.lastFetchAt then Idempotent
      else IdConflict
  {
    var current := s.active[m.scope];
    assert Registered(book, current);
    assert current.sourceCheckedAt == Essence(current).sourceCheckedAt && current.revision == Essence(current).revision
      && current.publicationId == Essence(current).publicationId && current.scope == Essence(current).scope
      && current.state == Essence(current).state && current.items == Essence(current).items;
    assert m.sourceCheckedAt == Essence(m).sourceCheckedAt && m.revision == Essence(m).revision
      && m.publicationId == Essence(m).publicationId && m.scope == Essence(m).scope
      && m.state == Essence(m).state && m.items == Essence(m).items;
  }

  /**
   After a publication went active, in any forward run: delivering it again is
   stale once a newer one is active, and until then idempotent if and only if
   the active fetch time is still the delivered one. It always is without a
   heartbeat on the scope.
   */
  lemma RedeliveryIsIdempotentIffNoHeartbeat(s: Store, events: seq<Event>, book: map<string, Manifest>, m: Manifest)
    requires BookOk(s, book) && Registered(book, m) && m.WellKeyed() && ActivationOf(s, m) == Published
    requires forall i | 0 <= i < |events| :: Forward(book, events[i])
    ensures
      var t := Run(Next(s, Deliver(m)), events);
      && m.scope in t.active
      && (Newer(t.active[m.scope], m) <==> ActivationOf(t, m) == Stale)
      && (!Newer(t.active[m.scope], m) ==>
            (ActivationOf(t, m) == Idempotent <==> t.active[m.scope].lastFetchAt == m.lastFetchAt)
            && (ActivationOf(t, m) == IdConflict <==> t.active[m.scope].lastFetchAt != m.lastFetchAt))
      && ((forall i | 0 <= i < |events| :: !(events[i].Swap? && events[i].scope == m.scope)) ==>
        ActivationOf(t, m) in {Idempotent, Stale})
  {
    var s1 := Next(s, Deliver(m));
    DeliveryMovesUp(s, m);
    assert BookOk(s1, book);
    var t := Run(s1, events);
    PublicationStaysUntilNewer(s1, events, book, m);
    RunKeepsBook(s1, events, book);
    RedeliveryOutcome(t, book, m);
    if forall i | 0 <= i < |events| :: !(events[i].Swap? && events[i].scope == m.scope) {
      ManifestStaysWithoutHeartbeat(s1, events, book, m);
    }
  }

  const LIVE := Scope(Live, "2526", Some(1))
  const LIVE_ITEM := Item("rows", ItemKey(LIVE, 1, "rows"), 0, 2, Sha256(Payload("[]", 0)))
  const LIVE_MANIFEST := Manifest(LIVE, 1, "p1", 10, None, 10, "live", [LIVE_ITEM])
  const EMPTY_STORE := Store(0, map[], map[])

  /** A run in which the same delivery is answered first with success, then, after a heartbeat, with an id conflict. */
  lemma HeartbeatBreaksRedelivery()
    ensures
      var staged := Run(EMPTY_STORE, [Stage(LIVE_ITEM.key, Payload("[]", 0))]);
      var delivered := Run(EMPTY_STORE, [Stage(LIVE_ITEM.key, Payload("[]", 0)), Deliver(LIVE_MANIFEST)]);
      var beaten := Run(EMPTY_STORE, [Stage(LIVE_ITEM.key, Payload("[]", 0)), Deliver(LIVE_MANIFEST),
                                      Swap(LIVE, "p1", Some(Heartbeat(LIVE_MANIFEST, 20)))]);
      && ActivationOf(staged, LIVE_MANIFEST) == Published
      && ActivationOf(delivered, LIVE_MANIFEST) == Idempotent
      && ActivationOf(beaten, LIVE_MANIFEST) == IdConflict
      && ReadItems(beaten, beaten.active[LIVE]) == Some([Payload("[]", 0)])
  {
    var e1, e2 := Stage(LIVE_ITEM.key, Payload("[]", 0)), Deliver(LIVE_MANIFEST);
    var e3 := Swap(LIVE, "p1", Some(Heartbeat(LIVE_MANIFEST, 20)));
    var s1 := Next(EMPTY_STORE, e1);
    var s2 := Next(s1, e2);
    var s3 := Next(s2, e3);
    assert [e1][1..] == [] && [e1, e2][1..] == [e2] && [e2][1..] == [] && [e1, e2, e3][1..] == [e2, e3]
      && [e2, e3][1..] == [e3]
      && [e3][1..] == [];
    assert Run(s1, [e2]) == Run(s2, []) && Run(s2, [e3]) == Run(s3, []) && Run(s1, [e2, e3]) == Run(s2, [e3]);
    assert s1.cells == map[LIVE_ITEM.key := Cell(Payload("[]", 0), Some(STAGING_TTL_MS))];
    assert StageProblem(s1, LIVE_MANIFEST.items) == None;
    assert s2.active == map[LIVE := LIVE_MANIFEST] && s2.cells == map[LIVE_ITEM.key := Cell(Payload("[]", 0), None)];
    assert s3.active == map[LIVE := Heartbeat(LIVE_MANIFEST, 20)] && s3.cells == s2.cells;
    assert Verified(s3, LIVE_ITEM);
    assert Intact(s3, s3.active[LIVE]);
    ReadIsWhole(s3, s3.active[LIVE]);
    assert PayloadsOf(s3.active[LIVE]) == [Payload("[]", 0)];
    assert Run(EMPTY_STORE, [e1, e2, e3]) == s3;
  }

  // -------------------------------------------------------------- the store

  /** One Redis instance; each method is one command or one Lua script. */
  class Redis {
    var clock: int
    var cells: map<ItemKey, Cell>
    var active: map<Scope, Manifest>

    function View(): Store
      reads this
    {
      Store(clock, cells, active)
    }

    method Stage(key: ItemKey, payload: Payload)
      modifies this`cells
      ensures View() == StageItem(old(View()), key, payload)
    {
      if key !in cells {
        cells := cells[key := Cell(payload, Some(clock + STAGING_TTL_MS))];
      }
    }

    method ActivateRevision(candidate: Manifest) returns (outcome: Activation)
      modifies this`cells, this`active
      ensures outcome == ActivationOf(old(View()), candidate)
      ensures View() == Activate(old(View()), candidate)
    {
      var current: Option<Manifest> := None;
      if candidate.scope in active {
        current := Some(active[candidate.scope]);
        if current.value.publicationId == candidate.publicationId {
          return if SameProof(current.value, candidate) then Idempotent else IdConflict;
        }
        if !Newer(candidate, current.value) {
          return Stale;
        }
      }
      var i := 0;
      while i < |candidate.items|
        invariant 0 <= i <= |candidate.items|
        invariant StageProblem(View(), candidate.items) == StageProblem(View(), candidate.items[i..])
      {
        var item := candidate.items[i];
        if item.key !in cells {
          return MissingStage(item.key);
        }
        if |cells[item.key].payload.bytes| != item.bytes {
          return WrongStageSize(item.key);
        }
        assert candidate.items[i..][1..] == candidate.items[i + 1..];
        i := i + 1;
      }
      PersistAll(candidate.items);
      active := active[candidate.scope := candidate];
      if current.Some? {
        ExpireUnretained(current.value.items, candidate.items);
      }
      return Published;
    }

    method PersistAll(items: seq<Item>)
      modifies this`cells
      ensures cells == Persisted(old(cells), Keys(items))
    {
      assert Keys(items[..0]) == {};
      for i := 0 to |items|
        invariant cells == Persisted(old(cells), Keys(items[..i]))
      {
        KeysOfLonger(items, i);
        if items[i].key in cells {
          cells := cells[items[i].key := cells[items[i].key].(expiresAt := None)];
        }
      }
      assert items[..|items|] == items;
    }

    /** PEXPIRE for every item whose key is not among the retained ones. */
    method ExpireUnretained(items: seq<Item>, retained: seq<Item>)
      modifies this`cells
      ensures cells == Expiring(old(cells), Keys(items) - Keys(retained), clock + RETIRED_TTL_MS)
    {
      assert Keys(items[..0]) == {};
      for i := 0 to |items|
        invariant cells == Expiring(old(cells), Keys(items[..i]) - Keys(retained), clock + RETIRED_TTL_MS)
      {
        KeysOfLonger(items, i);
        var kept := false;
        for j := 0 to |retained|
          invariant kept == exists n | 0 <= n < j :: retained[n].key == items[i].key
        {
          if retained[j].key == items[i].key {
            kept := true;
          }
        }
        assert kept == (items[i].key in Keys(retained));
        if !kept && items[i].key in cells {
          cells := cells[items[i].key := cells[items[i].key].(expiresAt := Some(clock + RETIRED_TTL_MS))];
        }
      }
      assert items[..|items|] == items;
    }

    method CompareAndSwapActive(scope: Scope, expected: string, replacement: Option<Manifest>)
      returns (outcome: SwapOutcome)
      modifies this`cells, this`active
      ensures outcome == SwapOf(old(View()), scope, expected, replacement)
      ensures View() == CompareAndSwap(old(View()), scope, expected, replacement)
    {
      if scope !in active {
        return Missing;
      }
      if active[scope].publicationId != expected {
        return Changed;
      }
      if replacement.None? {
        active := active - {scope};
        return Removed;
      }
      var items := replacement.value.items;
      var present := PersistPresent(items);
      if present < |items| {
        return SwapMissingStage;
      }
      assert items[..present] == items;
      active := active[scope := replacement.value];
      return Replaced;
    }

    /** Persist item by item, stopping at the first missing one. */
    method PersistPresent(items: seq<Item>) returns (n: nat)
      modifies this`cells
      ensures n == PresentPrefix(old(View()), items)
      ensures cells == Persisted(old(cells), Keys(items[..n]))
    {
      n := 0;
      assert Keys(items[..0]) == {};
      while n < |items|
        invariant 0 <= n <= |items| && cells == Persisted(old(cells), Keys(items[..n]))
        invariant forall i | 0 <= i < n :: items[i].key in old(cells)
      {
        if items[n].key !in cells {
          return;
        }
        KeysOfLonger(items, n);
        cells := cells[items[n].key := cells[items[n].key].(expiresAt := None)];
        n := n + 1;
      }
    }

    method Retire(scope: Scope)
      modifies this`cells, this`active
      ensures View() == RetireActive(old(View()), scope)
    {
      if scope in active {
        ExpireUnretained(active[scope].items, []);
        assert Keys([]) == {};
        active := active - {scope};
      }
    }

    method Elapse(elapsed: nat)
      modifies this`clock, this`cells
      ensures View() == Tick(old(View()), elapsed)
    {
      clock := clock + elapsed;
      cells := map k | k in cells && (cells[k].expiresAt.None? || cells[k].expiresAt.value > clock) :: cells[k];
    }

    /** MGET the items of a manifest and accept them only as its whole publication. */
    method Read(m: Manifest) returns (payloads: Option<seq<Payload>>)
      ensures payloads == ReadItems(View(), m)
    {
      if m.items == [] {
        return None;
      }
      var read: seq<Payload> := [];
      for i := 0 to |m.items|
        invariant |read| == i
        invariant forall j | 0 <= j < i :: Verified(View(), m.items[j]) && read[j] == cells[m.items[j].key].payload
      {
        var item := m.items[i];
        if item.key !in cells {
          return None;
        }
        var payload := cells[item.key].payload;
        if |payload.bytes| != item.bytes || Sha256(payload) != item.sha256 {
          return None;
        }
        if payload.count != item.count {
          return None;
        }
        read := read + [payload];
      }
      assert Intact(View(), m);
      assert ReadItems(View(), m).value == read;
      return Some(read);
    }
  }
}
