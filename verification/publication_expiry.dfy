/**
 What becomes of publications that are no longer active: their items get the
 retired TTL, so nothing stays in Redis for good that no manifest names - unless
 a compare-and-swap drops items, which it never gives an expiry. Also what each
 answer of a swap and of a read means.
 */
module PublicationExpiry {
  import opened Wrappers
  import opened Publications

  lemma RunTwo(s: Store, a: Event, b: Event)
    ensures Run(s, [a, b]) == Next(Next(s, a), b)
  {
    assert [a, b][1..] == [b] && [b][1..] == [];
    assert Run(Next(s, a), [b]) == Run(Next(Next(s, a), b), []);
  }

  /** An activation leaves the items it replaces for the retired TTL, exactly, and the new ones for good. */
  lemma ReplacedItemsExpire(s: Store, m: Manifest, elapsed: nat, key: ItemKey)
    requires PointerSafe(s) && m.WellKeyed() && ActivationOf(s, m) == Published
    requires m.scope in s.active && (key in Keys(s.active[m.scope].items) || key in Keys(m.items))
    ensures
      var t := Run(s, [Deliver(m), Elapse(elapsed)]);
      key in t.cells <==> key in Keys(m.items) || elapsed < RETIRED_TTL_MS
  {
    RunTwo(s, Deliver(m), Elapse(elapsed));
    assert ManifestSafe(s, m.scope);
    var before := s.active[m.scope];
    if i :| 0 <= i < |before.items| && before.items[i].key == key { assert Pinned(s, before.items[i].key); }
    if i :| 0 <= i < |m.items| && m.items[i].key == key { assert StagedWithSize(s, m.items[i]); }
  }

  /** A retirement leaves the items of its publication for the retired TTL, exactly. */
  lemma RetiredItemsExpire(s: Store, scope: Scope, elapsed: nat, key: ItemKey)
    requires PointerSafe(s) && scope in s.active && key in Keys(s.active[scope].items)
    ensures
      var t := Run(s, [Retire(scope), Elapse(elapsed)]);
      scope !in t.active && (key in t.cells <==> elapsed < RETIRED_TTL_MS)
  {
    RunTwo(s, Retire(scope), Elapse(elapsed));
    assert ManifestSafe(s, scope);
    var i :| 0 <= i < |s.active[scope].items| && s.active[scope].items[i].key == key;
    assert Pinned(s, s.active[scope].items[i].key);
  }

  /** A staged item that no activation picks up goes after the staging TTL, exactly. */
  lemma StagedItemExpires(s: Store, key: ItemKey, payload: Payload, elapsed: nat)
    requires key !in s.cells
    ensures
      var t := Run(s, [Stage(key, payload), Elapse(elapsed)]);
      && (key in t.cells <==> elapsed < STAGING_TTL_MS)
      && (key in t.cells ==> t.cells[key].payload == payload)
  {
    RunTwo(s, Stage(key, payload), Elapse(elapsed));
  }

  // ------------------------------------------------- what swaps and reads do

  /** Every item of the manifest has a cell. */
  predicate AllStaged(s: Store, m: Manifest) {
    forall i | 0 <= i < |m.items| :: m.items[i].key in s.cells
  }

  /** Each answer of a compare-and-swap says what it found, and only two of them move a pointer. */
  lemma SwapAnswersWhatItFound(s: Store, scope: Scope, expected: string, replacement: Option<Manifest>)
    ensures
      var outcome := SwapOf(s, scope, expected, replacement);
      var t := CompareAndSwap(s, scope, expected, replacement);
      var found := scope in s.active && s.active[scope].publicationId == expected;
      && (outcome == Missing <==> scope !in s.active)
      && (outcome == Changed <==> scope in s.active && !found)
      && (outcome == Removed <==> found && replacement.None?)
      && (outcome == SwapMissingStage <==> found && replacement.Some? && !AllStaged(s, replacement.value))
      && (outcome == Replaced <==> found && replacement.Some? && AllStaged(s, replacement.value))
      && t.active ==
           (if outcome == Replaced then s.active[scope := replacement.value]
            else if outcome == Removed then s.active - {scope}
            else s.active)
      && (outcome == Replaced ==>
            forall i | 0 <= i < |replacement.value.items| :: Pinned(t, replacement.value.items[i].key))
  {
  }

  /** A swap that meets a missing item has persisted the items before it, and those alone. */
  lemma RejectedSwapPersistsItsPrefix(s: Store, scope: Scope, expected: string, m: Manifest, n: nat, key: ItemKey)
    requires scope in s.active && s.active[scope].publicationId == expected
    requires n < |m.items| && m.items[n].key !in s.cells && forall i | 0 <= i < n :: m.items[i].key in s.cells
    ensures Pinned(CompareAndSwap(s, scope, expected, Some(m)), key) <==>
      Pinned(s, key) || exists i | 0 <= i < n :: m.items[i].key == key
  {
    PrefixEndsAtMissing(s, m.items, n);
    assert Keys(m.items[..n]) == set i | 0 <= i < n :: m.items[i].key;
    if i :| 0 <= i < n && m.items[i].key == key { assert m.items[..n][i].key == key; }
  }

  lemma {:induction false} PrefixEndsAtMissing(s: Store, items: seq<Item>, n: nat)
    requires n < |items| && items[n].key !in s.cells && forall i | 0 <= i < n :: items[i].key in s.cells
    ensures PresentPrefix(s, items) == n
  {
    if n > 0 {
      forall i | 0 <= i < n - 1 ensures items[1..][i].key in s.cells { assert items[1..][i] == items[i + 1]; }
      PrefixEndsAtMissing(s, items[1..], n - 1);
    }
  }

  /** A read succeeds exactly when the manifest names something and every item is there as it was proved. */
  lemma ReadSucceedsIffWhole(s: Store, m: Manifest)
    ensures ReadItems(s, m) ==
      if m.items != [] && forall i | 0 <= i < |m.items| ::
           && m.items[i].key in s.cells && s.cells[m.items[i].key].payload == m.items[i].sha256.preimage
           && |m.items[i].sha256.preimage.bytes| == m.items[i].bytes
           && m.items[i].sha256.preimage.count == m.items[i].count
      then Some(PayloadsOf(m)) else None
  {
    if ReadItems(s, m).Some? {
      ReadIsWhole(s, m);
      forall i | 0 <= i < |m.items| ensures Verified(s, m.items[i]) {}
    } else if m.items != [] {
      var i :| 0 <= i < |m.items| && !Verified(s, m.items[i]);
      assert m.items[i].key in s.cells && s.cells[m.items[i].key].payload == m.items[i].sha256.preimage ==>
        Sha256(s.cells[m.items[i].key].payload) == m.items[i].sha256;
    }
  }

  // ------------------------------------------------------ nothing is left over

  predicate Named(s: Store, key: ItemKey) {
    exists scope | scope in s.active :: key in Keys(s.active[scope].items)
  }

  /** Every cell without expiry is named by an active manifest. */
  ghost predicate NoneLeftOver(s: Store) {
    forall key | Pinned(s, key) :: Named(s, key)
  }

  /** A compare-and-swap that takes the pointer off an item, or persists an item of a manifest it then rejects. */
  ghost predicate Drops(s: Store, e: Event) {
    e.Swap? && WellFormed(e) &&
    match SwapOf(s, e.scope, e.expected, e.replacement)
    case Missing => false
    case Changed => false
    case Removed => Keys(s.active[e.scope].items) != {}
    case Replaced => !(Keys(s.active[e.scope].items) <= Keys(e.replacement.value.items))
    case SwapMissingStage =>
      var items := e.replacement.value.items;
      exists key :: key in Keys(items[..PresentPrefix(s, items)]) && !Named(s, key)
  }

  lemma DeliveryLeavesNone(s: Store, m: Manifest)
    requires NoneLeftOver(s)
    ensures NoneLeftOver(Activate(s, m))
  {
    var t := Activate(s, m);
    if ActivationOf(s, m) == Published {
      forall key | Pinned(t, key) ensures Named(t, key) {
        if key in Keys(m.items) {
          assert t.active[m.scope] == m;
        } else {
          assert Pinned(s, key);
          var scope :| scope in s.active && key in Keys(s.active[scope].items);
          assert scope != m.scope && t.active[scope] == s.active[scope];
        }
      }
    }
  }

  lemma RetirementLeavesNone(s: Store, scope: Scope)
    requires NoneLeftOver(s)
    ensures NoneLeftOver(RetireActive(s, scope))
  {
    var t := RetireActive(s, scope);
    forall key | Pinned(t, key) ensures Named(t, key) {
      assert Pinned(s, key);
      var other :| other in s.active && key in Keys(s.active[other].items);
      assert other in t.active && t.active[other] == s.active[other];
    }
  }

  /** The keys of an active manifest are pinned and lie in its own scope. */
  lemma NamedKeysAreOwn(s: Store, scope: Scope, key: ItemKey)
    requires PointerSafe(s) && scope in s.active && key in Keys(s.active[scope].items)
    ensures Pinned(s, key) && key.scope == scope
  {
    assert ManifestSafe(s, scope);
    var i :| 0 <= i < |s.active[scope].items| && s.active[scope].items[i].key == key;
    assert Pinned(s, s.active[scope].items[i].key);
  }

  lemma ReplacementLeavesNoneIffItKeepsAll(s: Store, e: Event)
    requires PointerSafe(s) && NoneLeftOver(s) && e.Swap? && WellFormed(e)
    requires SwapOf(s, e.scope, e.expected, e.replacement) == Replaced
    ensures NoneLeftOver(Next(s, e)) <==> Keys(s.active[e.scope].items) <= Keys(e.replacement.value.items)
  {
    var t := Next(s, e);
    NextIsSafe(s, e);
    if key :| key in Keys(s.active[e.scope].items) && key !in Keys(e.replacement.value.items) {
      NamedKeysAreOwn(s, e.scope, key);
      forall other | other in t.active ensures key !in Keys(t.active[other].items) {
        if key in Keys(t.active[other].items) { NamedKeysAreOwn(t, other, key); }
      }
      assert Pinned(t, key) && !Named(t, key);
    } else {
      forall key | Pinned(t, key) ensures Named(t, key) {
        if key in Keys(e.replacement.value.items) {
          assert t.active[e.scope] == e.replacement.value;
        } else {
          assert Pinned(s, key) && Named(s, key);
          var other :| other in s.active && key in Keys(s.active[other].items);
          assert other in t.active && t.active[other] == s.active[other];
        }
      }
    }
  }

  lemma RemovalLeavesNoneIffEmpty(s: Store, e: Event)
    requires PointerSafe(s) && NoneLeftOver(s) && e.Swap?
    requires SwapOf(s, e.scope, e.expected, e.replacement) == Removed
    ensures NoneLeftOver(Next(s, e)) <==> Keys(s.active[e.scope].items) == {}
  {
    var t := Next(s, e);
    if key :| key in Keys(s.active[e.scope].items) {
      NamedKeysAreOwn(s, e.scope, key);
      forall other | other in t.active ensures key !in Keys(t.active[other].items) {
        if key in Keys(t.active[other].items) { NamedKeysAreOwn(s, other, key); }
      }
      assert Pinned(t, key) && !Named(t, key);
    } else {
      forall key | Pinned(t, key) ensures Named(t, key) {
        assert Pinned(s, key) && Named(s, key);
        var other :| other in s.active && key in Keys(s.active[other].items);
        assert other in t.active && t.active[other] == s.active[other];
      }
    }
  }

  lemma RejectionLeavesNoneIffNamed(s: Store, e: Event)
    requires NoneLeftOver(s) && e.Swap? && WellFormed(e)
    requires SwapOf(s, e.scope, e.expected, e.replacement) == SwapMissingStage
    ensures NoneLeftOver(Next(s, e)) <==> !Drops(s, e)
  {
    var t := Next(s, e);
    var items := e.replacement.value.items;
    var persisted := Keys(items[..PresentPrefix(s, items)]);
    forall key ensures Pinned(t, key) <==> Pinned(s, key) || key in persisted {
      if i :| 0 <= i < PresentPrefix(s, items) && items[i].key == key { assert key in s.cells; }
    }
    assert forall key :: Named(t, key) <==> Named(s, key);
    if Drops(s, e) {
      var key :| key in persisted && !Named(s, key);
      assert Pinned(t, key) && !Named(t, key);
    } else {
      forall key | Pinned(t, key) ensures Named(t, key) { assert key in persisted ==> Named(s, key); }
    }
  }

  /** A swap leaves nothing over exactly when it drops nothing. */
  lemma SwapLeavesNoneIffItDropsNone(s: Store, e: Event)
    requires PointerSafe(s) && NoneLeftOver(s) && e.Swap? && WellFormed(e)
    ensures NoneLeftOver(Next(s, e)) <==> !Drops(s, e)
  {
    var t := Next(s, e);
    match SwapOf(s, e.scope, e.expected, e.replacement)
    case Missing =>
    case Changed =>
    case Removed => RemovalLeavesNoneIffEmpty(s, e);
    case Replaced => ReplacementLeavesNoneIffItKeepsAll(s, e);
    case SwapMissingStage => RejectionLeavesNoneIffNamed(s, e);
  }

  /** No swap of the run drops an item. */
  ghost predicate NothingDropped(s: Store, events: seq<Event>)
    decreases |events|
  {
    events == [] || (!Drops(s, events[0]) && NothingDropped(Next(s, events[0]), events[1..]))
  }

  lemma NextLeavesNone(s: Store, e: Event)
    requires PointerSafe(s) && NoneLeftOver(s) && !Drops(s, e)
    ensures NoneLeftOver(Next(s, e))
  {
    if WellFormed(e) {
      match e
      case Deliver(m) => DeliveryLeavesNone(s, m);
      case Swap(scope, expected, replacement) => SwapLeavesNoneIffItDropsNone(s, e);
      case Retire(scope) => RetirementLeavesNone(s, scope);
      case Stage(key, payload) => StageOrTickLeavesNone(s, e);
      case Elapse(elapsed) => StageOrTickLeavesNone(s, e);
    }
  }

  lemma StageOrTickLeavesNone(s: Store, e: Event)
    requires NoneLeftOver(s) && (e.Stage? || e.Elapse?)
    ensures NoneLeftOver(Next(s, e))
  {
    var t := Next(s, e);
    forall key | Pinned(t, key) ensures Named(t, key) {
      assert Pinned(s, key);
      var scope :| scope in s.active && key in Keys(s.active[scope].items);
      assert t.active[scope] == s.active[scope];
    }
  }

  /** In every run in which no swap drops an item, each cell without expiry is named by an active manifest. */
  lemma {:induction false} NothingIsLeftOver(s: Store, events: seq<Event>)
    requires PointerSafe(s) && NoneLeftOver(s) && NothingDropped(s, events)
    ensures NoneLeftOver(Run(s, events))
    decreases |events|
  {
    if events != [] {
      NextIsSafe(s, events[0]);
      NextLeavesNone(s, events[0]);
      NothingIsLeftOver(Next(s, events[0]), events[1..]);
    }
  }

  /** Stagings, ticks, deliveries, heartbeats and retirements: everything but a repair. */
  predicate Regular(book: map<string, Manifest>, e: Event) {
    Forward(book, e) || e.Retire?
  }

  lemma RegularStepDropsNothing(s: Store, e: Event, book: map<string, Manifest>)
    requires BookOk(s, book) && Regular(book, e)
    ensures !Drops(s, e) || SwapOf(s, e.scope, e.expected, e.replacement) == SwapMissingStage
    ensures BookOk(Next(s, e), book)
  {
    if e.Swap? && e.scope in s.active && s.active[e.scope].publicationId == e.expected {
      assert Registered(book, s.active[e.scope]);
      assert s.active[e.scope].items == Essence(s.active[e.scope]).items;
      assert e.replacement.value.items == Essence(e.replacement.value).items;
    }
  }

  lemma {:induction false} RegularRunDropsNothing(s: Store, events: seq<Event>, book: map<string, Manifest>)
    requires PointerSafe(s) && BookOk(s, book) && forall i | 0 <= i < |events| :: Regular(book, events[i])
    ensures NothingDropped(s, events)
    decreases |events|
  {
    if events != [] {
      RegularStepDropsNothing(s, events[0], book);
      if events[0].Swap? { HeartbeatFindsItsItems(s, events[0], book); }
      NextIsSafe(s, events[0]);
      RegularRunDropsNothing(Next(s, events[0]), events[1..], book);
    }
  }

  /** The items a heartbeat names are those of the active manifest, so none is missing. */
  lemma HeartbeatFindsItsItems(s: Store, e: Event, book: map<string, Manifest>)
    requires PointerSafe(s) && BookOk(s, book) && Regular(book, e) && e.Swap?
    ensures SwapOf(s, e.scope, e.expected, e.replacement) != SwapMissingStage
  {
    if e.scope in s.active && s.active[e.scope].publicationId == e.expected {
      assert Registered(book, s.active[e.scope]) && ManifestSafe(s, e.scope);
      assert s.active[e.scope].items == Essence(s.active[e.scope]).items;
      assert e.replacement.value.items == Essence(e.replacement.value).items;
      var items := e.replacement.value.items;
      forall i | 0 <= i < |items| ensures items[i].key in s.cells { assert Pinned(s, s.active[e.scope].items[i].key); }
    }
  }

  /** So from the empty store only a repair can leave anything behind. */
  lemma OnlyRepairsLeaveItemsOver(events: seq<Event>, book: map<string, Manifest>, key: ItemKey)
    requires forall i | 0 <= i < |events| :: Regular(book, events[i])
    requires Pinned(Run(EMPTY_STORE, events), key)
    ensures Named(Run(EMPTY_STORE, events), key)
  {
    RegularRunDropsNothing(EMPTY_STORE, events, book);
    NothingIsLeftOver(EMPTY_STORE, events);
  }

  /** The event names the key in a manifest it installs. */
  predicate Renames(e: Event, key: ItemKey) {
    || (e.Deliver? && key in Keys(e.manifest.items))
    || (e.Swap? && e.replacement.Some? && key in Keys(e.replacement.value.items))
  }

  /** What a repair left over stays: no script and no passing of time removes it until a manifest names it again. */
  lemma {:induction false} LeftOverStays(s: Store, events: seq<Event>, key: ItemKey)
    requires Pinned(s, key) && !Named(s, key) && forall i | 0 <= i < |events| :: !Renames(events[i], key)
    ensures Pinned(Run(s, events), key) && !Named(Run(s, events), key)
    decreases |events|
  {
    if events != [] {
      var s1 := Next(s, events[0]);
      LeftOverStep(s, events[0], key);
      LeftOverStays(s1, events[1..], key);
    }
  }

  lemma LeftOverStep(s: Store, e: Event, key: ItemKey)
    requires Pinned(s, key) && !Named(s, key) && !Renames(e, key)
    ensures Pinned(Next(s, e), key) && !Named(Next(s, e), key)
  {
    var t := Next(s, e);
    if e.Swap? && SwapOf(s, e.scope, e.expected, e.replacement) == Replaced {
      assert key !in Keys(e.replacement.value.items);
    }
    forall scope | scope in t.active ensures key !in Keys(t.active[scope].items) {
      if scope in s.active && t.active[scope] == s.active[scope] { assert key !in Keys(s.active[scope].items); }
    }
  }
}
