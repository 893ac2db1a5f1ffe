/**
 The ordered per-entry write fence of src/repositories/entry-event-transfers.ts:
 a transaction takes the advisory locks of its distinct entries in ascending
 order and keeps them until it ends. Lock keys are taken as injective.
 */
module WriteFence {
  type Tx = nat

  datatype Key = Key(season: int, entry: int)

  // ---------------------------------------------------- sorted distinct ids

  predicate Ascending(ids: seq<int>) {
    forall i, j | 0 <= i < j < |ids| :: ids[i] < ids[j]
  }

  function InsertUnique(ids: seq<int>, x: int): (r: seq<int>)
    requires Ascending(ids)
    ensures Ascending(r)
    ensures forall y :: y in r <==> y == x || y in ids
    ensures ids != [] && r != [] ==> r[0] == (if x < ids[0] then x else ids[0])
  {
    if ids == [] || x < ids[0] then [x] + ids
    else if x == ids[0] then ids
    else
      var rest := InsertUnique(ids[1..], x);
      assert forall y | y in rest :: ids[0] < y;
      [ids[0]] + rest
  }

  /** The distinct ids in ascending order. */
  function SortedUnique(ids: seq<int>): (r: seq<int>)
    ensures Ascending(r)
    ensures forall y :: y in r <==> y in ids
  {
    if ids == [] then [] else InsertUnique(SortedUnique(ids[..|ids| - 1]), ids[|ids| - 1])
  }

  /** The order is determined by the set of ids, so every caller asks for shared locks in the same order. */
  lemma {:induction false} AscendingIsUnique(a: seq<int>, b: seq<int>)
    requires Ascending(a) && Ascending(b) && forall y :: y in a <==> y in b
    ensures a == b
    decreases |a|
  {
    assert |a| > 0 ==> a[0] in a && a[0] in b;
    assert |b| > 0 ==> b[0] in b && b[0] in a;
    if a != [] && b != [] {
      assert a[0] == b[0];
      forall y ensures y in a[1..] <==> y in b[1..] {
        assert y in a[1..] <==> y in a && y != a[0];
        assert y in b[1..] <==> y in b && y != b[0];
      }
      AscendingIsUnique(a[1..], b[1..]);
    }
  }

  // ------------------------------------------------------------ the machine

  /** An open transaction: the locks it will take, and how many it holds. */
  datatype Fence = Fence(season: int, want: seq<int>, held: nat)

  type State = map<Tx, Fence>

  datatype Event = Begin(t: Tx, season: int, entryIds: seq<int>) | Acquire(t: Tx) | Commit(t: Tx) | Abort(t: Tx)

  predicate Holds(s: State, t: Tx, key: Key) {
    t in s && s[t].season == key.season && s[t].held <= |s[t].want| && key.entry in s[t].want[..s[t].held]
  }

  predicate Acquiring(s: State, t: Tx) {
    t in s && s[t].held < |s[t].want|
  }

  function Awaited(s: State, t: Tx): Key
    requires Acquiring(s, t)
  {
    Key(s[t].season, s[t].want[s[t].held])
  }

  predicate Free(s: State, key: Key) {
    forall h | h in s :: !Holds(s, h, key)
  }

  function Next(s: State, e: Event): State {
    match e
    case Begin(t, season, entryIds) => if t in s then s else s[t := Fence(season, SortedUnique(entryIds), 0)]
    case Acquire(t) =>
      if Acquiring(s, t) && Free(s, Awaited(s, t)) then s[t := s[t].(held := s[t].held + 1)] else s
    case Commit(t) => if t in s && s[t].held == |s[t].want| then s - {t} else s
    case Abort(t) => s - {t}
  }

  function Run(s: State, events: seq<Event>): State
    decreases |events|
  {
    if events == [] then s else Run(Next(s, events[0]), events[1..])
  }

  ghost predicate Inv(s: State) {
    && (forall t | t in s :: s[t].held <= |s[t].want| && Ascending(s[t].want))
    && (forall t, u, key | Holds(s, t, key) && Holds(s, u, key) :: t == u)
  }

  lemma NextKeepsInv(s: State, e: Event)
    requires Inv(s)
    ensures Inv(Next(s, e))
  {
    var s' := Next(s, e);
    if e.Acquire? && Acquiring(s, e.t) && Free(s, Awaited(s, e.t)) {
      var f := s[e.t];
      assert f.want[..f.held + 1] == f.want[..f.held] + [f.want[f.held]];
      forall t, key | Holds(s', t, key) ensures Holds(s, t, key) || (t == e.t && key == Awaited(s, e.t)) {}
    } else {
      forall t, key | Holds(s', t, key) ensures Holds(s, t, key) {}
    }
  }

  lemma {:induction false} RunKeepsInv(s: State, events: seq<Event>)
    requires Inv(s)
    ensures Inv(Run(s, events))
    decreases |events|
  {
    if events != [] {
      NextKeepsInv(s, events[0]);
      RunKeepsInv(Next(s, events[0]), events[1..]);
    }
  }

  /** Two transactions never hold the same entry lock. */
  lemma LocksAreExclusive(events: seq<Event>, t: Tx, u: Tx, key: Key)
    requires Holds(Run(map[], events), t, key) && Holds(Run(map[], events), u, key)
    ensures t == u
  {
    RunKeepsInv(map[], events);
  }

  // ------------------------------------------------ what a commit relied on

  predicate Ends(e: Event, t: Tx) {
    e == Commit(t) || e == Abort(t)
  }

  /** Until it ends, a transaction keeps its list of locks and every lock it took. */
  lemma {:induction false} LocksAreKeptToTheEnd(s: State, events: seq<Event>, t: Tx)
    requires t in s && forall i | 0 <= i < |events| :: !Ends(events[i], t)
    ensures
      var u := Run(s, events);
      t in u && u[t].season == s[t].season && u[t].want == s[t].want && u[t].held >= s[t].held
    decreases |events|
  {
    if events != [] {
      assert !Ends(events[0], t);
      LocksAreKeptToTheEnd(Next(s, events[0]), events[1..], t);
    }
  }

  /**
   Whatever ran since it began, a transaction can commit if and only if it holds the lock of every entry it asked for,
   and no other transaction holds any of them then.
   */
  lemma CommitHoldsEveryLock(events: seq<Event>, t: Tx, season: int, entryIds: seq<int>, later: seq<Event>)
    requires t !in Run(map[], events) && forall i | 0 <= i < |later| :: !Ends(later[i], t)
    ensures
      var s := Run(Next(Run(map[], events), Begin(t, season, entryIds)), later);
      && t in s
      && (t !in Next(s, Commit(t)) <==> forall id | id in entryIds :: Holds(s, t, Key(season, id)))
      && (forall id, u | id in entryIds && Holds(s, t, Key(season, id)) && Holds(s, u, Key(season, id)) :: u == t)
  {
    var began := Next(Run(map[], events), Begin(t, season, entryIds));
    var s := Run(began, later);
    RunKeepsInv(map[], events);
    NextKeepsInv(Run(map[], events), Begin(t, season, entryIds));
    RunKeepsInv(began, later);
    LocksAreKeptToTheEnd(began, later, t);
    HoldsAllIffComplete(s[t].want, s[t].held);
    assert forall id :: id in entryIds <==> id in s[t].want;
  }

  /** All of an ascending list is in a prefix exactly when the prefix is the list. */
  lemma HoldsAllIffComplete(want: seq<int>, held: nat)
    requires Ascending(want) && held <= |want|
    ensures held == |want| <==> forall id | id in want :: id in want[..held]
  {
    if held < |want| {
      assert want[held] in want && want[held] !in want[..held];
    } else {
      assert want[..held] == want;
    }
  }

  // ---------------------------------------------------------- deadlock freedom

  predicate WaitsFor(s: State, t: Tx, h: Tx) {
    Acquiring(s, t) && Holds(s, h, Awaited(s, t))
  }

  ghost predicate WaitPath(s: State, path: seq<Tx>) {
    |path| >= 2 && forall i | 0 <= i < |path| - 1 :: WaitsFor(s, path[i], path[i + 1])
  }

  /** A holder that itself waits, waits for a larger entry. */
  lemma WaitingClimbs(s: State, t: Tx, h: Tx)
    requires Inv(s) && WaitsFor(s, t, h) && Acquiring(s, h)
    ensures Awaited(s, t).entry < Awaited(s, h).entry
  {
    var f := s[h];
    var i :| 0 <= i < f.held && f.want[..f.held][i] == Awaited(s, t).entry;
    assert f.want[i] < f.want[f.held];
  }

  lemma {:induction false} PathClimbs(s: State, path: seq<Tx>)
    requires Inv(s) && WaitPath(s, path) && Acquiring(s, path[0]) && Acquiring(s, path[|path| - 1])
    ensures Awaited(s, path[0]).entry < Awaited(s, path[|path| - 1]).entry
    decreases |path|
  {
    assert WaitsFor(s, path[0], path[1]);
    if |path| > 2 {
      assert WaitsFor(s, path[1], path[2]);
      WaitingClimbs(s, path[0], path[1]);
      forall i | 0 <= i < |path[1..]| - 1 ensures WaitsFor(s, path[1..][i], path[1..][i + 1]) {
        assert WaitsFor(s, path[i + 1], path[i + 2]);
      }
      PathClimbs(s, path[1..]);
    } else {
      WaitingClimbs(s, path[0], path[1]);
    }
  }

  /** In every reachable state the waits-for graph has no cycle of any length. */
  lemma WaitsForIsAcyclic(events: seq<Event>, path: seq<Tx>)
    requires WaitPath(Run(map[], events), path)
    ensures path[0] != path[|path| - 1]
  {
    RunKeepsInv(map[], events);
    var s := Run(map[], events);
    assert WaitsFor(s, path[0], path[1]);
    if path[0] == path[|path| - 1] { PathClimbs(s, path); }
  }

  predicate CanStep(s: State, t: Tx) {
    t in s && (s[t].held == |s[t].want| || (Acquiring(s, t) && Free(s, Awaited(s, t))))
  }

  /** The transaction awaiting the largest entry is blocked at most by one that can commit. */
  lemma {:induction false} SomeoneCanStep(s: State, among: set<Tx>, best: Tx) returns (t: Tx)
    requires Inv(s) && Acquiring(s, best) && among <= s.Keys
    requires forall u | u in s && u !in among && Acquiring(s, u) :: Awaited(s, u).entry <= Awaited(s, best).entry
    ensures CanStep(s, t)
    decreases |among|
  {
    if u :| u in among && Acquiring(s, u) && Awaited(s, u).entry > Awaited(s, best).entry {
      t := SomeoneCanStep(s, among - {u}, u);
    } else if Free(s, Awaited(s, best)) {
      t := best;
    } else {
      t :| t in s && Holds(s, t, Awaited(s, best));
      assert WaitsFor(s, best, t);
      if Acquiring(s, t) { WaitingClimbs(s, best, t); }
    }
  }

  /** No reachable state with an open transaction is stuck. */
  lemma SystemIsNeverStuck(events: seq<Event>)
    ensures var s := Run(map[], events); s != map[] ==> exists t :: CanStep(s, t)
  {
    RunKeepsInv(map[], events);
    var s := Run(map[], events);
    if s != map[] {
      var t := StepOf(s);
    }
  }

  lemma StepOf(s: State) returns (t: Tx)
    requires Inv(s) && s != map[]
    ensures CanStep(s, t)
  {
    var any :| any in s;
    if Acquiring(s, any) {
      t := SomeoneCanStep(s, s.Keys, any);
    } else {
      t := any;
    }
  }

  /** Lock requests and commits one transaction still has to make. */
  function Remaining(f: Fence): nat {
    1 + if f.held <= |f.want| then |f.want| - f.held else 0
  }

  ghost function Outstanding(s: State): nat
    decreases |s.Keys|
  {
    if s == map[] then 0
    else
      var t :| t in s;
      assert (s - {t}).Keys == s.Keys - {t};
      Remaining(s[t]) + Outstanding(s - {t})
  }

  lemma {:induction false} OutstandingSplits(s: State, t: Tx)
    requires t in s
    ensures Outstanding(s) == Remaining(s[t]) + Outstanding(s - {t})
    decreases |s.Keys|
  {
    var u :| u in s && Outstanding(s) == Remaining(s[u]) + Outstanding(s - {u});
    if u != t {
      assert (s - {u}).Keys == s.Keys - {u};
      OutstandingSplits(s - {u}, t);
      OutstandingSplits(s - {t}, u);
      assert s - {u} - {t} == s - {t} - {u};
    }
  }

  /** From every reachable state some continuation brings every open transaction to its commit. */
  lemma {:induction false} EveryoneCanFinish(s: State) returns (events: seq<Event>)
    requires Inv(s)
    ensures Run(s, events) == map[]
    ensures forall i | 0 <= i < |events| :: events[i].Acquire? || events[i].Commit?
    decreases Outstanding(s)
  {
    if s == map[] {
      return [];
    }
    var t := StepOf(s);
    var e := if Acquiring(s, t) then Acquire(t) else Commit(t);
    var s' := Next(s, e);
    NextKeepsInv(s, e);
    OutstandingSplits(s, t);
    if Acquiring(s, t) {
      OutstandingSplits(s', t);
      assert s' - {t} == s - {t};
    }
    var rest := EveryoneCanFinish(s');
    events := [e] + rest;
    assert events[1..] == rest;
  }

  // --------------------------------------------------------------- the locks

  /** The lock table once `t` holds the first `n` of its locks. */
  function Granted(owner: map<Key, Tx>, t: Tx, season: int, ids: seq<int>): map<Key, Tx> {
    if ids == [] then owner
    else Granted(owner, t, season, ids[..|ids| - 1])[Key(season, ids[|ids| - 1]) := t]
  }

  predicate OpenTo(owner: map<Key, Tx>, t: Tx, key: Key) {
    key !in owner || owner[key] == t
  }

  /** Taking locks changes the owner of exactly the taken keys. */
  lemma {:induction false} GrantedOwner(owner: map<Key, Tx>, t: Tx, season: int, ids: seq<int>, key: Key)
    ensures
      var after := Granted(owner, t, season, ids);
      if key.season == season && key.entry in ids then key in after && after[key] == t
      else (key in after <==> key in owner) && (key in owner ==> after[key] == owner[key])
  {
    if ids != [] {
      var last := |ids| - 1;
      GrantedOwner(owner, t, season, ids[..last], key);
      assert ids == ids[..last] + [ids[last]];
    }
  }

  /** The advisory locks as the server keeps them: key to holding transaction. */
  class LockTable {
    var owner: map<Key, Tx>

    constructor ()
      ensures owner == map[]
    {
      owner := map[];
    }

    /** Take the fence's locks in order, stopping in front of the first one another transaction holds. */
    method AcquireEntrySeasonWriteFence(t: Tx, season: int, entryIds: seq<int>) returns (held: nat)
      modifies this
      ensures held <= |SortedUnique(entryIds)|
      ensures held < |SortedUnique(entryIds)| ==> !OpenTo(old(owner), t, Key(season, SortedUnique(entryIds)[held]))
      ensures forall i | 0 <= i < held :: OpenTo(old(owner), t, Key(season, SortedUnique(entryIds)[i]))
      ensures owner == Granted(old(owner), t, season, SortedUnique(entryIds)[..held])
    {
      held := TakeInOrder(t, season, SortedUnique(entryIds));
    }

    method TakeInOrder(t: Tx, season: int, ids: seq<int>) returns (held: nat)
      modifies this
      ensures held <= |ids|
      ensures held < |ids| ==> !OpenTo(old(owner), t, Key(season, ids[held]))
      ensures forall i | 0 <= i < held :: OpenTo(old(owner), t, Key(season, ids[i]))
      ensures owner == Granted(old(owner), t, season, ids[..held])
    {
      held := 0;
      while held < |ids|
        invariant held <= |ids|
        invariant forall i | 0 <= i < held :: OpenTo(old(owner), t, Key(season, ids[i]))
        invariant owner == Granted(old(owner), t, season, ids[..held])
      {
        var key := Key(season, ids[held]);
        GrantedOwner(old(owner), t, season, ids[..held], key);
        if key in owner && owner[key] != t {
          return;
        }
        assert ids[..held + 1][..held] == ids[..held];
        owner := owner[key := t];
        held := held + 1;
      }
    }
  }
}
