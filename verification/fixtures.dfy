/**
 Fixture validation of src/domain/core-snapshot.ts. The season's 20 teams, 38
 gameweeks and 380 fixtures are parameters; the checks are the source's own.
 */
module FixtureCoverage {
  import opened Wrappers

  datatype Fixture = Fixture(id: int, teamH: int, teamA: int, event: Option<int>)

  datatype Rejection =
    | FixtureCount
    | IdsNotUnique
    | UnknownTeam
    | SameTeams
    | EventOutOfRange
    | TeamCoverage
    | PairCoverage
    | HomeAndAwayPairing

  /** How often the lower and the upper team of a pair played at home. */
  datatype Pairing = Pairing(lowerHome: nat, upperHome: nat)

  // ------------------------------------------------------- counting fixtures

  /** The games of a list as (home, away) pairs, with repetitions. */
  function Games(fixtures: seq<Fixture>): (games: multiset<(int, int)>)
    ensures |games| == |fixtures|
  {
    if fixtures == [] then multiset{}
    else
      var last := fixtures[|fixtures| - 1];
      Games(fixtures[..|fixtures| - 1]) + multiset{(last.teamH, last.teamA)}
  }

  /** Each appearance as home and each as away counts. */
  function Appearances(fixtures: seq<Fixture>, team: int): nat {
    if fixtures == [] then 0
    else
      var last := fixtures[|fixtures| - 1];
      Appearances(fixtures[..|fixtures| - 1], team)
      + (if last.teamH == team then 1 else 0) + (if last.teamA == team then 1 else 0)
  }

  function Key(a: int, b: int): (int, int) { if a < b then (a, b) else (b, a) }

  function PairKeys(fixtures: seq<Fixture>): set<(int, int)> {
    set i | 0 <= i < |fixtures| :: Key(fixtures[i].teamH, fixtures[i].teamA)
  }

  predicate UniqueIds(fixtures: seq<Fixture>) {
    forall i, j | 0 <= i < j < |fixtures| :: fixtures[i].id != fixtures[j].id
  }

  predicate EventsInRange(fixtures: seq<Fixture>, events: int) {
    forall i | 0 <= i < |fixtures| :: fixtures[i].event.Some? ==> 1 <= fixtures[i].event.value <= events
  }

  /** What the loop over fixtures finds wrong with one of them. */
  function Fault(f: Fixture, teams: set<int>, events: int): Option<Rejection> {
    if f.teamH !in teams || f.teamA !in teams then Some(UnknownTeam)
    else if f.teamH == f.teamA then Some(SameTeams)
    else if f.event.Some? && (f.event.value < 1 || f.event.value > events) then Some(EventOutOfRange)
    else None
  }

  function FirstFault(fixtures: seq<Fixture>, teams: set<int>, events: int): Option<Rejection> {
    if fixtures == [] then None
    else if Fault(fixtures[0], teams, events).Some? then Fault(fixtures[0], teams, events)
    else FirstFault(fixtures[1..], teams, events)
  }

  predicate TeamsCovered(fixtures: seq<Fixture>, teams: set<int>, events: int) {
    forall t | t in teams :: Appearances(fixtures, t) == events
  }

  function PairingOf(fixtures: seq<Fixture>, key: (int, int)): Pairing {
    Pairing(Games(fixtures)[key], Games(fixtures)[(key.1, key.0)])
  }

  predicate PairingsBalanced(fixtures: seq<Fixture>) {
    forall key | key in PairKeys(fixtures) :: PairingOf(fixtures, key) == Pairing(1, 1)
  }

  function Verdict(fixtures: seq<Fixture>, teams: set<int>, expected: int, events: int): Option<Rejection> {
    if |fixtures| != expected then Some(FixtureCount)
    else if !UniqueIds(fixtures) then Some(IdsNotUnique)
    else if FirstFault(fixtures, teams, events).Some? then FirstFault(fixtures, teams, events)
    else if !TeamsCovered(fixtures, teams, events) then Some(TeamCoverage)
    else if |PairKeys(fixtures)| != |teams| * (|teams| - 1) / 2 then Some(PairCoverage)
    else if !PairingsBalanced(fixtures) then Some(HomeAndAwayPairing)
    else None
  }

  // ------------------------------------------------------------- the checks

  method RequireUniqueIds(fixtures: seq<Fixture>) returns (unique: bool)
    ensures unique <==> UniqueIds(fixtures)
  {
    var ids: set<int> := {};
    for i := 0 to |fixtures|
      invariant forall id :: id in ids <==> exists k | 0 <= k < i :: fixtures[k].id == id
      invariant |ids| <= i
      invariant |ids| == i <==> UniqueIds(fixtures[..i])
    {
      ids := ids + {fixtures[i].id};
    }
    assert fixtures[..|fixtures|] == fixtures;
    unique := |ids| == |fixtures|;
  }

  method TallyFixtures(fixtures: seq<Fixture>, teams: set<int>, events: int)
    returns (fault: Option<Rejection>, appearances: map<int, nat>, pairings: map<(int, int), Pairing>)
    ensures fault == FirstFault(fixtures, teams, events)
    ensures fault.None? ==> appearances.Keys == teams
    ensures fault.None? ==> forall t | t in teams :: appearances[t] == Appearances(fixtures, t)
    ensures fault.None? ==> pairings.Keys == PairKeys(fixtures)
    ensures fault.None? ==> forall key | key in pairings :: pairings[key] == PairingOf(fixtures, key)
  {
    fault := None;
    appearances := map t | t in teams :: 0;
    pairings := map[];
    for i := 0 to |fixtures|
      invariant fault.None?
      invariant FirstFault(fixtures, teams, events) == FirstFault(fixtures[i..], teams, events)
      invariant appearances.Keys == teams
      invariant forall t | t in teams :: appearances[t] == Appearances(fixtures[..i], t)
      invariant pairings.Keys == PairKeys(fixtures[..i])
      invariant forall key | key in pairings :: key.0 < key.1 && pairings[key] == PairingOf(fixtures[..i], key)
    {
      var fixture := fixtures[i];
      assert fixtures[i..][1..] == fixtures[i + 1..];
      fault := Fault(fixture, teams, events);
      if fault.Some? {
        return;
      }
      appearances := Appear(fixtures, i, appearances, teams, fixture);
      pairings := Pair(fixtures, i, pairings, fixture);
    }
    assert fixtures[..|fixtures|] == fixtures;
  }

  method Appear(ghost fixtures: seq<Fixture>, ghost i: nat, appearances: map<int, nat>, ghost teams: set<int>,
    fixture: Fixture)
    returns (counted: map<int, nat>)
    requires i < |fixtures| && fixture == fixtures[i]
    requires appearances.Keys == teams && fixture.teamH in teams && fixture.teamA in teams
    requires forall t | t in teams :: appearances[t] == Appearances(fixtures[..i], t)
    ensures counted.Keys == teams
    ensures forall t | t in teams :: counted[t] == Appearances(fixtures[..i + 1], t)
  {
    counted := appearances[fixture.teamH := appearances[fixture.teamH] + 1];
    counted := counted[fixture.teamA := counted[fixture.teamA] + 1];
    assert fixtures[..i + 1][..i] == fixtures[..i];
  }

  method Pair(ghost fixtures: seq<Fixture>, ghost i: nat, pairings: map<(int, int), Pairing>, fixture: Fixture)
    returns (counted: map<(int, int), Pairing>)
    requires i < |fixtures| && fixture == fixtures[i] && fixture.teamH != fixture.teamA
    requires pairings.Keys == PairKeys(fixtures[..i])
    requires forall key | key in pairings :: key.0 < key.1 && pairings[key] == PairingOf(fixtures[..i], key)
    ensures counted.Keys == PairKeys(fixtures[..i + 1])
    ensures forall key | key in counted :: key.0 < key.1 && counted[key] == PairingOf(fixtures[..i + 1], key)
  {
    var lower := if fixture.teamH < fixture.teamA then fixture.teamH else fixture.teamA;
    var upper := if fixture.teamH < fixture.teamA then fixture.teamA else fixture.teamH;
    var key := (lower, upper);
    UnseenPair(fixtures[..i], key);
    PairingGrows(fixtures, i, key);
    var pairing := if key in pairings then pairings[key] else Pairing(0, 0);
    if fixture.teamH == lower {
      pairing := pairing.(lowerHome := pairing.lowerHome + 1);
    } else {
      pairing := pairing.(upperHome := pairing.upperHome + 1);
    }
    counted := pairings[key := pairing];
  }

  lemma OneMoreGame(fixtures: seq<Fixture>, i: nat)
    requires i < |fixtures|
    ensures Games(fixtures[..i + 1]) == Games(fixtures[..i]) + multiset{(fixtures[i].teamH, fixtures[i].teamA)}
    ensures PairKeys(fixtures[..i + 1]) == PairKeys(fixtures[..i]) + {Key(fixtures[i].teamH, fixtures[i].teamA)}
  {
    assert fixtures[..i + 1][..i] == fixtures[..i];
    var before, after := fixtures[..i], fixtures[..i + 1];
    forall key | key in PairKeys(after)
      ensures key in PairKeys(before) + {Key(fixtures[i].teamH, fixtures[i].teamA)}
    {
      var k :| 0 <= k < |after| && key == Key(after[k].teamH, after[k].teamA);
      if k < i { assert before[k] == after[k]; }
    }
    forall key | key in PairKeys(before) ensures key in PairKeys(after) {
      var k :| 0 <= k < |before| && key == Key(before[k].teamH, before[k].teamA);
      assert after[k] == before[k];
    }
    assert after[i] == fixtures[i];
  }

  /** One more fixture raises one side of its own pairing and leaves every other pairing alone. */
  lemma PairingGrows(fixtures: seq<Fixture>, i: nat, key: (int, int))
    requires i < |fixtures| && fixtures[i].teamH != fixtures[i].teamA
      && key == Key(fixtures[i].teamH, fixtures[i].teamA)
    ensures PairKeys(fixtures[..i + 1]) == PairKeys(fixtures[..i]) + {key}
    ensures
      var p := PairingOf(fixtures[..i], key);
      PairingOf(fixtures[..i + 1], key) ==
        if fixtures[i].teamH == key.0 then p.(lowerHome := p.lowerHome + 1) else p.(upperHome := p.upperHome + 1)
    ensures forall other: (int, int) | other.0 < other.1 && other != key ::
      PairingOf(fixtures[..i + 1], other) == PairingOf(fixtures[..i], other)
  {
    OneMoreGame(fixtures, i);
  }

  /** A game occurs exactly when some fixture of the list plays it. */
  lemma {:induction false} GameOccurs(fixtures: seq<Fixture>, game: (int, int))
    ensures Games(fixtures)[game] > 0
      <==> exists i | 0 <= i < |fixtures| :: (fixtures[i].teamH, fixtures[i].teamA) == game
  {
    if fixtures != [] {
      var init := fixtures[..|fixtures| - 1];
      GameOccurs(init, game);
      if i :| 0 <= i < |fixtures| && (fixtures[i].teamH, fixtures[i].teamA) == game {
        if i < |init| { assert init[i] == fixtures[i]; }
      }
      if i :| 0 <= i < |init| && (init[i].teamH, init[i].teamA) == game {
        assert fixtures[i] == init[i];
      }
    }
  }

  lemma UnseenPair(fixtures: seq<Fixture>, key: (int, int))
    requires key.0 < key.1
    ensures key in PairKeys(fixtures) <==> PairingOf(fixtures, key) != Pairing(0, 0)
  {
    GameOccurs(fixtures, key);
    GameOccurs(fixtures, (key.1, key.0));
    if key in PairKeys(fixtures) {
      var i :| 0 <= i < |fixtures| && key == Key(fixtures[i].teamH, fixtures[i].teamA);
    }
  }

  method AllAppear(appearances: map<int, nat>, events: int) returns (covered: bool)
    ensures covered <==> forall t | t in appearances :: appearances[t] == events
  {
    var rest := appearances.Keys;
    while rest != {}
      invariant rest <= appearances.Keys
      invariant forall t | t in appearances && t !in rest :: appearances[t] == events
      decreases |rest|
    {
      ghost var some := Member(rest);
      var team :| team in rest;
      if appearances[team] != events {
        return false;
      }
      rest := rest - {team};
    }
    covered := true;
  }

  method AllBalanced(pairings: map<(int, int), Pairing>) returns (balanced: bool)
    ensures balanced <==> forall key | key in pairings :: pairings[key] == Pairing(1, 1)
  {
    var rest := pairings.Keys;
    while rest != {}
      invariant rest <= pairings.Keys
      invariant forall key | key in pairings && key !in rest :: pairings[key] == Pairing(1, 1)
      decreases |rest|
    {
      var key :| key in rest;
      if pairings[key].lowerHome != 1 || pairings[key].upperHome != 1 {
        return false;
      }
      rest := rest - {key};
    }
    balanced := true;
  }

  method RequireFixtureCoverage(fixtures: seq<Fixture>, teams: set<int>, expectedFixtures: int, expectedEvents: int)
    returns (rejection: Option<Rejection>)
    ensures rejection == Verdict(fixtures, teams, expectedFixtures, expectedEvents)
  {
    if |fixtures| != expectedFixtures {
      return Some(FixtureCount);
    }
    var unique := RequireUniqueIds(fixtures);
    if !unique {
      return Some(IdsNotUnique);
    }
    var fault, appearances, pairings := TallyFixtures(fixtures, teams, expectedEvents);
    if fault.Some? {
      return fault;
    }
    var covered := AllAppear(appearances, expectedEvents);
    if !covered {
      return Some(TeamCoverage);
    }
    var expectedPairings := |teams| * (|teams| - 1) / 2;
    if |pairings| != expectedPairings {
      return Some(PairCoverage);
    }
    var balanced := AllBalanced(pairings);
    if !balanced {
      return Some(HomeAndAwayPairing);
    }
    rejection := None;
  }

  // --------------------------------------------------------- counting pairs

  ghost function OrderedPairs(teams: set<int>): set<(int, int)> {
    set a, b | a in teams && b in teams && a != b :: (a, b)
  }

  ghost function UnorderedPairs(teams: set<int>): set<(int, int)> {
    set a, b | a in teams && b in teams && a < b :: (a, b)
  }

  /** The games of one team against each team of a set. */
  ghost function HomeGames(team: int, others: set<int>): set<(int, int)> { set b | b in others :: (team, b) }

  ghost function AwayGames(team: int, others: set<int>): set<(int, int)> { set b | b in others :: (b, team) }

  ghost function KeysOf(team: int, others: set<int>): set<(int, int)> { set b | b in others :: Key(team, b) }

  lemma {:induction false} OneGamePerOpponent(team: int, others: set<int>)
    requires team !in others
    ensures |HomeGames(team, others)| == |AwayGames(team, others)| == |KeysOf(team, others)| == |others|
  {
    if others == {} {
      assert HomeGames(team, others) == {} && AwayGames(team, others) == {} && KeysOf(team, others) == {};
    } else {
      var b := Member(others);
      var fewer := others - {b};
      OneGamePerOpponent(team, fewer);
      assert others == fewer + {b};
      OneMoreOpponent(team, fewer, b);
    }
  }

  lemma OneMoreOpponent(team: int, others: set<int>, b: int)
    requires team != b && team !in others && b !in others
    ensures |HomeGames(team, others + {b})| == |HomeGames(team, others)| + 1
    ensures |AwayGames(team, others + {b})| == |AwayGames(team, others)| + 1
    ensures |KeysOf(team, others + {b})| == |KeysOf(team, others)| + 1
  {
    assert HomeGames(team, others + {b}) == HomeGames(team, others) + {(team, b)};
    assert AwayGames(team, others + {b}) == AwayGames(team, others) + {(b, team)};
    assert KeysOf(team, others + {b}) == KeysOf(team, others) + {Key(team, b)};
  }

  lemma {:induction false} PairCounts(teams: set<int>)
    ensures |OrderedPairs(teams)| == |teams| * (|teams| - 1)
    ensures 2 * |UnorderedPairs(teams)| == |teams| * (|teams| - 1)
  {
    if teams == {} {
      assert OrderedPairs(teams) == {} && UnorderedPairs(teams) == {};
    } else {
      var team := Member(teams);
      var others := teams - {team};
      PairCounts(others);
      OneGamePerOpponent(team, others);
      AddTeam(team, others);
      assert teams == others + {team};
      var n := |others|;
      assert (n + 1) * n == n * (n - 1) + 2 * n;
    }
  }

  lemma AddTeam(team: int, others: set<int>)
    requires team !in others
    ensures |OrderedPairs(others + {team})| == |OrderedPairs(others)| + |HomeGames(team, others)|
      + |AwayGames(team, others)|
    ensures |UnorderedPairs(others + {team})| == |UnorderedPairs(others)| + |KeysOf(team, others)|
  {
    NewOrderedPairs(team, others);
    NewUnorderedPairs(team, others);
    var home, away := HomeGames(team, others), AwayGames(team, others);
    assert OrderedPairs(others) !! home && (OrderedPairs(others) + home) !! away;
    assert UnorderedPairs(others) !! KeysOf(team, others);
  }

  lemma NewOrderedPairs(team: int, others: set<int>)
    requires team !in others
    ensures OrderedPairs(others + {team}) == OrderedPairs(others) + HomeGames(team, others) + AwayGames(team, others)
  {
  }

  lemma NewUnorderedPairs(team: int, others: set<int>)
    requires team !in others
    ensures UnorderedPairs(others + {team}) == UnorderedPairs(others) + KeysOf(team, others)
  {
    forall pair | pair in UnorderedPairs(others + {team})
      ensures pair in UnorderedPairs(others) + KeysOf(team, others)
    {
      if pair.0 == team { assert pair == Key(team, pair.1); }
      if pair.1 == team { assert pair == Key(team, pair.0); }
    }
  }

  lemma {:induction false} SameSizeSubset<T>(a: set<T>, b: set<T>)
    requires a <= b && |a| == |b|
    ensures a == b
  {
    if x :| x in b && x !in a {
      SubsetSize(a, b - {x});
    }
  }

  lemma {:induction false} SubsetSize<T>(a: set<T>, b: set<T>)
    requires a <= b
    ensures |a| <= |b|
  {
    if a != {} {
      var x :| x in a;
      SubsetSize(a - {x}, b - {x});
    }
  }

  // ------------------------------------------------------------- the theorem

  /** Every ordered pair of distinct known teams is played exactly once, and nothing else is. */
  ghost predicate DoubleRoundRobin(fixtures: seq<Fixture>, teams: set<int>) {
    Games(fixtures) == multiset(OrderedPairs(teams))
  }

  lemma {:induction false} NoFaultIff(fixtures: seq<Fixture>, teams: set<int>, events: int)
    ensures FirstFault(fixtures, teams, events).None? <==>
      forall i | 0 <= i < |fixtures| :: Fault(fixtures[i], teams, events).None?
  {
    if fixtures != [] {
      NoFaultIff(fixtures[1..], teams, events);
      forall i | 1 <= i < |fixtures| ensures fixtures[i] == fixtures[1..][i - 1] {}
    }
  }

  lemma AcceptedIsRoundRobin(fixtures: seq<Fixture>, teams: set<int>, expected: int, events: int)
    requires Verdict(fixtures, teams, expected, events).None?
    ensures DoubleRoundRobin(fixtures, teams)
  {
    NoFaultIff(fixtures, teams, events);
    PairCounts(teams);
    KeysAreKnown(fixtures, teams, events);
    SameSizeSubset(PairKeys(fixtures), UnorderedPairs(teams));
    forall game: (int, int) ensures Games(fixtures)[game] == multiset(OrderedPairs(teams))[game] {
      GameOccurs(fixtures, game);
      if game in OrderedPairs(teams) {
        var key := Key(game.0, game.1);
        assert key in PairKeys(fixtures);
        assert PairingOf(fixtures, key) == Pairing(1, 1);
      }
    }
  }

  lemma KeysAreKnown(fixtures: seq<Fixture>, teams: set<int>, events: int)
    requires forall i | 0 <= i < |fixtures| :: Fault(fixtures[i], teams, events).None?
    ensures PairKeys(fixtures) <= UnorderedPairs(teams)
  {
  }

  /** The games one team takes part in. */
  function GamesOf(fixtures: seq<Fixture>, team: int): multiset<(int, int)> {
    if fixtures == [] then multiset{}
    else
      var last := fixtures[|fixtures| - 1];
      GamesOf(fixtures[..|fixtures| - 1], team)
      + (if last.teamH == team || last.teamA == team then multiset{(last.teamH, last.teamA)} else multiset{})
  }

  lemma {:induction false} GamesOfOne(fixtures: seq<Fixture>, team: int)
    requires forall i | 0 <= i < |fixtures| :: fixtures[i].teamH != fixtures[i].teamA
    ensures |GamesOf(fixtures, team)| == Appearances(fixtures, team)
    ensures forall game ::
      GamesOf(fixtures, team)[game] == (if game.0 == team || game.1 == team then Games(fixtures)[game] else 0)
  {
    if fixtures != [] {
      GamesOfOne(fixtures[..|fixtures| - 1], team);
    }
  }

  /** In a double round-robin each team appears twice per opponent. */
  lemma AppearancesInRoundRobin(fixtures: seq<Fixture>, teams: set<int>, team: int)
    requires DoubleRoundRobin(fixtures, teams) && team in teams
    requires forall i | 0 <= i < |fixtures| :: fixtures[i].teamH != fixtures[i].teamA
    ensures Appearances(fixtures, team) == 2 * (|teams| - 1)
  {
    var others := teams - {team};
    GamesOfOne(fixtures, team);
    OneGamePerOpponent(team, others);
    var games := HomeGames(team, others) + AwayGames(team, others);
    assert HomeGames(team, others) !! AwayGames(team, others);
    forall game: (int, int) ensures GamesOf(fixtures, team)[game] == multiset(games)[game] {
      assert game in OrderedPairs(teams) && (game.0 == team || game.1 == team) <==> game in games;
    }
    assert GamesOf(fixtures, team) == multiset(games);
  }

  lemma RoundRobinIsClean(fixtures: seq<Fixture>, teams: set<int>, events: int)
    requires DoubleRoundRobin(fixtures, teams) && EventsInRange(fixtures, events)
    ensures forall i | 0 <= i < |fixtures| :: fixtures[i].teamH != fixtures[i].teamA
    ensures FirstFault(fixtures, teams, events).None?
  {
    NoFaultIff(fixtures, teams, events);
    forall i | 0 <= i < |fixtures|
      ensures (fixtures[i].teamH, fixtures[i].teamA) in OrderedPairs(teams)
    {
      GameOccurs(fixtures, (fixtures[i].teamH, fixtures[i].teamA));
    }
  }

  lemma RoundRobinHasAllPairs(fixtures: seq<Fixture>, teams: set<int>, events: int)
    requires DoubleRoundRobin(fixtures, teams) && FirstFault(fixtures, teams, events).None?
    ensures PairKeys(fixtures) == UnorderedPairs(teams) && PairingsBalanced(fixtures)
  {
    NoFaultIff(fixtures, teams, events);
    KeysAreKnown(fixtures, teams, events);
    forall key | key in UnorderedPairs(teams)
      ensures key in PairKeys(fixtures) && PairingOf(fixtures, key) == Pairing(1, 1)
    {
      assert key in OrderedPairs(teams) && (key.1, key.0) in OrderedPairs(teams);
      UnseenPair(fixtures, key);
    }
  }

  /** A list is accepted exactly when its ids are unique, its events in range and it is a double round-robin. */
  lemma AcceptedIffDoubleRoundRobin(fixtures: seq<Fixture>, teams: set<int>)
    ensures Verdict(fixtures, teams, |teams| * (|teams| - 1), 2 * (|teams| - 1)).None? <==>
      UniqueIds(fixtures) && EventsInRange(fixtures, 2 * (|teams| - 1)) && DoubleRoundRobin(fixtures, teams)
  {
    var expected, events := |teams| * (|teams| - 1), 2 * (|teams| - 1);
    NoFaultIff(fixtures, teams, events);
    if Verdict(fixtures, teams, expected, events).None? {
      AcceptedIsRoundRobin(fixtures, teams, expected, events);
    } else if UniqueIds(fixtures) && EventsInRange(fixtures, events) && DoubleRoundRobin(fixtures, teams) {
      RoundRobinIsAccepted(fixtures, teams);
    }
  }

  lemma RoundRobinIsAccepted(fixtures: seq<Fixture>, teams: set<int>)
    requires UniqueIds(fixtures) && EventsInRange(fixtures, 2 * (|teams| - 1)) && DoubleRoundRobin(fixtures, teams)
    ensures Verdict(fixtures, teams, |teams| * (|teams| - 1), 2 * (|teams| - 1)).None?
  {
    var events := 2 * (|teams| - 1);
    PairCounts(teams);
    RoundRobinIsClean(fixtures, teams, events);
    RoundRobinHasAllPairs(fixtures, teams, events);
    forall t | t in teams ensures Appearances(fixtures, t) == events {
      AppearancesInRoundRobin(fixtures, teams, t);
    }
  }

  // ---------------------------------------------------- why a list is rejected

  /** A fixture between two known teams, in an event of the season if it has one. */
  predicate Sound(f: Fixture, teams: set<int>, events: int) {
    && f.teamH in teams && f.teamA in teams && f.teamH != f.teamA
    && (f.event.Some? ==> 1 <= f.event.value <= events)
  }

  predicate FirstUnsound(fixtures: seq<Fixture>, i: nat, teams: set<int>, events: int) {
    i < |fixtures| && !Sound(fixtures[i], teams, events) && forall j | 0 <= j < i :: Sound(fixtures[j], teams, events)
  }

  ghost predicate AllSound(fixtures: seq<Fixture>, teams: set<int>, events: int) {
    forall i | 0 <= i < |fixtures| :: Sound(fixtures[i], teams, events)
  }

  lemma {:induction false} FirstUnsoundIsReported(fixtures: seq<Fixture>, i: nat, teams: set<int>, events: int)
    requires FirstUnsound(fixtures, i, teams, events)
    ensures
      var f := fixtures[i];
      FirstFault(fixtures, teams, events) ==
        Some(if f.teamH !in teams || f.teamA !in teams then UnknownTeam
             else if f.teamH == f.teamA then SameTeams
             else EventOutOfRange)
  {
    if i > 0 {
      assert Sound(fixtures[0], teams, events);
      forall j | 0 <= j < i ensures fixtures[1..][j] == fixtures[j + 1] {}
      FirstUnsoundIsReported(fixtures[1..], i - 1, teams, events);
    }
  }

  lemma SoundIsFaultless(fixtures: seq<Fixture>, teams: set<int>, events: int)
    ensures AllSound(fixtures, teams, events) <==> FirstFault(fixtures, teams, events).None?
  {
    NoFaultIff(fixtures, teams, events);
    if AllSound(fixtures, teams, events) {
      forall i | 0 <= i < |fixtures| ensures Fault(fixtures[i], teams, events).None? {
        assert Sound(fixtures[i], teams, events);
      }
    }
  }

  /** The two teams play each other at least once. */
  ghost predicate Meet(fixtures: seq<Fixture>, a: int, b: int) {
    Games(fixtures)[(a, b)] + Games(fixtures)[(b, a)] > 0
  }

  lemma MeetIffPaired(fixtures: seq<Fixture>, a: int, b: int)
    requires a < b
    ensures Meet(fixtures, a, b) <==> (a, b) in PairKeys(fixtures)
  {
    GameOccurs(fixtures, (a, b));
    GameOccurs(fixtures, (b, a));
  }

  /** Every two teams of the season meet. */
  ghost predicate AllMeet(fixtures: seq<Fixture>, teams: set<int>) {
    forall a, b | a in teams && b in teams && a < b :: Meet(fixtures, a, b)
  }

  /** Counting the pairs that meet finds out whether all do. */
  lemma PairCountTellsWhetherAllMeet(fixtures: seq<Fixture>, teams: set<int>, events: int)
    requires AllSound(fixtures, teams, events)
    ensures |PairKeys(fixtures)| == |teams| * (|teams| - 1) / 2 <==> AllMeet(fixtures, teams)
  {
    PairCounts(teams);
    assert PairKeys(fixtures) <= UnorderedPairs(teams) by {
      forall i | 0 <= i < |fixtures| ensures Sound(fixtures[i], teams, events) {}
    }
    forall a, b | a < b ensures Meet(fixtures, a, b) <==> (a, b) in PairKeys(fixtures) {
      MeetIffPaired(fixtures, a, b);
    }
    if |PairKeys(fixtures)| == |UnorderedPairs(teams)| {
      SameSizeSubset(PairKeys(fixtures), UnorderedPairs(teams));
      forall a, b | a in teams && b in teams && a < b ensures Meet(fixtures, a, b) {
        assert (a, b) in UnorderedPairs(teams);
      }
    }
    if AllMeet(fixtures, teams) { assert PairKeys(fixtures) == UnorderedPairs(teams); }
  }

  /** When all teams meet, the pairings are balanced exactly when each hosts each once. */
  lemma BalancedIffEachHostsOnce(fixtures: seq<Fixture>, teams: set<int>, events: int)
    requires AllSound(fixtures, teams, events) && AllMeet(fixtures, teams)
    ensures PairingsBalanced(fixtures) <==>
      forall a, b | a in teams && b in teams && a != b :: Games(fixtures)[(a, b)] == 1
  {
    forall key | key in PairKeys(fixtures) ensures key.0 in teams && key.1 in teams && key.0 < key.1 {
      var i :| 0 <= i < |fixtures| && Key(fixtures[i].teamH, fixtures[i].teamA) == key;
      assert Sound(fixtures[i], teams, events);
    }
    if PairingsBalanced(fixtures) {
      forall a, b | a in teams && b in teams && a != b ensures Games(fixtures)[(a, b)] == 1 {
        var key := Key(a, b);
        MeetIffPaired(fixtures, key.0, key.1);
        assert Meet(fixtures, key.0, key.1);
        assert PairingOf(fixtures, key) == Pairing(1, 1);
      }
    }
  }

  /** Each rejection names the first thing that is wrong with the list. */
  lemma RejectionNamesTheFirstFault(fixtures: seq<Fixture>, teams: set<int>, expected: int, events: int)
    ensures
      var verdict := Verdict(fixtures, teams, expected, events);
      var sound := |fixtures| == expected && UniqueIds(fixtures) && AllSound(fixtures, teams, events);
      var covered := sound && forall t | t in teams :: Appearances(fixtures, t) == events;
      && (verdict == Some(FixtureCount) <==> |fixtures| != expected)
      && (verdict == Some(IdsNotUnique) <==>
            |fixtures| == expected && exists i, j | 0 <= i < j < |fixtures| :: fixtures[i].id == fixtures[j].id)
      && (forall i: nat | |fixtures| == expected && UniqueIds(fixtures) && FirstUnsound(fixtures, i, teams, events) ::
            verdict == Some(if fixtures[i].teamH !in teams || fixtures[i].teamA !in teams then UnknownTeam
                            else if fixtures[i].teamH == fixtures[i].teamA then SameTeams
                            else EventOutOfRange))
      && (verdict == Some(TeamCoverage) <==> sound && !covered)
      && (verdict == Some(PairCoverage) <==> covered && !AllMeet(fixtures, teams))
      && (verdict == Some(HomeAndAwayPairing) <==>
            && covered && AllMeet(fixtures, teams)
            && exists a, b | a in teams && b in teams && a != b :: Games(fixtures)[(a, b)] != 1)
  {
    SoundIsFaultless(fixtures, teams, events);
    FaultIsAboutOneFixture(fixtures, teams, events);
    forall i: nat | FirstUnsound(fixtures, i, teams, events)
      ensures FirstFault(fixtures, teams, events) ==
        Some(if fixtures[i].teamH !in teams || fixtures[i].teamA !in teams then UnknownTeam
             else if fixtures[i].teamH == fixtures[i].teamA then SameTeams
             else EventOutOfRange)
    {
      FirstUnsoundIsReported(fixtures, i, teams, events);
    }
    if AllSound(fixtures, teams, events) {
      PairCountTellsWhetherAllMeet(fixtures, teams, events);
      if AllMeet(fixtures, teams) { BalancedIffEachHostsOnce(fixtures, teams, events); }
    }
  }

  lemma {:induction false} FaultIsAboutOneFixture(fixtures: seq<Fixture>, teams: set<int>, events: int)
    ensures FirstFault(fixtures, teams, events) in {None, Some(UnknownTeam), Some(SameTeams), Some(EventOutOfRange)}
  {
    if fixtures != [] { FaultIsAboutOneFixture(fixtures[1..], teams, events); }
  }
}
