/**
 Knockout rows of src/domain/tournament.ts: match numbering, feeders, round
 windows and legs. `planner.dfy` joins them to the structure plan.
 */
module KnockoutTree {
  import opened Wrappers
  import opened Powers
  import opened BracketSeeding

  datatype TournamentConfig = TournamentConfig(
    knockoutTeamNum: Option<int>,
    knockoutEventNum: Option<int>,
    knockoutPlayAgainstNum: Option<int>,
    knockoutStartedEventId: Option<int>)

  datatype MatchRow = MatchRow(
    round: nat,
    startedEventId: int,
    endedEventId: int,
    matchId: int,
    nextMatchId: Option<int>,
    home: Option<int>,
    away: Option<int>)

  datatype ResultRow = ResultRow(eventId: int, matchId: int, playAgainstId: int, home: Option<int>, away: Option<int>)

  /** The bracket being laid out: `size` is the exponent of the bracket, `rounds` the rounds generated. */
  datatype Layout = Layout(size: nat, rounds: nat, legs: int, start: int, seeds: Option<seq<SeedPair>>)

  predicate HasRows(config: TournamentConfig) {
    && config.knockoutTeamNum.GetOr(0) >= 2
    && config.knockoutEventNum.GetOr(0) >= 1
    && config.knockoutStartedEventId.GetOr(0) >= 1
  }

  function LayoutOf(config: TournamentConfig, seeds: Option<seq<SeedPair>>): Layout
    requires HasRows(config)
  {
    Layout(CeilLog2(config.knockoutTeamNum.value), config.knockoutEventNum.value,
           config.knockoutPlayAgainstNum.GetOr(1), config.knockoutStartedEventId.value, seeds)
  }

  // ------------------------------------------------------- what one row holds

  function MatchesIn(l: Layout, round: nat): (n: nat)
    requires 1 <= round <= l.size
    ensures n >= 1
  {
    Pow2(l.size - round)
  }

  /** Matches are numbered round by round from 1. */
  function RoundStart(l: Layout, round: nat): (id: nat)
    requires 1 <= round <= l.size + 1
    ensures id >= 1
    decreases round
  {
    if round == 1 then 1 else RoundStart(l, round - 1) + MatchesIn(l, round - 1)
  }

  function Started(l: Layout, round: nat): int { l.start + (round - 1) * l.legs }

  function Ended(l: Layout, round: nat): int { Started(l, round) + l.legs - 1 }

  function SeedAt(l: Layout, round: nat, i: nat): Option<SeedPair> {
    if round == 1 && l.seeds.Some? && i < |l.seeds.value| then Some(l.seeds.value[i]) else None
  }

  function MatchAt(l: Layout, round: nat, i: nat): MatchRow
    requires 1 <= round <= l.rounds <= l.size
  {
    var seeded := SeedAt(l, round, i);
    MatchRow(round, Started(l, round), Ended(l, round), RoundStart(l, round) + i,
             if round < l.rounds then Some(RoundStart(l, round + 1) + i / 2) else None,
             if seeded.Some? then seeded.value.home else None,
             if seeded.Some? then seeded.value.away else None)
  }

  function LegAt(l: Layout, round: nat, i: nat, leg: nat): ResultRow
    requires 1 <= round <= l.rounds <= l.size
  {
    var m := MatchAt(l, round, i);
    var swap := leg % 2 == 1;
    ResultRow(m.startedEventId + leg, m.matchId, leg + 1,
              if swap then m.away else m.home, if swap then m.home else m.away)
  }

  function LegsUpTo(l: Layout, round: nat, i: nat, legs: nat): (s: seq<ResultRow>)
    requires 1 <= round <= l.rounds <= l.size
    ensures |s| == legs
    ensures forall leg | 0 <= leg < legs :: s[leg] == LegAt(l, round, i, leg)
  {
    if legs == 0 then [] else LegsUpTo(l, round, i, legs - 1) + [LegAt(l, round, i, legs - 1)]
  }

  function LegsOf(l: Layout, round: nat, i: nat): (s: seq<ResultRow>)
    requires 1 <= round <= l.rounds <= l.size
  {
    LegsUpTo(l, round, i, if l.legs > 0 then l.legs else 0)
  }

  // ------------------------------------------------------ the rows, in order

  /** The match rows written before match `i` of `round`. */
  function MatchesTo(l: Layout, round: nat, i: nat): (s: seq<MatchRow>)
    requires 1 <= round <= l.rounds + 1 && l.rounds <= l.size
    requires i > 0 ==> round <= l.rounds
    ensures |s| == RoundStart(l, round) - 1 + i
    decreases round, i
  {
    if i > 0 then MatchesTo(l, round, i - 1) + [MatchAt(l, round, i - 1)]
    else if round > 1 then MatchesTo(l, round - 1, MatchesIn(l, round - 1))
    else []
  }

  /** The result rows written before match `i` of `round`. */
  function ResultsTo(l: Layout, round: nat, i: nat): (s: seq<ResultRow>)
    requires 1 <= round <= l.rounds + 1 && l.rounds <= l.size
    requires i > 0 ==> round <= l.rounds
    decreases round, i
  {
    if i > 0 then ResultsTo(l, round, i - 1) + LegsOf(l, round, i - 1)
    else if round > 1 then ResultsTo(l, round - 1, MatchesIn(l, round - 1))
    else []
  }

  function Matches(l: Layout): seq<MatchRow>
    requires l.rounds <= l.size
  {
    MatchesTo(l, l.rounds + 1, 0)
  }

  function Results(l: Layout): seq<ResultRow>
    requires l.rounds <= l.size
  {
    ResultsTo(l, l.rounds + 1, 0)
  }

  method RoundStartIds(ghost l: Layout, bracketSize: nat, eventNum: nat) returns (ids: seq<int>)
    requires bracketSize == Pow2(l.size) && eventNum <= l.size
    ensures |ids| == eventNum
    ensures forall r | 1 <= r <= eventNum :: ids[r - 1] == RoundStart(l, r)
  {
    ids := [];
    var nextMatchId := 1;
    for round := 1 to eventNum + 1
      invariant |ids| == round - 1 && nextMatchId == RoundStart(l, round)
      invariant forall r | 1 <= r < round :: ids[r - 1] == RoundStart(l, r)
    {
      ids := ids + [nextMatchId];
      Pow2Quotient(l.size, round);
      nextMatchId := nextMatchId + bracketSize / Pow2(round);
    }
  }

  method PushLegs(ghost l: Layout, ghost i: nat, m: MatchRow, seeded: Option<SeedPair>, legs: int,
                  results: seq<ResultRow>)
    returns (extended: seq<ResultRow>)
    requires 1 <= m.round <= l.rounds <= l.size && m == MatchAt(l, m.round, i)
    requires legs == l.legs && seeded == SeedAt(l, m.round, i)
    ensures extended == results + LegsOf(l, m.round, i)
  {
    extended := results;
    var leg := 0;
    while leg < legs
      invariant 0 <= leg && (leg <= legs || leg == 0)
      invariant extended == results + LegsUpTo(l, m.round, i, leg)
    {
      var swap := leg % 2 == 1;
      var home := if seeded.Some? then (if swap then seeded.value.away else seeded.value.home) else None;
      var away := if seeded.Some? then (if swap then seeded.value.home else seeded.value.away) else None;
      extended := extended + [ResultRow(m.startedEventId + leg, m.matchId, leg + 1, home, away)];
      leg := leg + 1;
    }
  }

  method BuildKnockoutRows(config: TournamentConfig, seededRoundOne: Option<seq<SeedPair>>)
    returns (matches: seq<MatchRow>, results: seq<ResultRow>)
    requires HasRows(config) ==> config.knockoutEventNum.value <= CeilLog2(config.knockoutTeamNum.value)
    ensures matches == [] <==>
      config.knockoutTeamNum.GetOr(0) < 2 || config.knockoutEventNum.GetOr(0) < 1
      || config.knockoutStartedEventId.GetOr(0) < 1
    ensures matches == [] ==> results == []
    ensures HasRows(config) ==>
      && matches == Matches(LayoutOf(config, seededRoundOne))
      && results == Results(LayoutOf(config, seededRoundOne))
  {
    var teamCount := config.knockoutTeamNum.GetOr(0);
    var eventNum := config.knockoutEventNum.GetOr(0);
    var playAgainstNum := config.knockoutPlayAgainstNum.GetOr(1);
    var knockoutStart := config.knockoutStartedEventId.GetOr(0);
    if teamCount < 2 || eventNum < 1 || knockoutStart < 1 {
      return [], [];
    }
    ghost var l := LayoutOf(config, seededRoundOne);
    var bracketSize := NextPowerOfTwo(teamCount);
    var roundStartIds := RoundStartIds(l, bracketSize, eventNum);
    matches, results := [], [];
    for round := 1 to eventNum + 1
      invariant matches == MatchesTo(l, round, 0)
      invariant results == ResultsTo(l, round, 0)
    {
      Pow2Quotient(l.size, round);
      var matchesInRound := bracketSize / Pow2(round);
      var nextRoundStart := if round < eventNum then Some(roundStartIds[round]) else None;
      matches, results := PushRound(l, round, matchesInRound, roundStartIds[round - 1], nextRoundStart,
        knockoutStart + (round - 1) * playAgainstNum, playAgainstNum, seededRoundOne, matches, results);
    }
  }

  method PushRound(ghost l: Layout, round: nat, matchesInRound: nat, roundStart: int, nextRoundStart: Option<int>,
                   startedEventId: int, playAgainstNum: int, seededRoundOne: Option<seq<SeedPair>>,
                   matchesSoFar: seq<MatchRow>, resultsSoFar: seq<ResultRow>)
    returns (matches: seq<MatchRow>, results: seq<ResultRow>)
    requires 1 <= round <= l.rounds <= l.size && matchesInRound == MatchesIn(l, round)
    requires roundStart == RoundStart(l, round) && startedEventId == Started(l, round)
    requires nextRoundStart == if round < l.rounds then Some(RoundStart(l, round + 1)) else None
    requires playAgainstNum == l.legs && seededRoundOne == l.seeds
    requires matchesSoFar == MatchesTo(l, round, 0) && resultsSoFar == ResultsTo(l, round, 0)
    ensures matches == MatchesTo(l, round + 1, 0) && results == ResultsTo(l, round + 1, 0)
  {
    var endedEventId := startedEventId + playAgainstNum - 1;
    matches, results := matchesSoFar, resultsSoFar;
    for index := 0 to matchesInRound
      invariant matches == MatchesTo(l, round, index)
      invariant results == ResultsTo(l, round, index)
    {
      var matchId := roundStart + index;
      var seeded :=
        if round == 1 && seededRoundOne.Some? && index < |seededRoundOne.value| then Some(seededRoundOne.value[index])
        else None;
      var next := if nextRoundStart.Some? then Some(nextRoundStart.value + index / 2) else None;
      var row := MatchRow(round, startedEventId, endedEventId, matchId, next,
        if seeded.Some? then seeded.value.home else None, if seeded.Some? then seeded.value.away else None);
      matches := matches + [row];
      results := PushLegs(l, index, row, seeded, playAgainstNum, results);
    }
  }

  // ------------------------------------------------------------- numbering

  lemma {:induction false} RoundStartClosed(l: Layout, round: nat)
    requires 1 <= round <= l.size + 1
    ensures RoundStart(l, round) == 1 + Pow2(l.size) - Pow2(l.size - round + 1)
  {
    if round > 1 { RoundStartClosed(l, round - 1); }
  }

  lemma {:induction false} RoundStartGrows(l: Layout, a: nat, b: nat)
    requires 1 <= a <= b <= l.size + 1
    ensures RoundStart(l, a) + (if a < b then MatchesIn(l, a) else 0) <= RoundStart(l, b)
  {
    if a < b { RoundStartGrows(l, a, b - 1); }
  }

  /** Where a match lands in the list. */
  lemma {:induction false} RowOfMatch(l: Layout, round: nat, i: nat, r: nat, j: nat)
    requires 1 <= r <= l.rounds <= l.size && 1 <= round <= l.rounds + 1
    requires i > 0 ==> round <= l.rounds
    requires r < round || (r == round && j < i)
    requires j < MatchesIn(l, r)
    ensures RoundStart(l, r) - 1 + j < |MatchesTo(l, round, i)|
    ensures MatchesTo(l, round, i)[RoundStart(l, r) - 1 + j] == MatchAt(l, r, j)
    decreases round, i
  {
    RoundStartGrows(l, r, round);
    if i > 0 {
      if !(r == round && j == i - 1) { RowOfMatch(l, round, i - 1, r, j); }
    } else {
      RowOfMatch(l, round - 1, MatchesIn(l, round - 1), r, j);
    }
  }

  /** Which match a row of the list holds. */
  lemma {:induction false} MatchOfRow(l: Layout, round: nat, m: nat) returns (r: nat, j: nat)
    requires l.rounds <= l.size && 1 <= round <= l.rounds + 1 && m < RoundStart(l, round) - 1
    ensures 1 <= r < round && j < MatchesIn(l, r) && m == RoundStart(l, r) - 1 + j
  {
    if m < RoundStart(l, round - 1) - 1 {
      r, j := MatchOfRow(l, round - 1, m);
    } else {
      r, j := round - 1, m - (RoundStart(l, round - 1) - 1);
    }
  }

  lemma RowAt(l: Layout, m: nat) returns (r: nat, j: nat)
    requires l.rounds <= l.size && m < |Matches(l)|
    ensures 1 <= r <= l.rounds && j < MatchesIn(l, r) && m == RoundStart(l, r) - 1 + j
    ensures Matches(l)[m] == MatchAt(l, r, j)
  {
    r, j := MatchOfRow(l, l.rounds + 1, m);
    RowOfMatch(l, l.rounds + 1, 0, r, j);
  }

  /** Match ids are exactly 1..n in order; with every round generated n is the bracket size minus one. */
  lemma MatchIdsAreConsecutive(l: Layout)
    requires 1 <= l.rounds <= l.size
    ensures forall m | 0 <= m < |Matches(l)| :: Matches(l)[m].matchId == m + 1
    ensures |Matches(l)| == Pow2(l.size) - Pow2(l.size - l.rounds)
  {
    forall m | 0 <= m < |Matches(l)| ensures Matches(l)[m].matchId == m + 1 {
      var r, j := RowAt(l, m);
    }
    RoundStartClosed(l, l.rounds + 1);
  }

  // ------------------------------------------------------------- the tree

  /** The two feeders of a match: the rows whose winner plays in it, and no other row. */
  lemma ExactlyTwoFeeders(l: Layout, m: nat) returns (feeder: nat)
    requires 1 <= l.rounds <= l.size && m < |Matches(l)| && Matches(l)[m].round > 1
    ensures feeder + 1 < m
    ensures Matches(l)[feeder].round == Matches(l)[feeder + 1].round == Matches(l)[m].round - 1
    ensures forall f | 0 <= f < |Matches(l)| ::
      Matches(l)[f].nextMatchId == Some(Matches(l)[m].matchId) <==> f == feeder || f == feeder + 1
  {
    var r, j := RowAt(l, m);
    assert MatchesIn(l, r - 1) == 2 * MatchesIn(l, r);
    RowOfMatch(l, l.rounds + 1, 0, r - 1, 2 * j);
    RowOfMatch(l, l.rounds + 1, 0, r - 1, 2 * j + 1);
    feeder := RoundStart(l, r - 1) - 1 + 2 * j;
    forall f | 0 <= f < |Matches(l)|
      ensures Matches(l)[f].nextMatchId == Some(Matches(l)[m].matchId) <==> f == feeder || f == feeder + 1
    {
      var s, k := RowAt(l, f);
      FeederRound(l, s, k, r, j);
    }
  }

  /** A match's successor is the given match exactly when it lies one round earlier in one of the two places. */
  lemma FeederRound(l: Layout, s: nat, k: nat, r: nat, j: nat)
    requires 1 <= s <= l.rounds <= l.size && k < MatchesIn(l, s)
    requires 1 < r <= l.rounds && j < MatchesIn(l, r)
    ensures MatchAt(l, s, k).nextMatchId == Some(RoundStart(l, r) + j) <==> s == r - 1 && k / 2 == j
    ensures s == r - 1 && k / 2 == j <==>
      RoundStart(l, s) - 1 + k == RoundStart(l, r - 1) - 1 + 2 * j
        || RoundStart(l, s) - 1 + k == RoundStart(l, r - 1) + 2 * j
  {
    if s < l.rounds {
      var k' := NextPlace(l, s, k);
      PlacesDiffer(l, s + 1, k', r, j);
    }
    HalvesRound(l, r - 1);
    PlacesDiffer(l, s, k, r - 1, 2 * j);
    PlacesDiffer(l, s, k, r - 1, 2 * j + 1);
  }

  lemma HalvesRound(l: Layout, round: nat)
    requires 1 <= round < l.size
    ensures MatchesIn(l, round) == 2 * MatchesIn(l, round + 1)
  {
  }

  /** Match ids of two places agree only when the places do. */
  lemma PlacesDiffer(l: Layout, s: nat, k: nat, r: nat, j: nat)
    requires 1 <= s <= l.size && k < MatchesIn(l, s) && 1 <= r <= l.size && j < MatchesIn(l, r)
    ensures RoundStart(l, s) + k == RoundStart(l, r) + j <==> s == r && k == j
  {
    if s < r { RoundStartGrows(l, s, r); }
    if r < s { RoundStartGrows(l, r, s); }
  }

  /** First-round matches are fed by nobody. */
  lemma FirstRoundHasNoFeeder(l: Layout, m: nat, f: nat)
    requires 1 <= l.rounds <= l.size && m < |Matches(l)| && f < |Matches(l)| && Matches(l)[m].round == 1
    ensures Matches(l)[f].nextMatchId != Some(Matches(l)[m].matchId)
  {
    var r, j := RowAt(l, m);
    var s, k := RowAt(l, f);
    if s < l.rounds { RoundStartGrows(l, 2, s + 1); }
  }

  /** The row reached from row `m` by following next_match_id `steps` times, if there is one. */
  function Follow(rows: seq<MatchRow>, m: int, steps: nat): Option<int>
    requires 0 <= m < |rows|
    decreases steps
  {
    if steps == 0 then Some(m)
    else match rows[m].nextMatchId
      case None => None
      case Some(id) => if 1 <= id <= |rows| then Follow(rows, id - 1, steps - 1) else None
  }

  lemma NextRow(l: Layout, m: nat) returns (next: nat)
    requires 1 <= l.rounds <= l.size && m < |Matches(l)| && Matches(l)[m].round < l.rounds
    ensures next < |Matches(l)| && Matches(l)[m].nextMatchId == Some(next + 1)
    ensures Matches(l)[next].round == Matches(l)[m].round + 1
  {
    var r, j := RowAt(l, m);
    var k := NextPlace(l, r, j);
    RowOfMatch(l, l.rounds + 1, 0, r + 1, k);
    next := RoundStart(l, r + 1) - 1 + k;
  }

  lemma NextPlace(l: Layout, round: nat, i: nat) returns (k: nat)
    requires 1 <= round < l.rounds <= l.size && i < MatchesIn(l, round)
    ensures k == i / 2 && k < MatchesIn(l, round + 1)
  {
    k := i / 2;
    assert MatchesIn(l, round) == 2 * MatchesIn(l, round + 1);
  }

  /** From any match, as many steps as rounds are left lead to a match without a successor. */
  lemma {:induction false} FollowingReachesTheLastRound(l: Layout, m: nat, steps: nat) returns (last: nat)
    requires 1 <= l.rounds <= l.size && m < |Matches(l)| && steps == l.rounds - Matches(l)[m].round
    ensures last < |Matches(l)| && Matches(l)[last].round == l.rounds && Matches(l)[last].nextMatchId == None
    ensures Follow(Matches(l), m, steps) == Some(last)
    decreases steps
  {
    var r, j := RowAt(l, m);
    if steps == 0 {
      last := m;
    } else {
      var next := NextRow(l, m);
      last := FollowingReachesTheLastRound(l, next, steps - 1);
    }
  }

  lemma MatchIsFinal(l: Layout, m: nat)
    requires 1 <= l.rounds == l.size && m < |Matches(l)|
    ensures Matches(l)[m].nextMatchId == None <==> m == |Matches(l)| - 1
  {
    var r, j := RowAt(l, m);
    MatchIdsAreConsecutive(l);
    RoundStartClosed(l, l.rounds);
    if r < l.rounds { RoundStartGrows(l, r, l.rounds); }
  }

  /** The rows end in one single final exactly when every round of the bracket was generated. */
  lemma SingleFinalIffAllRounds(l: Layout)
    requires 1 <= l.rounds <= l.size
    ensures l.rounds == l.size
      <==> (forall m | 0 <= m < |Matches(l)| :: Matches(l)[m].nextMatchId == None ==> m == |Matches(l)| - 1)
  {
    if l.rounds == l.size {
      forall m | 0 <= m < |Matches(l)| ensures Matches(l)[m].nextMatchId == None ==> m == |Matches(l)| - 1 {
        MatchIsFinal(l, m);
      }
    } else {
      var spare := SpareFinal(l);
    }
  }

  /** With a round missing, the last one generated still holds two matches or more. */
  lemma SpareFinal(l: Layout) returns (m: nat)
    requires 1 <= l.rounds < l.size
    ensures m < |Matches(l)| - 1 && Matches(l)[m].nextMatchId == None
  {
    m := RoundStart(l, l.rounds) - 1;
    assert MatchesIn(l, l.rounds) == 2 * Pow2(l.size - l.rounds - 1);
    RowOfMatch(l, l.rounds + 1, 0, l.rounds, 0);
  }

  /** With every round generated, every match leads to the one final in `size - round` steps. */
  lemma EveryMatchLeadsToTheFinal(l: Layout, m: nat)
    requires 1 <= l.rounds == l.size && m < |Matches(l)|
    ensures Matches(l)[m].round <= l.size
    ensures Follow(Matches(l), m, l.size - Matches(l)[m].round) == Some(|Matches(l)| - 1)
    ensures |Matches(l)| == Pow2(l.size) - 1
  {
    var r, j := RowAt(l, m);
    var last := FollowingReachesTheLastRound(l, m, l.rounds - r);
    MatchIsFinal(l, last);
    MatchIdsAreConsecutive(l);
  }

  ghost predicate DrawnFrom(l: Layout, entries: seq<int>, teamCount: nat) {
    && teamCount >= 2 && l.size == CeilLog2(teamCount) && l.size >= 1 && l.seeds.Some?
    && |l.seeds.value| == Pow2(l.size - 1)
    && forall i | 0 <= i < |l.seeds.value| :: l.seeds.value[i] == PairAt(entries, teamCount, i)
  }

  predicate Plays(row: MatchRow, entry: int) {
    row.home == Some(entry) || row.away == Some(entry)
  }

  /** Fed by the seeded draw, each team of a full field is written into exactly one match, in round one. */
  lemma EveryTeamStartsInOneMatch(l: Layout, entries: seq<int>, teamCount: nat, seed: nat) returns (m: nat)
    requires DrawnFrom(l, entries, teamCount) && 1 <= l.rounds <= l.size
    requires 1 <= seed <= teamCount <= |entries| && Distinct(entries)
    ensures m < |Matches(l)| && Matches(l)[m].round == 1
    ensures forall n | 0 <= n < |Matches(l)| :: Plays(Matches(l)[n], entries[seed - 1]) <==> n == m
  {
    var place := EveryTeamIsPlacedOnce(teamCount, seed);
    m := place / 2;
    RowOfMatch(l, l.rounds + 1, 0, 1, m);
    forall n | 0 <= n < |Matches(l)| ensures Plays(Matches(l)[n], entries[seed - 1]) <==> n == m {
      var r, j := RowAt(l, n);
      if r == 1 {
        MatchHoldsSeed(l, entries, teamCount, seed, j, place);
      } else {
        RoundStartGrows(l, 2, r);
      }
    }
  }

  lemma MatchHoldsSeed(l: Layout, entries: seq<int>, teamCount: nat, seed: nat, j: nat, place: nat)
    requires DrawnFrom(l, entries, teamCount) && 1 <= l.rounds <= l.size && j < MatchesIn(l, 1)
    requires 1 <= seed <= teamCount <= |entries| && Distinct(entries)
    requires forall p | 0 <= p < Pow2(l.size) :: SeedOrder(l.size)[p] == seed <==> p == place
    ensures Plays(MatchAt(l, 1, j), entries[seed - 1]) <==> j == place / 2
  {
    assert Pow2(l.size) == 2 * Pow2(l.size - 1);
    var home, away := SeedOrder(l.size)[2 * j], SeedOrder(l.size)[2 * j + 1];
    assert l.seeds.value[j] == PairAt(entries, teamCount, j);
    SameEntrySameSeed(entries, teamCount, home, seed);
    SameEntrySameSeed(entries, teamCount, away, seed);
  }

  lemma SameEntrySameSeed(entries: seq<int>, teamCount: nat, a: int, seed: nat)
    requires 1 <= seed <= teamCount <= |entries| && Distinct(entries)
    ensures EntryOf(entries, teamCount, a) == Some(entries[seed - 1]) <==> a == seed
  {
  }

  /** A seed of the top half stands first in its pair, before the seed that completes the bracket size plus one. */
  lemma TopSeedStandsFirst(k: nat, seed: nat, place: nat) returns (i: nat)
    requires k >= 1 && 1 <= seed <= Pow2(k - 1) && place < Pow2(k) && SeedOrder(k)[place] == seed
    ensures 2 * i + 1 < Pow2(k) && place == 2 * i
    ensures SeedOrder(k)[2 * i] == seed && SeedOrder(k)[2 * i + 1] == Pow2(k) + 1 - seed
  {
    i := place / 2;
    assert Pow2(k) == 2 * Pow2(k - 1);
    PairsAreBalanced(k, i);
    assert place == 2 * i || place == 2 * i + 1;
  }

  lemma FirstRoundRow(l: Layout, i: nat)
    requires 1 <= l.rounds <= l.size && i < MatchesIn(l, 1)
    ensures i < |Matches(l)| && Matches(l)[i] == MatchAt(l, 1, i) && Matches(l)[i].round == 1
  {
    RowOfMatch(l, l.rounds + 1, 0, 1, i);
  }

  /**
   The first-round match of a seed: it meets the seed that completes the bracket size plus one, the better of the two
   hosts, and a seed beyond the field is a bye.
   */
  lemma BetterSeedHosts(l: Layout, entries: seq<int>, teamCount: nat, seed: nat) returns (m: nat)
    requires DrawnFrom(l, entries, teamCount) && 1 <= l.rounds <= l.size
    requires 1 <= seed <= Pow2(l.size - 1) && teamCount <= |entries|
    ensures m < |Matches(l)| && Matches(l)[m].round == 1
    ensures
      var other := Pow2(l.size) + 1 - seed;
      && Matches(l)[m].home == Some(entries[seed - 1])
      && Matches(l)[m].away == if other <= teamCount then Some(entries[other - 1]) else None
  {
    BracketHasRounds(teamCount);
    var place := EveryTeamIsPlacedOnce(teamCount, seed);
    m := TopSeedStandsFirst(l.size, seed, place);
    FirstRoundRow(l, m);
    assert SeedAt(l, 1, m) == Some(PairAt(entries, teamCount, m));
  }

  /** Later rounds, and first-round matches beyond the draw, are open on both sides. */
  lemma UndrawnMatchesAreOpen(l: Layout, m: nat)
    requires 1 <= l.rounds <= l.size && m < |Matches(l)|
    requires Matches(l)[m].round > 1 || l.seeds.None? || m >= |l.seeds.value|
    ensures Matches(l)[m].home.None? && Matches(l)[m].away.None?
  {
    var r, j := RowAt(l, m);
  }

  // ------------------------------------------------------------ the windows

  lemma {:induction false} LaterRoundsStartLater(l: Layout, a: nat, b: nat)
    requires 1 <= a < b && l.legs >= 1
    ensures Ended(l, a) < Started(l, b)
    ensures b == a + 1 ==> Ended(l, a) + 1 == Started(l, b)
  {
    NextWindow(l, b - 1);
    if a < b - 1 { LaterRoundsStartLater(l, a, b - 1); }
  }

  lemma NextWindow(l: Layout, round: nat)
    requires round >= 1
    ensures Started(l, round + 1) == Started(l, round) + l.legs
  {
    assert (round - 1) * l.legs + l.legs == round * l.legs;
  }

  /** Round windows tile time: each event from the first to the last lies in exactly one of them. */
  lemma {:induction false} WindowOfEvent(l: Layout, rounds: nat, event: int) returns (round: nat)
    requires l.legs >= 1 && rounds >= 1 && Started(l, 1) <= event <= Ended(l, rounds)
    ensures 1 <= round <= rounds && Started(l, round) <= event <= Ended(l, round)
    ensures forall r | 1 <= r <= rounds :: Started(l, r) <= event <= Ended(l, r) ==> r == round
  {
    if rounds == 1 || Started(l, rounds) <= event {
      round := rounds;
    } else {
      LaterRoundsStartLater(l, rounds - 1, rounds);
      round := WindowOfEvent(l, rounds - 1, event);
    }
    forall r | 1 <= r <= rounds ensures Started(l, r) <= event <= Ended(l, r) ==> r == round {
      if r < round { LaterRoundsStartLater(l, r, round); }
      if round < r { LaterRoundsStartLater(l, round, r); }
    }
  }

  /** A match's feeders are over before it starts. */
  lemma FeedersPlayEarlier(l: Layout, m: nat, f: nat)
    requires 1 <= l.rounds <= l.size && l.legs >= 1 && m < |Matches(l)| && f < |Matches(l)|
    requires Matches(l)[f].nextMatchId == Some(Matches(l)[m].matchId)
    ensures Matches(l)[f].endedEventId + 1 == Matches(l)[m].startedEventId
  {
    var r, j := RowAt(l, m);
    var s, k := RowAt(l, f);
    if r == 1 {
      FirstRoundHasNoFeeder(l, m, f);
    } else {
      FeederRound(l, s, k, r, j);
      LaterRoundsStartLater(l, s, r);
    }
  }

  /** The first round opens at the start of the layout, and each match lasts one event per leg. */
  lemma MatchWindow(l: Layout, m: nat)
    requires 1 <= l.rounds <= l.size && m < |Matches(l)|
    ensures
      var row := Matches(l)[m];
      && row.startedEventId == l.start + (row.round - 1) * l.legs
      && row.endedEventId == row.startedEventId + l.legs - 1
  {
    var r, j := RowAt(l, m);
  }

  /** Without a positive number of legs there is no result row. */
  lemma {:induction false} NoLegsNoResults(l: Layout, round: nat, i: nat)
    requires l.legs <= 0 && l.rounds <= l.size && 1 <= round <= l.rounds + 1 && (i > 0 ==> round <= l.rounds)
    ensures ResultsTo(l, round, i) == []
    decreases round, i
  {
    if i > 0 {
      NoLegsNoResults(l, round, i - 1);
    } else if round > 1 {
      NoLegsNoResults(l, round - 1, MatchesIn(l, round - 1));
    }
  }

  /** A configuration that names no number of legs plays one per match. */
  lemma UnnamedLegsAreOne(config: TournamentConfig, seeds: Option<seq<SeedPair>>, m: nat)
    requires HasRows(config) && config.knockoutPlayAgainstNum.None?
    requires config.knockoutEventNum.value <= CeilLog2(config.knockoutTeamNum.value)
    requires m < |Matches(LayoutOf(config, seeds))|
    ensures
      var row := Matches(LayoutOf(config, seeds))[m];
      && row.endedEventId == row.startedEventId == config.knockoutStartedEventId.value + row.round - 1
      && |ResultsFor(Results(LayoutOf(config, seeds)), row.matchId)| == 1
  {
    MatchWindow(LayoutOf(config, seeds), m);
    LegsFillTheWindow(LayoutOf(config, seeds), m);
  }

  // --------------------------------------------------------------- the legs

  /** The result rows of one match. */
  function ResultsFor(results: seq<ResultRow>, matchId: int): seq<ResultRow> {
    if results == [] then [] else
      var last := results[|results| - 1];
      ResultsFor(results[..|results| - 1], matchId) + (if last.matchId == matchId then [last] else [])
  }

  lemma {:induction false} ResultsForConcat(a: seq<ResultRow>, b: seq<ResultRow>, matchId: int)
    ensures ResultsFor(a + b, matchId) == ResultsFor(a, matchId) + ResultsFor(b, matchId)
  {
    if b == [] {
      assert a + b == a;
    } else {
      assert (a + b)[..|a + b| - 1] == a + b[..|b| - 1];
      ResultsForConcat(a, b[..|b| - 1], matchId);
    }
  }

  lemma {:induction false} ResultsForUniform(s: seq<ResultRow>, matchId: int, own: bool)
    requires forall k | 0 <= k < |s| :: s[k].matchId == matchId <==> own
    ensures ResultsFor(s, matchId) == if own then s else []
  {
    if s != [] { ResultsForUniform(s[..|s| - 1], matchId, own); }
  }

  lemma LegsAreOwn(l: Layout, round: nat, i: nat, r: nat, j: nat)
    requires 1 <= r <= l.rounds <= l.size && j < MatchesIn(l, r)
    requires 1 <= round <= l.rounds && i < MatchesIn(l, round)
    ensures ResultsFor(LegsOf(l, round, i), RoundStart(l, r) + j)
      == if r == round && j == i then LegsOf(l, round, i) else []
  {
    PlacesDiffer(l, r, j, round, i);
    ResultsForUniform(LegsOf(l, round, i), RoundStart(l, r) + j, r == round && j == i);
  }

  lemma ResultsOfOneMore(l: Layout, round: nat, i: nat, id: int)
    requires 1 <= round <= l.rounds <= l.size
    ensures ResultsFor(ResultsTo(l, round, i + 1), id) == ResultsFor(ResultsTo(l, round, i), id)
      + ResultsFor(LegsOf(l, round, i), id)
  {
    ResultsForConcat(ResultsTo(l, round, i), LegsOf(l, round, i), id);
  }

  /** Another match's legs leave the result rows of a match as they are. */
  lemma OtherLegsAddNothing(l: Layout, round: nat, i: nat, r: nat, j: nat, id: int)
    requires 1 <= r <= l.rounds <= l.size && j < MatchesIn(l, r) && id == RoundStart(l, r) + j
    requires 1 <= round <= l.rounds && i < MatchesIn(l, round) && !(r == round && j == i)
    ensures ResultsFor(ResultsTo(l, round, i + 1), id) == ResultsFor(ResultsTo(l, round, i), id)
  {
    ResultsOfOneMore(l, round, i, id);
    LegsAreOwn(l, round, i, r, j);
  }

  /** Before match (r, j) is reached, no result row carries its id. */
  lemma {:induction false} NoResultsBefore(l: Layout, round: nat, i: nat, r: nat, j: nat, id: int)
    requires 1 <= r <= l.rounds <= l.size && j < MatchesIn(l, r) && id == RoundStart(l, r) + j
    requires 1 <= round <= l.rounds && i <= MatchesIn(l, round)
    requires round < r || (round == r && i <= j)
    ensures ResultsFor(ResultsTo(l, round, i), id) == []
    decreases round, i
  {
    if i > 0 {
      NoResultsBefore(l, round, i - 1, r, j, id);
      OtherLegsAddNothing(l, round, i - 1, r, j, id);
    } else if round > 1 {
      NoResultsBefore(l, round - 1, MatchesIn(l, round - 1), r, j, id);
    }
  }

  lemma OwnLegsAreWritten(l: Layout, r: nat, j: nat, id: int)
    requires 1 <= r <= l.rounds <= l.size && j < MatchesIn(l, r) && id == RoundStart(l, r) + j
    ensures ResultsFor(ResultsTo(l, r, j + 1), id) == LegsOf(l, r, j)
  {
    NoResultsBefore(l, r, j, r, j, id);
    ResultsOfOneMore(l, r, j, id);
    LegsAreOwn(l, r, j, r, j);
  }

  /** From the moment match (r, j) is written, its legs are all the rows of its id. */
  lemma {:induction false} ResultsForMatch(l: Layout, round: nat, i: nat, r: nat, j: nat, id: int)
    requires 1 <= r <= l.rounds <= l.size && j < MatchesIn(l, r) && id == RoundStart(l, r) + j
    requires 1 <= round <= l.rounds + 1 && (i > 0 ==> round <= l.rounds && i <= MatchesIn(l, round))
    requires r < round || (r == round && j < i)
    ensures ResultsFor(ResultsTo(l, round, i), id) == ResultsFor(ResultsTo(l, r, j + 1), id)
    decreases round, i
  {
    if i == 0 {
      ResultsForMatch(l, round - 1, MatchesIn(l, round - 1), r, j, id);
    } else if !(r == round && j == i - 1) {
      OtherLegsAddNothing(l, round, i - 1, r, j, id);
      ResultsForMatch(l, round, i - 1, r, j, id);
    }
  }

  lemma ResultsOfRow(l: Layout, m: nat) returns (r: nat, j: nat)
    requires 1 <= l.rounds <= l.size && m < |Matches(l)|
    ensures 1 <= r <= l.rounds && Matches(l)[m] == MatchAt(l, r, j)
    ensures ResultsFor(Results(l), Matches(l)[m].matchId) == LegsOf(l, r, j)
  {
    r, j := RowAt(l, m);
    ResultsForMatch(l, l.rounds + 1, 0, r, j, RoundStart(l, r) + j);
    OwnLegsAreWritten(l, r, j, RoundStart(l, r) + j);
  }

  lemma LegsOfMatch(l: Layout, r: nat, j: nat)
    requires 1 <= r <= l.rounds <= l.size && l.legs >= 1
    ensures var row := MatchAt(l, r, j);
      var legs := LegsOf(l, r, j);
      && |legs| == row.endedEventId - row.startedEventId + 1
      && (forall k | 0 <= k < |legs| :: legs[k].eventId == row.startedEventId + k && legs[k].playAgainstId == k + 1)
      && (forall k | 0 <= k < |legs| ::
        (legs[k].home, legs[k].away) == if k % 2 == 0 then (row.home, row.away) else (row.away, row.home))
  {
  }

  /** Each match has one result row per leg: consecutive events filling its window, sides alternating. */
  lemma LegsFillTheWindow(l: Layout, m: nat)
    requires 1 <= l.rounds <= l.size && l.legs >= 1 && m < |Matches(l)|
    ensures var row := Matches(l)[m];
      var legs := ResultsFor(Results(l), row.matchId);
      && |legs| == row.endedEventId - row.startedEventId + 1
      && (forall k | 0 <= k < |legs| :: legs[k].eventId == row.startedEventId + k && legs[k].playAgainstId == k + 1)
      && (forall k | 0 <= k < |legs| ::
        (legs[k].home, legs[k].away) == if k % 2 == 0 then (row.home, row.away) else (row.away, row.home))
  {
    var r, j := ResultsOfRow(l, m);
    LegsOfMatch(l, r, j);
  }
}
