/** Live bonus points of src/domain/live-bonus.ts: tied 3/2/1 tiers per fixture, summed per team. */
module LiveBonus {
  import opened Wrappers

  datatype Candidate = Candidate(elementId: int, teamId: int, value: int)

  // ------------------------------------------- what a candidate should receive

  /** How many candidates have a strictly larger value. */
  function Better(candidates: seq<Candidate>, value: int): (n: nat)
    ensures n <= |candidates|
  {
    if candidates == [] then 0
    else Better(candidates[..|candidates| - 1], value) + if candidates[|candidates| - 1].value > value then 1 else 0
  }

  /** Three points less one for every better candidate; nobody beyond three better ones scores. */
  function Award(candidates: seq<Candidate>, c: Candidate): nat {
    if c.value > 0 && Better(candidates, c.value) < 3 then 3 - Better(candidates, c.value) else 0
  }

  /** The smallest positive award among the first n rows of an element; 0 if it has none. */
  function LowestAward(candidates: seq<Candidate>, n: nat, element: int): nat
    requires n <= |candidates|
  {
    if n == 0 then 0
    else
      var before := LowestAward(candidates, n - 1, element);
      var c := candidates[n - 1];
      if c.elementId != element || Award(candidates, c) == 0 then before
      else if before == 0 || Award(candidates, c) < before then Award(candidates, c)
      else before
  }

  function BonusOf(candidates: seq<Candidate>, element: int): nat {
    LowestAward(candidates, |candidates|, element)
  }

  /** The award is zero when no row of the element scores; otherwise it is attained and minimal. */
  lemma {:induction false} LowestAwardIsLowest(candidates: seq<Candidate>, n: nat, element: int)
    requires n <= |candidates|
    ensures forall i | 0 <= i < n && candidates[i].elementId == element && Award(candidates, candidates[i]) > 0 ::
      0 < LowestAward(candidates, n, element) <= Award(candidates, candidates[i])
    ensures LowestAward(candidates, n, element) > 0 ==>
      exists i | 0 <= i < n :: candidates[i].elementId == element
        && Award(candidates, candidates[i]) == LowestAward(candidates, n, element)
  {
    if n > 0 { LowestAwardIsLowest(candidates, n - 1, element); }
  }

  /** An element listed once receives exactly three less the number of better candidates. */
  lemma UniqueElementBonus(candidates: seq<Candidate>, i: nat)
    requires i < |candidates|
    requires forall j | 0 <= j < |candidates| && j != i :: candidates[j].elementId != candidates[i].elementId
    ensures BonusOf(candidates, candidates[i].elementId) == Award(candidates, candidates[i])
  {
    LowestAwardIsLowest(candidates, |candidates|, candidates[i].elementId);
  }

  // ------------------------------------------------------------------ ranking

  ghost predicate Descending(s: seq<Candidate>) {
    forall i, j | 0 <= i < j < |s| :: s[i].value >= s[j].value
  }

  function Insert(s: seq<Candidate>, c: Candidate): (r: seq<Candidate>)
    ensures |r| == |s| + 1
  {
    if s == [] then [c]
    else if s[|s| - 1].value >= c.value then s + [c]
    else Insert(s[..|s| - 1], c) + [s[|s| - 1]]
  }

  /** The positive candidates, best first, ties in their given order. */
  function Ranked(candidates: seq<Candidate>): seq<Candidate> {
    if candidates == [] then []
    else
      var n := |candidates| - 1;
      if candidates[n].value > 0 then Insert(Ranked(candidates[..n]), candidates[n]) else Ranked(candidates[..n])
  }

  lemma {:induction false} InsertMembers(s: seq<Candidate>, c: Candidate)
    ensures forall x :: x in Insert(s, c) <==> x in s || x == c
  {
    if s != [] {
      InsertMembers(s[..|s| - 1], c);
      assert s == s[..|s| - 1] + [s[|s| - 1]];
    }
  }

  lemma {:induction false} InsertKeepsDescending(s: seq<Candidate>, c: Candidate)
    requires Descending(s)
    ensures Descending(Insert(s, c))
  {
    if s != [] && s[|s| - 1].value < c.value {
      InsertKeepsDescending(s[..|s| - 1], c);
      InsertMembers(s[..|s| - 1], c);
      var r := Insert(s[..|s| - 1], c);
      forall i | 0 <= i < |r| ensures r[i].value >= s[|s| - 1].value {
        assert r[i] in r;
      }
    }
  }

  lemma {:induction false} InsertCounts(s: seq<Candidate>, c: Candidate, value: int)
    ensures Better(Insert(s, c), value) == Better(s, value) + if c.value > value then 1 else 0
  {
    if s != [] {
      var init, last := s[..|s| - 1], s[|s| - 1];
      if last.value >= c.value {
        assert (s + [c])[..|s|] == s;
      } else {
        InsertCounts(init, c, value);
        assert (Insert(init, c) + [last])[..|s|] == Insert(init, c);
      }
    }
  }

  lemma {:induction false} RankedMembers(candidates: seq<Candidate>)
    ensures Descending(Ranked(candidates))
    ensures forall x :: x in Ranked(candidates) <==> x in candidates && x.value > 0
  {
    if candidates != [] {
      var n := |candidates| - 1;
      RankedMembers(candidates[..n]);
      assert candidates == candidates[..n] + [candidates[n]];
      InsertMembers(Ranked(candidates[..n]), candidates[n]);
      InsertKeepsDescending(Ranked(candidates[..n]), candidates[n]);
    }
  }

  lemma {:induction false} RankedCounts(candidates: seq<Candidate>, value: int)
    requires value >= 0
    ensures Better(Ranked(candidates), value) == Better(candidates, value)
  {
    if candidates != [] {
      var n := |candidates| - 1;
      RankedCounts(candidates[..n], value);
      InsertCounts(Ranked(candidates[..n]), candidates[n], value);
    }
  }

  /** In a ranking, the better candidates are those before the first of the tier. */
  lemma {:induction false} BetterIsTierStart(s: seq<Candidate>, value: int, from: nat)
    requires from <= |s|
    requires forall j | 0 <= j < from :: s[j].value > value
    requires forall j | from <= j < |s| :: s[j].value <= value
    ensures Better(s, value) == from
  {
    if s != [] {
      var n := |s| - 1;
      BetterIsTierStart(s[..n], value, if from <= n then from else n);
    }
  }

  // ------------------------------------------------------------------- tiers

  predicate Listed(ranked: seq<Candidate>, from: nat, to: nat, element: int)
    requires to <= |ranked|
  {
    exists j | from <= j < to :: ranked[j].elementId == element
  }

  method AwardTier(ranked: seq<Candidate>, given: map<int, nat>, bonus: nat, fromIndex: nat)
    returns (awarded: map<int, nat>, index: nat)
    requires fromIndex < |ranked|
    ensures fromIndex < index <= |ranked|
    ensures forall j | fromIndex <= j < index :: ranked[j].value == ranked[fromIndex].value
    ensures index < |ranked| ==> ranked[index].value != ranked[fromIndex].value
    ensures forall e :: e in awarded <==> e in given || Listed(ranked, fromIndex, index, e)
    ensures forall e | e in awarded :: awarded[e] == if Listed(ranked, fromIndex, index, e) then bonus else given[e]
  {
    var tierValue := ranked[fromIndex].value;
    awarded, index := given, fromIndex;
    while index < |ranked| && ranked[index].value == tierValue
      invariant fromIndex <= index <= |ranked|
      invariant forall j | fromIndex <= j < index :: ranked[j].value == tierValue
      invariant forall e :: e in awarded <==> e in given || Listed(ranked, fromIndex, index, e)
      invariant forall e | e in awarded :: awarded[e] == if Listed(ranked, fromIndex, index, e) then bonus else given[e]
    {
      ListedNext(ranked, fromIndex, index);
      awarded := awarded[ranked[index].elementId := bonus];
      index := index + 1;
    }
  }

  lemma ListedNext(ranked: seq<Candidate>, from: nat, to: nat)
    requires from <= to < |ranked|
    ensures forall e :: Listed(ranked, from, to + 1, e) <==> Listed(ranked, from, to, e) || e == ranked[to].elementId
  {
    forall e ensures Listed(ranked, from, to + 1, e) <==> Listed(ranked, from, to, e) || e == ranked[to].elementId {
      if Listed(ranked, from, to, e) {
        var j :| from <= j < to && ranked[j].elementId == e;
        assert ranked[j].elementId == e;
      }
      assert ranked[to].elementId == ranked[to].elementId;
    }
  }

  /** The first `to` ranks have been served: whole tiers, each element holding its lowest award so far. */
  ghost predicate Served(ranked: seq<Candidate>, to: nat, bonus: map<int, nat>) {
    && to <= |ranked|
    && Descending(ranked)
    && (0 < to < |ranked| ==> ranked[to].value < ranked[to - 1].value)
    && (forall j | 0 <= j < to :: Better(ranked, ranked[j].value) < 3)
    && (forall e :: e in bonus <==> Listed(ranked, 0, to, e))
    && (forall j | 0 <= j < to ::
      ranked[j].elementId in bonus && bonus[ranked[j].elementId] <= 3 - Better(ranked, ranked[j].value))
    && (forall e | e in bonus ::
      exists j | 0 <= j < to :: ranked[j].elementId == e && bonus[e] == 3 - Better(ranked, ranked[j].value))
  }

  lemma TierRank(ranked: seq<Candidate>, from: nat, index: nat, j: nat)
    requires Descending(ranked) && from <= j < index <= |ranked|
    requires 0 < from ==> ranked[from].value < ranked[from - 1].value
    requires ranked[j].value == ranked[from].value
    ensures Better(ranked, ranked[j].value) == from
  {
    BetterIsTierStart(ranked, ranked[j].value, from);
  }

  /** `awarded` gives 3 - from to the whole tier that starts at `from` and ends before `index`. */
  ghost predicate NextTier(ranked: seq<Candidate>, from: nat, given: map<int, nat>, index: nat,
    awarded: map<int, nat>) {
    && from < index <= |ranked| && from < 3
    && (forall j | from <= j < index :: ranked[j].value == ranked[from].value)
    && (index < |ranked| ==> ranked[index].value != ranked[from].value)
    && (forall e :: e in awarded <==> e in given || Listed(ranked, from, index, e))
    && (forall e | e in awarded :: awarded[e] == if Listed(ranked, from, index, e) then 3 - from else given[e])
  }

  /** Serving the next tier with 3 - from keeps the ranking served. */
  lemma TierServed(ranked: seq<Candidate>, from: nat, given: map<int, nat>, index: nat, awarded: map<int, nat>)
    requires Served(ranked, from, given) && NextTier(ranked, from, given, index, awarded)
    ensures Served(ranked, index, awarded)
  {
    EarlierTiersAreBetter(ranked, from);
    forall j | 0 <= j < index
      ensures Better(ranked, ranked[j].value) < 3 && ranked[j].elementId in awarded
      ensures awarded[ranked[j].elementId] <= 3 - Better(ranked, ranked[j].value)
    {
      TierBounds(ranked, from, given, index, awarded, j);
    }
    forall e ensures e in awarded <==> Listed(ranked, 0, index, e) {
      ListedSplits(ranked, from, index, e);
    }
    forall e | e in awarded
      ensures exists j | 0 <= j < index :: ranked[j].elementId == e && awarded[e] == 3 - Better(ranked, ranked[j].value)
    {
      var j := TierAttains(ranked, from, given, index, awarded, e);
    }
  }

  lemma TierBounds(ranked: seq<Candidate>, from: nat, given: map<int, nat>, index: nat, awarded: map<int, nat>, j: nat)
    requires Served(ranked, from, given) && NextTier(ranked, from, given, index, awarded) && j < index
    ensures Better(ranked, ranked[j].value) < 3 && ranked[j].elementId in awarded
    ensures awarded[ranked[j].elementId] <= 3 - Better(ranked, ranked[j].value)
  {
    var e := ranked[j].elementId;
    if from <= j {
      TierRank(ranked, from, index, j);
      assert Listed(ranked, from, index, e);
    } else {
      EarlierTiersAreBetter(ranked, from);
      assert e in given;
    }
  }

  lemma TierAttains(ranked: seq<Candidate>, from: nat, given: map<int, nat>, index: nat, awarded: map<int, nat>, e: int)
    returns (j: nat)
    requires Served(ranked, from, given) && NextTier(ranked, from, given, index, awarded) && e in awarded
    ensures j < index && ranked[j].elementId == e && awarded[e] == 3 - Better(ranked, ranked[j].value)
  {
    if Listed(ranked, from, index, e) {
      j :| from <= j < index && ranked[j].elementId == e;
      TierRank(ranked, from, index, j);
    } else {
      j :| 0 <= j < from && ranked[j].elementId == e && given[e] == 3 - Better(ranked, ranked[j].value);
    }
  }

  lemma EarlierTiersAreBetter(ranked: seq<Candidate>, from: nat)
    requires from < |ranked| && Descending(ranked)
    requires 0 < from ==> ranked[from].value < ranked[from - 1].value
    ensures forall j | 0 <= j < from :: Better(ranked, ranked[j].value) < from
  {
    forall j | 0 <= j < from ensures Better(ranked, ranked[j].value) < from {
      BetterBound(ranked, ranked[j].value, j);
    }
  }

  lemma {:induction false} BetterBound(s: seq<Candidate>, value: int, k: nat)
    requires k <= |s| && forall j | k <= j < |s| :: s[j].value <= value
    ensures Better(s, value) <= k
  {
    if k < |s| {
      BetterBound(s[..|s| - 1], value, k);
    }
  }

  lemma ListedSplits(ranked: seq<Candidate>, from: nat, index: nat, e: int)
    requires from <= index <= |ranked|
    ensures Listed(ranked, 0, index, e) <==> Listed(ranked, 0, from, e) || Listed(ranked, from, index, e)
  {
    if Listed(ranked, 0, index, e) {
      var j :| 0 <= j < index && ranked[j].elementId == e;
      if j < from { assert Listed(ranked, 0, from, e); } else { assert Listed(ranked, from, index, e); }
    }
  }

  method CalculateFixtureBonus(candidates: seq<Candidate>) returns (bonusByElement: map<int, nat>)
    ensures forall e :: e in bonusByElement <==> BonusOf(candidates, e) > 0
    ensures forall e | e in bonusByElement :: bonusByElement[e] == BonusOf(candidates, e)
  {
    var ranked := Ranked(candidates);
    RankedMembers(candidates);
    var served;
    bonusByElement, served := ServeTiers(ranked);
    ServedIsBonus(candidates, ranked, served, bonusByElement);
  }

  /** Tiers are served until three places are gone or the ranking ends. */
  method ServeTiers(ranked: seq<Candidate>) returns (bonusByElement: map<int, nat>, index: nat)
    requires Descending(ranked)
    ensures Served(ranked, index, bonusByElement) && (index >= 3 || index == |ranked|)
  {
    bonusByElement, index := map[], 0;
    if |ranked| == 0 {
      return;
    }
    bonusByElement, index := ServeTier(ranked, bonusByElement, 3, 0);
    if index >= 3 || index >= |ranked| {
      return;
    }
    if index == 1 {
      bonusByElement, index := ServeTier(ranked, bonusByElement, 2, index);
      if index >= 3 || index >= |ranked| {
        return;
      }
    }
    bonusByElement, index := ServeTier(ranked, bonusByElement, 1, index);
  }

  method ServeTier(ranked: seq<Candidate>, given: map<int, nat>, bonus: nat, fromIndex: nat)
    returns (awarded: map<int, nat>, index: nat)
    requires Served(ranked, fromIndex, given) && fromIndex < |ranked| && fromIndex < 3 && bonus == 3 - fromIndex
    ensures fromIndex < index <= |ranked| && Served(ranked, index, awarded)
  {
    awarded, index := AwardTier(ranked, given, bonus, fromIndex);
    TierServed(ranked, fromIndex, given, index, awarded);
  }

  /** A ranking served down to three places or to its end is the bonus of every element. */
  lemma ServedIsBonus(candidates: seq<Candidate>, ranked: seq<Candidate>, to: nat, bonus: map<int, nat>)
    requires ranked == Ranked(candidates) && Served(ranked, to, bonus) && (to >= 3 || to == |ranked|)
    ensures forall e :: e in bonus <==> BonusOf(candidates, e) > 0
    ensures forall e | e in bonus :: bonus[e] == BonusOf(candidates, e)
  {
    forall e
      ensures e in bonus <==> BonusOf(candidates, e) > 0
      ensures e in bonus ==> bonus[e] == BonusOf(candidates, e)
    {
      LowestAwardIsLowest(candidates, |candidates|, e);
      if e in bonus { ServedIsAtLeast(candidates, ranked, to, bonus, e); }
      if BonusOf(candidates, e) > 0 { ServedIsAtMost(candidates, ranked, to, bonus, e); }
    }
  }

  lemma ServedIsAtLeast(candidates: seq<Candidate>, ranked: seq<Candidate>, to: nat, bonus: map<int, nat>, e: int)
    requires ranked == Ranked(candidates) && Served(ranked, to, bonus) && e in bonus
    ensures 0 < BonusOf(candidates, e) <= bonus[e]
  {
    var j :| 0 <= j < to && ranked[j].elementId == e && bonus[e] == 3 - Better(ranked, ranked[j].value);
    var i := RowOfRank(candidates, j);
    assert Award(candidates, candidates[i]) == bonus[e];
    LowestAwardIsLowest(candidates, |candidates|, e);
  }

  lemma RowOfRank(candidates: seq<Candidate>, j: nat) returns (i: nat)
    requires j < |Ranked(candidates)|
    ensures i < |candidates| && candidates[i] == Ranked(candidates)[j] && candidates[i].value > 0
    ensures Better(candidates, candidates[i].value) == Better(Ranked(candidates), candidates[i].value)
  {
    RankedMembers(candidates);
    assert Ranked(candidates)[j] in Ranked(candidates);
    i :| 0 <= i < |candidates| && candidates[i] == Ranked(candidates)[j];
    RankedCounts(candidates, candidates[i].value);
  }

  lemma ServedIsAtMost(candidates: seq<Candidate>, ranked: seq<Candidate>, to: nat, bonus: map<int, nat>, e: int)
    requires ranked == Ranked(candidates) && Served(ranked, to, bonus) && (to >= 3 || to == |ranked|)
    requires BonusOf(candidates, e) > 0
    ensures e in bonus && bonus[e] <= BonusOf(candidates, e)
  {
    var i := ScoringRow(candidates, e);
    var j := RankOfRow(candidates, i);
    if j >= to { AllServedAreBetter(ranked, to, j); }
  }

  /** The row that gives an element its bonus. */
  lemma ScoringRow(candidates: seq<Candidate>, e: int) returns (i: nat)
    requires BonusOf(candidates, e) > 0
    ensures i < |candidates| && candidates[i].elementId == e
      && Award(candidates, candidates[i]) == BonusOf(candidates, e)
  {
    LowestAwardIsLowest(candidates, |candidates|, e);
    i :| 0 <= i < |candidates| && candidates[i].elementId == e
      && Award(candidates, candidates[i]) == BonusOf(candidates, e);
  }

  lemma RankOfRow(candidates: seq<Candidate>, i: nat) returns (j: nat)
    requires i < |candidates| && candidates[i].value > 0
    ensures j < |Ranked(candidates)| && Ranked(candidates)[j] == candidates[i]
    ensures Better(candidates, candidates[i].value) == Better(Ranked(candidates), candidates[i].value)
  {
    RankedMembers(candidates);
    assert candidates[i] in Ranked(candidates);
    j :| 0 <= j < |Ranked(candidates)| && Ranked(candidates)[j] == candidates[i];
    RankedCounts(candidates, candidates[i].value);
  }

  lemma AllServedAreBetter(ranked: seq<Candidate>, to: nat, j: nat)
    requires Descending(ranked) && 0 < to <= j < |ranked| && ranked[to].value < ranked[to - 1].value
    ensures Better(ranked, ranked[j].value) >= to
  {
    BetterAtLeast(ranked, ranked[j].value, to);
  }

  lemma {:induction false} BetterAtLeast(s: seq<Candidate>, value: int, k: nat)
    requires k <= |s| && forall j | 0 <= j < k :: s[j].value > value
    ensures Better(s, value) >= k
  {
    if k > 0 {
      BetterAtLeast(s[..|s| - 1], value, if k < |s| then k else k - 1);
    }
  }

  // ------------------------------------------------------- sums over an event

  datatype StatRow = StatRow(element: int, value: int)

  datatype FixtureStat = FixtureStat(identifier: string, h: seq<StatRow>, a: seq<StatRow>)

  datatype Fixture = Fixture(
    started: bool,
    finished: bool,
    finishedProvisional: bool,
    teamH: int,
    teamA: int,
    stats: seq<FixtureStat>)

  function FindStat(stats: seq<FixtureStat>, identifier: string): Option<FixtureStat> {
    if stats == [] then None
    else if stats[0].identifier == identifier then Some(stats[0])
    else FindStat(stats[1..], identifier)
  }

  function Side(rows: seq<StatRow>, teamId: int): seq<Candidate> {
    if rows == [] then []
    else Side(rows[..|rows| - 1], teamId) + [Candidate(rows[|rows| - 1].element, teamId, rows[|rows| - 1].value)]
  }

  function StatCandidates(f: Fixture, identifier: string): seq<Candidate> {
    var stat := FindStat(f.stats, identifier);
    if stat.None? then [] else Side(stat.value.h, f.teamH) + Side(stat.value.a, f.teamA)
  }

  function Positive(candidates: seq<Candidate>): seq<Candidate> {
    if candidates == [] then []
    else
      Positive(candidates[..|candidates| - 1])
      + (if candidates[|candidates| - 1].value > 0 then [candidates[|candidates| - 1]] else [])
  }

  /** Rows without a positive element id or value add nothing. */
  function AddedBy(c: Candidate, team: int, element: int): nat {
    if c.teamId == team && c.elementId == element && c.elementId > 0 && c.value > 0 then c.value else 0
  }

  /** What a list of awards adds to one element of one team. */
  function Added(awards: seq<Candidate>, team: int, element: int): nat {
    if awards == [] then 0
    else
      var c := awards[|awards| - 1];
      Added(awards[..|awards| - 1], team, element) + AddedBy(c, team, element)
  }

  /** The team of the last row of an element. */
  function TeamOf(candidates: seq<Candidate>, element: int): Option<int> {
    if candidates == [] then None
    else if candidates[|candidates| - 1].elementId == element then Some(candidates[|candidates| - 1].teamId)
    else TeamOf(candidates[..|candidates| - 1], element)
  }

  function Provisional(bps: seq<Candidate>, team: int, element: int): nat {
    if element > 0 && TeamOf(bps, element) == Some(team) then BonusOf(bps, element) else 0
  }

  /** Official rows win; without them only a running fixture gives its provisional tiers. */
  function GivenBy(f: Fixture, team: int, element: int): nat {
    var official := Positive(StatCandidates(f, "bonus"));
    var bps := StatCandidates(f, "bps");
    if !f.started && !f.finished && !f.finishedProvisional then 0
    else if official != [] then Added(official, team, element)
    else if f.finished || f.finishedProvisional then 0
    else Provisional(bps, team, element)
  }

  function Total(fixtures: seq<Fixture>, team: int, element: int): nat {
    if fixtures == [] then 0
    else Total(fixtures[..|fixtures| - 1], team, element) + GivenBy(fixtures[|fixtures| - 1], team, element)
  }

  // ------------------------------------------- points by side, row by row

  /** `f.stats[k]` is the first stat of this name. */
  predicate FirstStat(f: Fixture, identifier: string, k: nat) {
    k < |f.stats| && f.stats[k].identifier == identifier
    && forall j | 0 <= j < k :: f.stats[j].identifier != identifier
  }

  lemma {:induction false} FirstStatIsFound(stats: seq<FixtureStat>, identifier: string, k: nat)
    requires k < |stats| && stats[k].identifier == identifier
    requires forall j | 0 <= j < k :: stats[j].identifier != identifier
    ensures FindStat(stats, identifier) == Some(stats[k])
  {
    if k > 0 {
      assert stats[0].identifier != identifier;
      FirstStatIsFound(stats[1..], identifier, k - 1);
    }
  }

  lemma {:induction false} SideRows(rows: seq<StatRow>, team: int)
    ensures |Side(rows, team)| == |rows|
    ensures forall i | 0 <= i < |rows| :: Side(rows, team)[i] == Candidate(rows[i].element, team, rows[i].value)
  {
    if rows != [] { SideRows(rows[..|rows| - 1], team); }
  }

  /** Home rows become candidates of the home team, away rows, after them, of the away team. */
  lemma StatRowsKeepTheirTeam(f: Fixture, identifier: string, k: nat)
    requires FirstStat(f, identifier, k)
    ensures
      var h, a := f.stats[k].h, f.stats[k].a;
      var c := StatCandidates(f, identifier);
      && |c| == |h| + |a|
      && (forall i | 0 <= i < |h| :: c[i] == Candidate(h[i].element, f.teamH, h[i].value))
      && (forall j | 0 <= j < |a| :: c[|h| + j] == Candidate(a[j].element, f.teamA, a[j].value))
  {
    FirstStatIsFound(f.stats, identifier, k);
    SideRows(f.stats[k].h, f.teamH);
    SideRows(f.stats[k].a, f.teamA);
  }

  lemma {:induction false} MissingStatHasNoCandidates(f: Fixture, identifier: string)
    requires forall j | 0 <= j < |f.stats| :: f.stats[j].identifier != identifier
    ensures StatCandidates(f, identifier) == []
  {
    MissingStat(f.stats, identifier);
  }

  lemma {:induction false} MissingStat(stats: seq<FixtureStat>, identifier: string)
    requires forall j | 0 <= j < |stats| :: stats[j].identifier != identifier
    ensures FindStat(stats, identifier) == None
  {
    if stats != [] {
      assert stats[0].identifier != identifier;
      MissingStat(stats[1..], identifier);
    }
  }

  /** A row counts when its element id and value are positive. */
  function Worth(row: StatRow): nat {
    if row.element > 0 && row.value > 0 then row.value else 0
  }

  /** What one side's rows are worth to an element. */
  function SideTotal(rows: seq<StatRow>, element: int): nat {
    if rows == [] then 0
    else
      var row := rows[|rows| - 1];
      SideTotal(rows[..|rows| - 1], element) + if row.element == element then Worth(row) else 0
  }

  predicate HasPoints(rows: seq<StatRow>) {
    exists i | 0 <= i < |rows| :: rows[i].value > 0
  }

  predicate Lists(rows: seq<StatRow>, element: int) {
    exists i | 0 <= i < |rows| :: rows[i].element == element
  }

  predicate HasBegun(f: Fixture) { f.started || f.finished || f.finishedProvisional }

  predicate IsRunning(f: Fixture) { f.started && !f.finished && !f.finishedProvisional }

  lemma {:induction false} AddedConcat(a: seq<Candidate>, b: seq<Candidate>, team: int, element: int)
    ensures Added(a + b, team, element) == Added(a, team, element) + Added(b, team, element)
  {
    if b == [] {
      assert a + b == a;
    } else {
      assert (a + b)[..|a + b| - 1] == a + b[..|b| - 1];
      AddedConcat(a, b[..|b| - 1], team, element);
    }
  }

  lemma {:induction false} PositiveAdds(candidates: seq<Candidate>, team: int, element: int)
    ensures Added(Positive(candidates), team, element) == Added(candidates, team, element)
    ensures Positive(candidates) == [] <==> forall i | 0 <= i < |candidates| :: candidates[i].value <= 0
  {
    if candidates != [] {
      var front, last := candidates[..|candidates| - 1], candidates[|candidates| - 1];
      PositiveAdds(front, team, element);
      if last.value > 0 {
        assert (Positive(front) + [last])[..|Positive(front)|] == Positive(front);
      } else {
        assert Positive(candidates) == Positive(front);
      }
      assert forall i | 0 <= i < |front| :: candidates[i] == front[i];
    }
  }

  lemma {:induction false} SideAdds(rows: seq<StatRow>, side: int, team: int, element: int)
    ensures Added(Side(rows, side), team, element) == if team == side then SideTotal(rows, element) else 0
  {
    if rows != [] {
      var n := |rows| - 1;
      SideAdds(rows[..n], side, team, element);
      assert Side(rows, side)[..|Side(rows, side)| - 1] == Side(rows[..n], side);
    }
  }

  /** Once official rows are there, each side's rows count for that side's team and for no other. */
  lemma OfficialPointsGoToTheirSide(f: Fixture, k: nat, team: int, element: int)
    requires HasBegun(f) && FirstStat(f, "bonus", k) && (HasPoints(f.stats[k].h) || HasPoints(f.stats[k].a))
    ensures GivenBy(f, team, element) ==
      (if team == f.teamH then SideTotal(f.stats[k].h, element) else 0)
      + (if team == f.teamA then SideTotal(f.stats[k].a, element) else 0)
  {
    var h, a := f.stats[k].h, f.stats[k].a;
    var c := StatCandidates(f, "bonus");
    FirstStatIsFound(f.stats, "bonus", k);
    AddedConcat(Side(h, f.teamH), Side(a, f.teamA), team, element);
    SideAdds(h, f.teamH, team, element);
    SideAdds(a, f.teamA, team, element);
    PositiveAdds(c, team, element);
    OfficialRowsAreFound(f, k);
  }

  lemma OfficialRowsAreFound(f: Fixture, k: nat)
    requires FirstStat(f, "bonus", k) && (HasPoints(f.stats[k].h) || HasPoints(f.stats[k].a))
    ensures Positive(StatCandidates(f, "bonus")) != []
  {
    var h, a := f.stats[k].h, f.stats[k].a;
    var c := StatCandidates(f, "bonus");
    StatRowsKeepTheirTeam(f, "bonus", k);
    PositiveAdds(c, 0, 0);
    if i :| 0 <= i < |h| && h[i].value > 0 {
      assert c[i].value > 0;
    } else {
      var j :| 0 <= j < |a| && a[j].value > 0;
      assert c[|h| + j].value > 0;
    }
  }

  lemma {:induction false} AbsentAddsNothing(rows: seq<StatRow>, element: int)
    requires !Lists(rows, element)
    ensures SideTotal(rows, element) == 0
  {
    if rows != [] {
      var front := rows[..|rows| - 1];
      assert forall i | 0 <= i < |front| :: front[i] == rows[i];
      assert rows[|rows| - 1].element != element;
      AbsentAddsNothing(front, element);
    }
  }

  /** Row `i` is the only one of its element. */
  predicate OnlyRow(rows: seq<StatRow>, i: nat) {
    i < |rows| && forall j | 0 <= j < |rows| && j != i :: rows[j].element != rows[i].element
  }

  lemma {:induction false} OnlyRowAdds(rows: seq<StatRow>, i: nat)
    requires OnlyRow(rows, i)
    ensures SideTotal(rows, rows[i].element) == Worth(rows[i])
  {
    var n := |rows| - 1;
    assert forall j | 0 <= j < n :: rows[..n][j] == rows[j];
    if i < n {
      assert rows[n].element != rows[i].element;
      OnlyRowAdds(rows[..n], i);
    } else {
      AbsentAddsNothing(rows[..n], rows[i].element);
    }
  }

  /** An element listed once officially has exactly its worth under its own side's team and nothing elsewhere. */
  lemma OfficialRowIsCredited(f: Fixture, k: nat, home: bool, i: nat)
    requires HasBegun(f) && FirstStat(f, "bonus", k) && (HasPoints(f.stats[k].h) || HasPoints(f.stats[k].a))
    requires
      var (own, other) := if home then (f.stats[k].h, f.stats[k].a) else (f.stats[k].a, f.stats[k].h);
      OnlyRow(own, i) && !Lists(other, own[i].element)
    ensures
      var row := if home then f.stats[k].h[i] else f.stats[k].a[i];
      forall team :: Total([f], team, row.element) ==
        if team == (if home then f.teamH else f.teamA) then Worth(row) else 0
  {
    var (own, other) := if home then (f.stats[k].h, f.stats[k].a) else (f.stats[k].a, f.stats[k].h);
    forall team
      ensures Total([f], team, own[i].element)
        == if team == (if home then f.teamH else f.teamA) then Worth(own[i]) else 0
    {
      OneFixture(f, team, own[i].element);
      OfficialPointsGoToTheirSide(f, k, team, own[i].element);
      OnlyRowAdds(own, i);
      AbsentAddsNothing(other, own[i].element);
    }
  }

  lemma OneFixture(f: Fixture, team: int, element: int)
    ensures Total([f], team, element) == GivenBy(f, team, element)
  {
    assert [f][..0] == [];
  }

  /** The totals of an event are the sums over its fixtures, so a second fixture adds to the first. */
  lemma {:induction false} TotalsAdd(first: seq<Fixture>, second: seq<Fixture>, team: int, element: int)
    ensures Total(first + second, team, element) == Total(first, team, element) + Total(second, team, element)
  {
    if second == [] {
      assert first + second == first;
    } else {
      assert (first + second)[..|first + second| - 1] == first + second[..|second| - 1];
      TotalsAdd(first, second[..|second| - 1], team, element);
    }
  }

  /** How many rows of one side have a larger value. */
  function Above(rows: seq<StatRow>, value: int): nat {
    if rows == [] then 0
    else Above(rows[..|rows| - 1], value) + if rows[|rows| - 1].value > value then 1 else 0
  }

  lemma {:induction false} BetterConcat(a: seq<Candidate>, b: seq<Candidate>, value: int)
    ensures Better(a + b, value) == Better(a, value) + Better(b, value)
  {
    if b == [] {
      assert a + b == a;
    } else {
      assert (a + b)[..|a + b| - 1] == a + b[..|b| - 1];
      BetterConcat(a, b[..|b| - 1], value);
    }
  }

  lemma {:induction false} SideAbove(rows: seq<StatRow>, team: int, value: int)
    ensures Better(Side(rows, team), value) == Above(rows, value)
  {
    if rows != [] {
      var n := |rows| - 1;
      SideAbove(rows[..n], team, value);
      assert Side(rows, team)[..|Side(rows, team)| - 1] == Side(rows[..n], team);
    }
  }

  lemma {:induction false} OnlyCandidateNamesTheTeam(candidates: seq<Candidate>, i: nat)
    requires i < |candidates|
    requires forall j | 0 <= j < |candidates| && j != i :: candidates[j].elementId != candidates[i].elementId
    ensures TeamOf(candidates, candidates[i].elementId) == Some(candidates[i].teamId)
  {
    var n := |candidates| - 1;
    if i < n {
      assert candidates[n].elementId != candidates[i].elementId;
      OnlyCandidateNamesTheTeam(candidates[..n], i);
    }
  }

  /** No official row has points yet. */
  predicate NoOfficialPoints(f: Fixture) {
    forall k | 0 <= k < |f.stats| && FirstStat(f, "bonus", k) :: !HasPoints(f.stats[k].h) && !HasPoints(f.stats[k].a)
  }

  lemma {:induction false} FirstStatExists(f: Fixture, identifier: string, n: nat)
    requires n < |f.stats| && f.stats[n].identifier == identifier
    ensures exists k: nat :: FirstStat(f, identifier, k)
  {
    if j :| 0 <= j < n && f.stats[j].identifier == identifier {
      FirstStatExists(f, identifier, j);
    } else {
      assert FirstStat(f, identifier, n);
    }
  }

  lemma NoOfficialRows(f: Fixture)
    requires NoOfficialPoints(f)
    ensures Positive(StatCandidates(f, "bonus")) == []
  {
    var c := StatCandidates(f, "bonus");
    PositiveAdds(c, 0, 0);
    if n :| 0 <= n < |f.stats| && f.stats[n].identifier == "bonus" {
      FirstStatExists(f, "bonus", n);
      var k: nat :| FirstStat(f, "bonus", k);
      StatRowsKeepTheirTeam(f, "bonus", k);
      var h, a := f.stats[k].h, f.stats[k].a;
      forall i | 0 <= i < |c| ensures c[i].value <= 0 {
        if i < |h| { assert h[i].value <= 0; } else { assert c[|h| + (i - |h|)].value == a[i - |h|].value; }
      }
    } else {
      MissingStatHasNoCandidates(f, "bonus");
    }
  }

  /**
   Without official rows a running fixture gives an element listed once three points less one for each better row of
   either side, under its own side's team and no other.
   */
  lemma RunningFixtureRanksBothSides(f: Fixture, k: nat, home: bool, i: nat)
    requires IsRunning(f) && NoOfficialPoints(f) && FirstStat(f, "bps", k)
    requires
      var (own, other) := if home then (f.stats[k].h, f.stats[k].a) else (f.stats[k].a, f.stats[k].h);
      OnlyRow(own, i) && !Lists(other, own[i].element)
    ensures
      var row := if home then f.stats[k].h[i] else f.stats[k].a[i];
      var better := Above(f.stats[k].h, row.value) + Above(f.stats[k].a, row.value);
      forall team :: Total([f], team, row.element) ==
        if team == (if home then f.teamH else f.teamA) && Worth(row) > 0 && better < 3 then 3 - better else 0
  {
    var h, a := f.stats[k].h, f.stats[k].a;
    var c := StatCandidates(f, "bps");
    var at := if home then i else |h| + i;
    StatRowsKeepTheirTeam(f, "bps", k);
    FirstStatIsFound(f.stats, "bps", k);
    NoOfficialRows(f);
    forall j | 0 <= j < |c| && j != at ensures c[j].elementId != c[at].elementId {
      if j < |h| {
        assert c[j].elementId == h[j].element;
      } else {
        assert c[|h| + (j - |h|)].elementId == a[j - |h|].element;
      }
    }
    UniqueElementBonus(c, at);
    OnlyCandidateNamesTheTeam(c, at);
    BetterConcat(Side(h, f.teamH), Side(a, f.teamA), c[at].value);
    SideAbove(h, f.teamH, c[at].value);
    SideAbove(a, f.teamA, c[at].value);
    forall team ensures Total([f], team, c[at].elementId) == GivenBy(f, team, c[at].elementId) {
      OneFixture(f, team, c[at].elementId);
    }
  }

  lemma {:induction false} TeamOfConcat(a: seq<Candidate>, b: seq<Candidate>, element: int)
    ensures TeamOf(a + b, element) == if TeamOf(b, element).Some? then TeamOf(b, element) else TeamOf(a, element)
  {
    if b == [] {
      assert a + b == a;
    } else {
      assert (a + b)[..|a + b| - 1] == a + b[..|b| - 1];
      TeamOfConcat(a, b[..|b| - 1], element);
    }
  }

  lemma {:induction false} TeamOfSide(rows: seq<StatRow>, team: int, element: int)
    ensures TeamOf(Side(rows, team), element) == if Lists(rows, element) then Some(team) else None
  {
    if rows != [] {
      var n := |rows| - 1;
      TeamOfSide(rows[..n], team, element);
      assert Side(rows, team)[..|Side(rows, team)| - 1] == Side(rows[..n], team);
      assert Lists(rows, element) <==> Lists(rows[..n], element) || rows[n].element == element by {
        if i :| 0 <= i < n && rows[i].element == element { assert rows[..n][i].element == element; }
      }
    }
  }

  /** However often an element is listed, its provisional points go to the team of its last row, away after home. */
  lemma ProvisionalPointsGoToOneTeam(f: Fixture, k: nat, element: int)
    requires IsRunning(f) && NoOfficialPoints(f) && FirstStat(f, "bps", k) && element > 0
    requires Lists(f.stats[k].h, element) || Lists(f.stats[k].a, element)
    ensures
      var own := if Lists(f.stats[k].a, element) then f.teamA else f.teamH;
      forall team :: Total([f], team, element) ==
        if team == own then BonusOf(StatCandidates(f, "bps"), element) else 0
  {
    LastSideNamesTheTeam(f, k, element);
    NoOfficialRows(f);
    forall team ensures Total([f], team, element) == GivenBy(f, team, element) { OneFixture(f, team, element); }
  }

  lemma LastSideNamesTheTeam(f: Fixture, k: nat, element: int)
    requires FirstStat(f, "bps", k) && (Lists(f.stats[k].h, element) || Lists(f.stats[k].a, element))
    ensures TeamOf(StatCandidates(f, "bps"), element) ==
      Some(if Lists(f.stats[k].a, element) then f.teamA else f.teamH)
  {
    FirstStatIsFound(f.stats, "bps", k);
    TeamOfConcat(Side(f.stats[k].h, f.teamH), Side(f.stats[k].a, f.teamA), element);
    TeamOfSide(f.stats[k].h, f.teamH, element);
    TeamOfSide(f.stats[k].a, f.teamA, element);
  }

  /** Nothing is given before kick-off, nor by a finished fixture without official rows. */
  lemma NoPointsOutsidePlay(f: Fixture, team: int, element: int)
    requires !HasBegun(f) || (!IsRunning(f) && NoOfficialPoints(f))
    ensures Total([f], team, element) == 0
  {
    OneFixture(f, team, element);
    if NoOfficialPoints(f) { NoOfficialRows(f); }
  }

  // ------------------------------------------------------ the sums per team

  type ByTeam = map<int, map<int, nat>>

  function Points(byTeam: ByTeam, team: int, element: int): nat {
    if team in byTeam && element in byTeam[team] then byTeam[team][element] else 0
  }

  /** An element is listed exactly when it has points. */
  ghost predicate Compact(byTeam: ByTeam) {
    forall team, element | team in byTeam && element in byTeam[team] :: byTeam[team][element] > 0
  }

  method AddBonus(byTeam: ByTeam, candidate: Candidate) returns (added: ByTeam)
    requires Compact(byTeam)
    ensures Compact(added)
    ensures forall t, e :: Points(added, t, e) == Points(byTeam, t, e) + AddedBy(candidate, t, e)
  {
    if candidate.elementId <= 0 || candidate.value <= 0 {
      return byTeam;
    }
    var team: map<int, nat> := if candidate.teamId in byTeam then byTeam[candidate.teamId] else map[];
    var points: nat := if candidate.elementId in team then team[candidate.elementId] else 0;
    team := team[candidate.elementId := points + candidate.value];
    added := byTeam[candidate.teamId := team];
  }

  method AddAll(byTeam: ByTeam, awards: seq<Candidate>) returns (added: ByTeam)
    requires Compact(byTeam)
    ensures Compact(added)
    ensures forall t, e :: Points(added, t, e) == Points(byTeam, t, e) + Added(awards, t, e)
  {
    added := byTeam;
    for i := 0 to |awards|
      invariant Compact(added)
      invariant forall t, e :: Points(added, t, e) == Points(byTeam, t, e) + Added(awards[..i], t, e)
    {
      assert awards[..i + 1][..i] == awards[..i];
      added := AddBonus(added, awards[i]);
    }
    assert awards[..|awards|] == awards;
  }

  method AddProvisional(byTeam: ByTeam, bps: seq<Candidate>) returns (added: ByTeam)
    requires Compact(byTeam)
    ensures Compact(added)
    ensures forall t, e :: Points(added, t, e) == Points(byTeam, t, e) + Provisional(bps, t, e)
  {
    var bonus := CalculateFixtureBonus(bps);
    added := byTeam;
    var rest := bonus.Keys;
    while rest != {}
      invariant Compact(added) && rest <= bonus.Keys
      invariant forall t, e | e in rest :: Points(added, t, e) == Points(byTeam, t, e)
      invariant forall t, e | e !in rest :: Points(added, t, e) == Points(byTeam, t, e) + Provisional(bps, t, e)
      decreases |rest|
    {
      ghost var some := Member(rest);
      var element :| element in rest;
      var team := TeamOf(bps, element);
      if team.Some? {
        var candidate := Candidate(element, team.value, bonus[element]);
        added := AddBonus(added, candidate);
      }
      rest := rest - {element};
    }
  }

  method ComputeFixtureSummedBonusByTeam(fixtures: seq<Fixture>) returns (byTeam: ByTeam)
    ensures Compact(byTeam)
    ensures forall t, e :: Points(byTeam, t, e) == Total(fixtures, t, e)
  {
    byTeam := map[];
    for i := 0 to |fixtures|
      invariant Compact(byTeam)
      invariant forall t, e :: Points(byTeam, t, e) == Total(fixtures[..i], t, e)
    {
      assert fixtures[..i + 1][..i] == fixtures[..i];
      byTeam := AddFixture(byTeam, fixtures[i]);
    }
    assert fixtures[..|fixtures|] == fixtures;
  }

  method AddFixture(byTeam: ByTeam, fixture: Fixture) returns (added: ByTeam)
    requires Compact(byTeam)
    ensures Compact(added)
    ensures forall t, e :: Points(added, t, e) == Points(byTeam, t, e) + GivenBy(fixture, t, e)
  {
    if !fixture.started && !fixture.finished && !fixture.finishedProvisional {
      return byTeam;
    }
    var official := Positive(StatCandidates(fixture, "bonus"));
    if |official| > 0 {
      added := AddAll(byTeam, official);
      return;
    }
    if fixture.finished || fixture.finishedProvisional {
      return byTeam;
    }
    added := AddProvisional(byTeam, StatCandidates(fixture, "bps"));
  }
}
