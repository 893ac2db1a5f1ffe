/**
 The structure plan of src/domain/tournament.ts and what an accepted plan
 promises about the knockout rows built from it.
 */
module StructurePlan {
  import opened Wrappers
  import opened Powers
  import opened BracketSeeding
  import opened KnockoutTree

  const LAST_EVENT := 38

  datatype GroupFormat = NoGroup | Points

  datatype KnockoutFormat = NoKnockout | SingleLeg | DoubleLeg

  /** The form fields the planner reads; text fields are given as the number they hold, if any. */
  datatype PlanInput = PlanInput(
    participants: nat,
    platformAdmin: bool,
    adminParticipates: bool,
    startGameweek: Option<int>,
    endGameweek: Option<int>,
    officialSource: bool,
    h2hLeague: bool,
    groupFormat: GroupFormat,
    knockoutFormat: KnockoutFormat,
    groupNum: Option<int>,
    qualifiersPerGroup: Option<int>,
    sourceStartEvent: Option<int>,
    sourceKnockoutRounds: Option<int>)

  datatype PlanError =
    | ParticipantsTooFew
    | AdminNotParticipant
    | GroupGameweeksInvalid
    | H2HWindowInvalid
    | QualifiersRequired
    | QualifyTotalExceeds
    | KnockoutInvalid
    | KnockoutExceedsSeason

  datatype Plan = Plan(
    groupTeamNum: nat,
    groupNum: nat,
    groupStartedEventId: int,
    groupEndedEventId: int,
    groupQualifyNum: Option<int>,
    hasKnockout: bool,
    knockout: TournamentConfig,
    knockoutRounds: Option<int>,
    knockoutEndedEventId: Option<int>)

  datatype PlanResult = Accepted(plan: Plan) | Rejected(error: PlanError)

  function ParseGameweek(value: Option<int>): Option<int> {
    if value.Some? && 1 <= value.value <= LAST_EVENT then value else None
  }

  function OptionalPositive(value: Option<int>): Option<int> {
    if value.Some? && value.value > 0 then value else None
  }

  function OfficialPlan(input: PlanInput, startEvent: int): PlanResult {
    var firstEvent := input.sourceStartEvent.GetOr(startEvent);
    var given := input.sourceKnockoutRounds.GetOr(0);
    var rounds: nat := if given > 0 then given else 0;
    var groupEnd := LAST_EVENT - rounds;
    if firstEvent > groupEnd then Rejected(H2HWindowInvalid)
    else if rounds > 0 then
      Accepted(Plan(input.participants, 1, firstEvent, groupEnd, None, true,
        TournamentConfig(Some(Pow2(rounds)), Some(rounds), Some(1), Some(groupEnd + 1)), Some(rounds),
          Some(LAST_EVENT)))
    else
      Accepted(Plan(input.participants, 1, firstEvent, groupEnd, None, false,
        TournamentConfig(None, None, None, None), None, None))
  }

  function Legs(format: KnockoutFormat): Option<int> {
    match format
    case NoKnockout => None
    case SingleLeg => Some(1)
    case DoubleLeg => Some(2)
  }

  /** The knockout field: every participant, or everyone who qualifies from a group. */
  function KnockoutTeams(input: PlanInput): Option<int> {
    if input.knockoutFormat.NoKnockout? then None
    else if input.groupFormat.Points? then
      Some(OptionalPositive(input.groupNum).GetOr(1) * OptionalPositive(input.qualifiersPerGroup).GetOr(0))
    else Some(input.participants)
  }

  function KnockoutEvents(teams: Option<int>): Option<int> {
    if teams.Some? && teams.value >= 2 then Some(CeilLog2(teams.value)) else None
  }

  function KnockoutRounds(format: KnockoutFormat, events: Option<int>): Option<int> {
    match format
    case NoKnockout => None
    case SingleLeg => events
    case DoubleLeg => Some(events.GetOr(0) * 2)
  }

  function KnockoutStart(input: PlanInput, groupStart: int, groupEnd: int): Option<int> {
    if input.knockoutFormat.NoKnockout? then None
    else if input.groupFormat.NoGroup? then Some(groupStart)
    else Some(groupEnd + 1)
  }

  /** Null, as in the source, for a missing or zero start or number of rounds. */
  function KnockoutEnd(start: Option<int>, rounds: Option<int>): Option<int> {
    if start.GetOr(0) == 0 || rounds.GetOr(0) == 0 then None
    else Some(start.value + if rounds.value > 1 then rounds.value - 1 else 0)
  }

  function CustomPlan(input: PlanInput, groupStart: int, groupEnd: int): PlanResult {
    var groupNum: nat := OptionalPositive(input.groupNum).GetOr(1);
    var qualifiers := OptionalPositive(input.qualifiersPerGroup);
    var teams := KnockoutTeams(input);
    var events := KnockoutEvents(teams);
    var rounds := KnockoutRounds(input.knockoutFormat, events);
    var start := KnockoutStart(input, groupStart, groupEnd);
    var end := KnockoutEnd(start, rounds);
    var knockout := !input.knockoutFormat.NoKnockout?;
    if input.groupFormat.Points? && knockout && qualifiers.None? then Rejected(QualifiersRequired)
    else if input.groupFormat.Points? && knockout && groupNum * qualifiers.GetOr(0) > input.participants then
      Rejected(QualifyTotalExceeds)
    else if knockout && (teams.GetOr(0) < 2 || events.GetOr(0) == 0) then Rejected(KnockoutInvalid)
    else if knockout && (end.GetOr(0) == 0 || end.value > LAST_EVENT) then Rejected(KnockoutExceedsSeason)
    else
      Accepted(Plan(
        if input.groupFormat.Points? then (input.participants + groupNum - 1) / groupNum else input.participants,
        if input.groupFormat.NoGroup? then 1 else groupNum,
        groupStart, groupEnd,
        if input.groupFormat.NoGroup? then None else qualifiers,
        knockout, TournamentConfig(teams, events, Legs(input.knockoutFormat), start), rounds, end))
  }

  function PlanTournamentStructure(input: PlanInput): PlanResult {
    var groupStart := ParseGameweek(input.startGameweek);
    var groupEnd := ParseGameweek(input.endGameweek);
    if input.participants < 2 then Rejected(ParticipantsTooFew)
    else if !input.platformAdmin && !input.adminParticipates then Rejected(AdminNotParticipant)
    else if groupStart.None? || groupEnd.None? || groupStart.value > groupEnd.value then Rejected(GroupGameweeksInvalid)
    else if input.officialSource && input.h2hLeague then OfficialPlan(input, groupStart.value)
    else CustomPlan(input, groupStart.value, groupEnd.value)
  }

  // ---------------------------------------------------- what an accepted plan is

  predicate IsOfficial(input: PlanInput) {
    input.officialSource && input.h2hLeague
  }

  ghost predicate KnockoutFits(plan: Plan, noGroup: bool, seeds: Option<seq<SeedPair>>) {
    && HasRows(plan.knockout)
    && var l := LayoutOf(plan.knockout, seeds);
    && 1 <= l.rounds == l.size && l.legs in {1, 2}
    && Some(Ended(l, l.rounds)) == plan.knockoutEndedEventId
    && Ended(l, l.rounds) <= LAST_EVENT
    && (plan.groupEndedEventId < l.start || (noGroup && l.start == plan.groupStartedEventId))
  }

  lemma OfficialKnockoutFits(input: PlanInput, start: int, seeds: Option<seq<SeedPair>>)
    requires OfficialPlan(input, start).Accepted? && OfficialPlan(input, start).plan.hasKnockout
    ensures KnockoutFits(OfficialPlan(input, start).plan, input.groupFormat.NoGroup?, seeds)
      <==> input.sourceKnockoutRounds.value <= LAST_EVENT
  {
    var rounds: nat := input.sourceKnockoutRounds.value;
    CeilLog2IsUnique(Pow2(rounds), rounds);
    Pow2Exceeds(rounds);
  }

  lemma CustomKnockoutFits(input: PlanInput, start: int, end: int, seeds: Option<seq<SeedPair>>)
    requires 1 <= start <= end <= LAST_EVENT
    requires CustomPlan(input, start, end).Accepted? && CustomPlan(input, start, end).plan.hasKnockout
    ensures KnockoutFits(CustomPlan(input, start, end).plan, input.groupFormat.NoGroup?, seeds)
  {
    var plan := CustomPlan(input, start, end).plan;
    var events := plan.knockout.knockoutEventNum.value;
    assert events == CeilLog2(plan.knockout.knockoutTeamNum.value) >= 1;
    assert plan.knockoutEndedEventId
      == Some(plan.knockout.knockoutStartedEventId.value + plan.knockoutRounds.value - 1);
  }

  /**
   An accepted knockout has a full tree - as many rounds as its field needs, a
   start after the group phase, a last window closing at the planned end, GW38
   at the latest - if and only if it is not an official one of more rounds than
   the season has gameweeks.
   */
  lemma AcceptedKnockoutFitsTheSeason(input: PlanInput, seeds: Option<seq<SeedPair>>)
    requires PlanTournamentStructure(input).Accepted? && PlanTournamentStructure(input).plan.hasKnockout
    ensures KnockoutFits(PlanTournamentStructure(input).plan, input.groupFormat.NoGroup?, seeds)
      <==> !IsOfficial(input) || input.sourceKnockoutRounds.value <= LAST_EVENT
    ensures HasRows(PlanTournamentStructure(input).plan.knockout)
      <==> !IsOfficial(input) || input.sourceKnockoutRounds.value <= LAST_EVENT
  {
    if IsOfficial(input) {
      OfficialKnockoutFits(input, input.startGameweek.value, seeds);
      Pow2Exceeds(input.sourceKnockoutRounds.value);
    } else {
      CustomKnockoutFits(input, input.startGameweek.value, input.endGameweek.value, seeds);
    }
  }

  /**
   Leagues whose first event is a gameweek, as the league schema demands, always fit: their rounds leave it a group
   event.
   */
  lemma LeagueInSeasonFits(input: PlanInput, seeds: Option<seq<SeedPair>>)
    requires PlanTournamentStructure(input).Accepted? && PlanTournamentStructure(input).plan.hasKnockout
    requires input.sourceStartEvent.Some? ==> 1 <= input.sourceStartEvent.value <= LAST_EVENT
    ensures KnockoutFits(PlanTournamentStructure(input).plan, input.groupFormat.NoGroup?, seeds)
  {
    AcceptedKnockoutFitsTheSeason(input, seeds);
    if IsOfficial(input) { OfficialLeavesGroupEvent(input, input.startGameweek.value); }
  }

  lemma OfficialLeavesGroupEvent(input: PlanInput, start: int)
    requires start >= 1 && (input.sourceStartEvent.Some? ==> input.sourceStartEvent.value >= 1)
    requires OfficialPlan(input, start).Accepted? && OfficialPlan(input, start).plan.hasKnockout
    ensures 1 <= input.sourceKnockoutRounds.value < LAST_EVENT
  {
  }

  /**
   The planner itself does not check that: alone, it accepts a league that starts before GW1, with a knockout that has
   no rows.
   */
  lemma PlanBeforeTheSeasonIsAccepted(seeds: Option<seq<SeedPair>>)
    ensures
      var input := LeagueBeforeTheSeason();
      var result := PlanTournamentStructure(input);
      && result.Accepted? && result.plan.hasKnockout && result.plan.knockoutEndedEventId == Some(LAST_EVENT)
      && !HasRows(result.plan.knockout) && !KnockoutFits(result.plan, true, seeds)
  {
    AcceptedKnockoutFitsTheSeason(LeagueBeforeTheSeason(), seeds);
  }

  function LeagueBeforeTheSeason(): PlanInput {
    PlanInput(2, true, false, Some(1), Some(38), true, true, NoGroup, NoKnockout, None, None, Some(-5), Some(39))
  }

  /** The match rows built from an accepted plan. */
  function PlannedMatches(input: PlanInput, seeds: Option<seq<SeedPair>>): seq<MatchRow>
    requires PlanTournamentStructure(input).Accepted? && PlanTournamentStructure(input).plan.hasKnockout
    requires HasRows(PlanTournamentStructure(input).plan.knockout)
  {
    AcceptedKnockoutFitsTheSeason(input, seeds);
    Matches(LayoutOf(PlanTournamentStructure(input).plan.knockout, seeds))
  }

  /**
   So every match of every accepted plan with rows is played inside the season, and only the final closes the plan.
   */
  lemma PlannedMatchesStayInSeason(input: PlanInput, seeds: Option<seq<SeedPair>>, m: nat)
    requires PlanTournamentStructure(input).Accepted? && PlanTournamentStructure(input).plan.hasKnockout
    requires HasRows(PlanTournamentStructure(input).plan.knockout)
    requires m < |PlannedMatches(input, seeds)|
    ensures
      var rows := PlannedMatches(input, seeds);
      var end := PlanTournamentStructure(input).plan.knockoutEndedEventId;
      && end.Some? && 1 <= rows[m].startedEventId <= rows[m].endedEventId <= end.value <= LAST_EVENT
      && (rows[m].endedEventId == end.value <==> m == |rows| - 1)
  {
    AcceptedKnockoutFitsTheSeason(input, seeds);
    MatchesStayInWindows(LayoutOf(PlanTournamentStructure(input).plan.knockout, seeds), m);
  }

  lemma MatchesStayInWindows(l: Layout, m: nat)
    requires 1 <= l.rounds == l.size && l.legs >= 1 && m < |Matches(l)|
    ensures l.start <= Matches(l)[m].startedEventId <= Matches(l)[m].endedEventId <= Ended(l, l.rounds)
    ensures Matches(l)[m].endedEventId == Ended(l, l.rounds) <==> m == |Matches(l)| - 1
  {
    var r, j := RowAt(l, m);
    MatchIsFinal(l, m);
    MatchIdsAreConsecutive(l);
    if r < l.rounds { LaterRoundsStartLater(l, r, l.rounds); }
    if r > 1 { LaterRoundsStartLater(l, 1, r); }
  }

  /**
   Rounds of `legs` events fit into `events` exactly when the field is at most two to the number of rounds that fit.
   */
  lemma FieldFits(teams: nat, legs: nat, events: nat)
    requires teams >= 2 && (legs == 1 || legs == 2)
    ensures CeilLog2(teams) * legs <= events <==> teams <= Pow2(events / legs)
  {
    var c := CeilLog2(teams);
    var fit := events / legs;
    assert c * legs <= events <==> c <= fit;
    if c <= fit { Pow2Monotone(c, fit); } else { Pow2Monotone(fit, c - 1); }
  }

  predicate GameweeksValid(input: PlanInput) {
    && ParseGameweek(input.startGameweek).Some? && ParseGameweek(input.endGameweek).Some?
    && input.startGameweek.value <= input.endGameweek.value
  }

  /** The rounds an official league brings with it. */
  function SourceRounds(input: PlanInput): nat {
    if input.sourceKnockoutRounds.GetOr(0) > 0 then input.sourceKnockoutRounds.value else 0
  }

  /**
   Exactly the accepted forms: enough participants, an admin, valid gameweeks,
   and either an official league that starts while group events are left, no
   knockout at all, or a knockout whose field is real and fits in the
   gameweeks left.
   */
  lemma AcceptedIffFieldFits(input: PlanInput)
    ensures PlanTournamentStructure(input).Accepted? <==>
      && input.participants >= 2
      && (input.platformAdmin || input.adminParticipates)
      && GameweeksValid(input)
      && (if IsOfficial(input) then
            input.sourceStartEvent.GetOr(input.startGameweek.value) + SourceRounds(input) <= LAST_EVENT
          else
            input.knockoutFormat.NoKnockout?
            || (&& (input.groupFormat.Points? ==> OptionalPositive(input.qualifiersPerGroup).Some?)
                && 2 <= KnockoutTeams(input).value <= input.participants
                && KnockoutTeams(input).value <= Pow2(EventsLeft(input) / Legs(input.knockoutFormat).value)))
  {
    if && GameweeksValid(input) && !IsOfficial(input) && !input.knockoutFormat.NoKnockout?
       && input.participants >= 2 && 2 <= KnockoutTeams(input).value {
      FieldFits(KnockoutTeams(input).value, Legs(input.knockoutFormat).value, EventsLeft(input));
    }
  }

  /** Gameweeks from the first that the knockout may use to the end of the season. */
  function EventsLeft(input: PlanInput): (n: nat)
    requires ParseGameweek(input.startGameweek).Some? && ParseGameweek(input.endGameweek).Some?
  {
    if input.groupFormat.NoGroup? then LAST_EVENT + 1 - input.startGameweek.value
      else LAST_EVENT - input.endGameweek.value
  }

  /** An accepted plan that names qualifiers has room for them in every group's share of the field. */
  lemma QualifiersFitTheField(input: PlanInput)
    requires PlanTournamentStructure(input).Accepted? && PlanTournamentStructure(input).plan.hasKnockout
    requires PlanTournamentStructure(input).plan.groupQualifyNum.Some?
    ensures var plan := PlanTournamentStructure(input).plan;
      && plan.groupNum >= 1 && plan.groupQualifyNum.value >= 1
      && plan.groupQualifyNum.value * plan.groupNum <= input.participants
      && plan.groupTeamNum == (input.participants + plan.groupNum - 1) / plan.groupNum
  {
    var plan := PlanTournamentStructure(input).plan;
    assert !(input.officialSource && input.h2hLeague);
    assert input.groupFormat.Points?;
    assert plan.groupNum * plan.groupQualifyNum.value <= input.participants;
  }

  /** Whether a league or a form asks for a knockout. */
  predicate WantsKnockout(input: PlanInput) {
    if IsOfficial(input) then SourceRounds(input) > 0 else !input.knockoutFormat.NoKnockout?
  }

  /** The number of teams in the knockout that was asked for. */
  function FieldOf(input: PlanInput): nat {
    if IsOfficial(input) then Pow2(SourceRounds(input))
    else if input.groupFormat.NoGroup? then input.participants
    else OptionalPositive(input.groupNum).GetOr(1) * OptionalPositive(input.qualifiersPerGroup).GetOr(0)
  }

  /**
   The phases of an accepted plan. The group phase runs over the requested gameweeks, or in an official league from its
   first event to the last its knockout leaves free. A knockout follows it at once - without groups it takes their
   place - with the requested field, and ends with its last leg.
   */
  lemma AcceptedPhasesFollowTheForm(input: PlanInput)
    requires PlanTournamentStructure(input).Accepted?
    ensures
      var plan := PlanTournamentStructure(input).plan;
      var groups := IsOfficial(input) || input.groupFormat.Points?;
      var legs := if IsOfficial(input) || input.knockoutFormat.SingleLeg? then 1 else 2;
      var first, last := input.startGameweek.value, input.endGameweek.value;
      && plan.hasKnockout == WantsKnockout(input)
      && plan.groupStartedEventId == (if IsOfficial(input) then input.sourceStartEvent.GetOr(first) else first)
      && plan.groupEndedEventId == (if IsOfficial(input) then LAST_EVENT - SourceRounds(input) else last)
      && (plan.hasKnockout ==>
            && plan.knockout.knockoutTeamNum == Some(FieldOf(input))
            && plan.knockout.knockoutEventNum == Some(CeilLog2(FieldOf(input)))
            && plan.knockoutRounds == Some(legs * CeilLog2(FieldOf(input)))
            && plan.knockout.knockoutPlayAgainstNum == Some(legs)
            && plan.knockout.knockoutStartedEventId == Some(if groups then plan.groupEndedEventId + 1 else first)
            && plan.knockoutEndedEventId
               == Some(plan.knockout.knockoutStartedEventId.value + legs * CeilLog2(FieldOf(input)) - 1))
      && (!plan.hasKnockout ==>
            && plan.knockout == TournamentConfig(None, None, None, None)
            && plan.knockoutRounds.None? && plan.knockoutEndedEventId.None?)
  {
    if IsOfficial(input) {
      CeilLog2IsUnique(Pow2(SourceRounds(input)), SourceRounds(input));
    } else if WantsKnockout(input) {
      AcceptedIffFieldFits(input);
      assert CeilLog2(FieldOf(input)) >= 1;
    }
  }

  /** Groups as requested, one if nothing was, and qualifiers only where there are groups. */
  lemma AcceptedGroupsFollowTheForm(input: PlanInput)
    requires PlanTournamentStructure(input).Accepted?
    ensures
      var plan := PlanTournamentStructure(input).plan;
      if IsOfficial(input) || input.groupFormat.NoGroup? then
        plan.groupNum == 1 && plan.groupTeamNum == input.participants && plan.groupQualifyNum.None?
      else
        && plan.groupNum == (if input.groupNum.GetOr(0) > 0 then input.groupNum.value else 1)
        && plan.groupNum * (plan.groupTeamNum - 1) < input.participants <= plan.groupNum * plan.groupTeamNum
        && plan.groupQualifyNum ==
             (if input.qualifiersPerGroup.GetOr(0) > 0 then input.qualifiersPerGroup else None)
  {
    var plan := PlanTournamentStructure(input).plan;
    if !IsOfficial(input) && input.groupFormat.Points? {
      var groups: nat := OptionalPositive(input.groupNum).GetOr(1);
      assert plan.groupTeamNum == (input.participants + groups - 1) / groups;
      CeilDivision(input.participants, groups);
    }
  }

  lemma CeilDivision(n: nat, d: nat)
    requires d > 0 && n > 0
    ensures d * ((n + d - 1) / d - 1) < n <= d * ((n + d - 1) / d)
  {
    var q := (n + d - 1) / d;
    assert n + d - 1 == d * q + (n + d - 1) % d;
    assert d * (q - 1) == d * q - d;
  }

  /** The form passes the checks before the one on the phases. */
  predicate FormIsComplete(input: PlanInput) {
    input.participants >= 2 && (input.platformAdmin || input.adminParticipates) && GameweeksValid(input)
  }

  /** A group phase that feeds a knockout. */
  predicate HasQualification(input: PlanInput) {
    !IsOfficial(input) && input.groupFormat.Points? && !input.knockoutFormat.NoKnockout?
  }

  /** Each rejection names the first thing that is wrong. */
  lemma RejectionNamesTheFirstFault(input: PlanInput)
    ensures
      var result := PlanTournamentStructure(input);
      var qualifiers := input.qualifiersPerGroup.GetOr(0);
      var custom := FormIsComplete(input) && !IsOfficial(input) && !input.knockoutFormat.NoKnockout?;
      var qualified := HasQualification(input) ==> qualifiers > 0 && FieldOf(input) <= input.participants;
      && (result == Rejected(ParticipantsTooFew) <==> input.participants < 2)
      && (result == Rejected(AdminNotParticipant) <==>
            input.participants >= 2 && !input.platformAdmin && !input.adminParticipates)
      && (result == Rejected(GroupGameweeksInvalid) <==>
            && input.participants >= 2 && (input.platformAdmin || input.adminParticipates)
            && !GameweeksValid(input))
      && (result == Rejected(H2HWindowInvalid) <==>
            && FormIsComplete(input) && IsOfficial(input)
            && input.sourceStartEvent.GetOr(input.startGameweek.value) + SourceRounds(input) > LAST_EVENT)
      && (result == Rejected(QualifiersRequired) <==>
            FormIsComplete(input) && HasQualification(input) && qualifiers <= 0)
      && (result == Rejected(QualifyTotalExceeds) <==>
            && FormIsComplete(input) && HasQualification(input) && qualifiers > 0
            && FieldOf(input) > input.participants)
      && (result == Rejected(KnockoutInvalid) <==> custom && qualified && FieldOf(input) < 2)
      && (result == Rejected(KnockoutExceedsSeason) <==>
            && custom && qualified && FieldOf(input) >= 2
            && FieldOf(input) > Pow2(EventsLeft(input) / (if input.knockoutFormat.SingleLeg? then 1 else 2)))
  {
    AcceptedIffFieldFits(input);
  }
}
