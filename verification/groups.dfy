/** Group assignment of src/domain/tournament.ts: entries sorted by rank, then dealt out in a snake. */
module SnakeGroups {
  import opened Wrappers
  import opened StructurePlan

  const MAX_RANK := 2147483647

  datatype EntrySeed = EntrySeed(entryId: int, overallRank: Option<int>)

  datatype GroupRow = GroupRow(groupId: nat, groupName: string, groupIndex: nat, entryId: int, overallRank: Option<int>)

  // ------------------------------------------------------------------ sorting

  predicate Before(a: EntrySeed, b: EntrySeed) {
    var left, right := a.overallRank.GetOr(MAX_RANK), b.overallRank.GetOr(MAX_RANK);
    left < right || (left == right && a.entryId <= b.entryId)
  }

  ghost predicate Ordered(s: seq<EntrySeed>) {
    forall i, j | 0 <= i < j < |s| :: Before(s[i], s[j])
  }

  /** The place a stable sort gives an entry that comes after every entry of `s`. */
  function Insert(s: seq<EntrySeed>, e: EntrySeed): (r: seq<EntrySeed>)
    ensures |r| == |s| + 1
    ensures multiset(r) == multiset(s) + multiset{e}
  {
    if s == [] then [e]
    else
      var last := s[|s| - 1];
      assert s == s[..|s| - 1] + [last];
      if Before(last, e) then s + [e] else Insert(s[..|s| - 1], e) + [last]
  }

  lemma {:induction false} InsertKeepsOrder(s: seq<EntrySeed>, e: EntrySeed)
    requires Ordered(s)
    ensures Ordered(Insert(s, e))
  {
    if s != [] && !Before(s[|s| - 1], e) {
      var init, last := s[..|s| - 1], s[|s| - 1];
      InsertKeepsOrder(init, e);
      var r := Insert(init, e);
      forall i | 0 <= i < |r| ensures Before(r[i], last) {
        assert r[i] in multiset(r);
        assert r[i] == e || r[i] in init;
      }
    }
  }

  function SortEntrySeeds(entries: seq<EntrySeed>): (r: seq<EntrySeed>)
    ensures multiset(r) == multiset(entries) && |r| == |entries|
  {
    if entries == [] then []
    else
      var n := |entries| - 1;
      assert entries == entries[..n] + [entries[n]];
      Insert(SortEntrySeeds(entries[..n]), entries[n])
  }

  lemma {:induction false} SortedSeedsAreOrdered(entries: seq<EntrySeed>)
    ensures Ordered(SortEntrySeeds(entries))
  {
    if entries != [] {
      var n := |entries| - 1;
      SortedSeedsAreOrdered(entries[..n]);
      InsertKeepsOrder(SortEntrySeeds(entries[..n]), entries[n]);
    }
  }

  /** The sorted list has better ranks first, equal ranks by ascending id, and a missing rank counts as the worst. */
  lemma SortedByRankThenId(entries: seq<EntrySeed>, i: nat, j: nat)
    requires i < j < |entries|
    ensures
      var a, b := SortEntrySeeds(entries)[i], SortEntrySeeds(entries)[j];
      var left := if a.overallRank.Some? then a.overallRank.value else 2147483647;
      var right := if b.overallRank.Some? then b.overallRank.value else 2147483647;
      left <= right && (left == right ==> a.entryId <= b.entryId)
  {
    SortedSeedsAreOrdered(entries);
    assert Before(SortEntrySeeds(entries)[i], SortEntrySeeds(entries)[j]);
  }

  // -------------------------------------------------------------- the dealing

  /** Odd rows of the snake run backwards; turning a place twice gives it back. */
  function Turned(g: nat, place: nat, row: nat): (t: nat)
    requires place < g
    ensures t < g
  {
    if row % 2 == 0 then place else g - place - 1
  }

  function GroupOf(index: nat, g: nat): (group: nat)
    requires g >= 1
    ensures group < g
  {
    Turned(g, index % g, index / g)
  }

  function Push<T>(groups: seq<seq<T>>, group: nat, x: T): (r: seq<seq<T>>)
    requires group < |groups|
    ensures |r| == |groups|
  {
    groups[group := groups[group] + [x]]
  }

  /** The groups after every entry of `ordered` has been dealt. */
  function Deal<T>(ordered: seq<T>, g: nat): (groups: seq<seq<T>>)
    requires g >= 1
    ensures |groups| == g
  {
    if ordered == [] then Empties(g)
    else
      var n := |ordered| - 1;
      Push(Deal(ordered[..n], g), GroupOf(n, g), ordered[n])
  }

  function Empties<T>(g: nat): (groups: seq<seq<T>>)
    ensures |groups| == g && forall i | 0 <= i < g :: groups[i] == []
  {
    if g == 0 then [] else Empties(g - 1) + [[]]
  }

  /** The sort position dealt to slot `slot` of group `group`. */
  function IndexAt(g: nat, group: nat, slot: nat): (index: nat)
    requires group < g
  {
    slot * g + Turned(g, group, slot)
  }

  /** How many of the first n positions a group receives. */
  function Size(n: nat, g: nat, group: nat): (size: nat)
    requires group < g
  {
    n / g + if IndexAt(g, group, n / g) < n then 1 else 0
  }

  lemma Divides(n: nat, g: nat, c: nat, o: nat)
    requires o < g && n == c * g + o
    ensures n / g == c && n % g == o
  {
    var q := n / g;
    assert n == q * g + n % g;
    if q < c { NextMultiple(q, c, g); }
    if c < q { NextMultiple(c, q, g); }
  }

  lemma {:induction false} NextMultiple(a: nat, b: nat, g: nat)
    requires a < b
    ensures a * g + g <= b * g
  {
    assert b * g == (b - 1) * g + g;
    if a < b - 1 { NextMultiple(a, b - 1, g); }
  }

  /** A slot's position belongs to that group and slot. */
  lemma IndexAtInverts(g: nat, group: nat, slot: nat)
    requires group < g
    ensures IndexAt(g, group, slot) / g == slot
    ensures GroupOf(IndexAt(g, group, slot), g) == group
  {
    Divides(IndexAt(g, group, slot), g, slot, Turned(g, group, slot));
  }

  /** And a position's group and slot lead back to it. */
  lemma GroupOfInverts(g: nat, n: nat)
    requires g >= 1
    ensures IndexAt(g, GroupOf(n, g), n / g) == n
  {
    assert n == (n / g) * g + n % g;
  }

  /** The size of a group while row `row` is being dealt, its first `dealt` places done. */
  lemma SizeInRow(g: nat, group: nat, row: nat, dealt: nat)
    requires group < g && dealt <= g
    ensures Size(row * g + dealt, g, group) == row + if Turned(g, group, row) < dealt then 1 else 0
  {
    if dealt < g {
      Divides(row * g + dealt, g, row, dealt);
    } else {
      assert (row + 1) * g == row * g + g;
      Divides(row * g + dealt, g, row + 1, 0);
    }
  }

  /** Dealing position n adds one to the size of its group and of no other. */
  lemma SizeGrows(n: nat, g: nat, group: nat)
    requires group < g
    ensures Size(n + 1, g, group) == Size(n, g, group) + if group == GroupOf(n, g) then 1 else 0
    ensures group == GroupOf(n, g) ==> Size(n, g, group) == n / g
  {
    var row, place := n / g, n % g;
    assert n == row * g + place;
    SizeInRow(g, group, row, place);
    SizeInRow(g, group, row, place + 1);
  }

  /** Slot by slot, what every group holds after the deal. */
  lemma {:induction false} DealtSlots<T>(ordered: seq<T>, g: nat)
    requires g >= 1
    ensures forall group | 0 <= group < g :: |Deal(ordered, g)[group]| == Size(|ordered|, g, group)
    ensures forall group, slot | 0 <= group < g && 0 <= slot < |Deal(ordered, g)[group]| ::
      IndexAt(g, group, slot) < |ordered| && Deal(ordered, g)[group][slot] == ordered[IndexAt(g, group, slot)]
  {
    if ordered == [] {
      forall group | 0 <= group < g ensures Size(0, g, group) == 0 {
        Divides(0, g, 0, 0);
      }
    } else {
      var n := |ordered| - 1;
      DealtSlots(ordered[..n], g);
      GroupOfInverts(g, n);
      forall group | 0 <= group < g
        ensures |Deal(ordered, g)[group]| == Size(|ordered|, g, group)
      {
        SizeGrows(n, g, group);
      }
      SizeGrows(n, g, GroupOf(n, g));
    }
  }

  lemma DealtAt<T>(ordered: seq<T>, g: nat, group: nat, slot: nat)
    requires group < g && slot < Size(|ordered|, g, group)
    ensures slot < |Deal(ordered, g)[group]| && IndexAt(g, group, slot) < |ordered|
    ensures Deal(ordered, g)[group][slot] == ordered[IndexAt(g, group, slot)]
  {
    DealtSlots(ordered, g);
  }

  /** Each sort position sits in the slot of its own row and group... */
  lemma EveryEntryHasASlot<T>(ordered: seq<T>, g: nat, index: nat) returns (group: nat, slot: nat)
    requires g >= 1 && index < |ordered|
    ensures group == GroupOf(index, g) && slot == index / g
    ensures slot < |Deal(ordered, g)[group]| && Deal(ordered, g)[group][slot] == ordered[index]
  {
    group, slot := GroupOf(index, g), index / g;
    GroupOfInverts(g, index);
    SlotIsFilled(|ordered|, g, index);
    DealtAt(ordered, g, group, slot);
  }

  lemma SlotHolds<T>(ordered: seq<T>, g: nat, group: nat, slot: nat)
    requires group < g
    ensures slot < |Deal(ordered, g)[group]| ==>
      IndexAt(g, group, slot) < |ordered| && Deal(ordered, g)[group][slot] == ordered[IndexAt(g, group, slot)]
  {
    DealtSlots(ordered, g);
  }

  /** ...and in no other: the deal is a bijection between positions and slots. */
  lemma EverySlotHoldsOneEntry<T>(ordered: seq<T>, g: nat, group: nat, slot: nat)
    requires group < g
    ensures slot < |Deal(ordered, g)[group]| ==>
      IndexAt(g, group, slot) < |ordered| && Deal(ordered, g)[group][slot] == ordered[IndexAt(g, group, slot)]
    ensures forall index | 0 <= index < |ordered| ::
      group == GroupOf(index, g) && slot == index / g <==> index == IndexAt(g, group, slot)
  {
    SlotHolds(ordered, g, group, slot);
    IndexAtInverts(g, group, slot);
    forall index | 0 <= index < |ordered|
      ensures group == GroupOf(index, g) && slot == index / g <==> index == IndexAt(g, group, slot)
    {
      GroupOfInverts(g, index);
    }
  }

  /** Even rows of the snake run from the first group to the last, odd rows back. */
  lemma SnakeTurnsEachRow<T>(ordered: seq<T>, g: nat, group: nat, slot: nat)
    requires group < g && slot < |Deal(ordered, g)[group]|
    ensures
      var index := slot * g + if slot % 2 == 0 then group else g - 1 - group;
      index < |ordered| && Deal(ordered, g)[group][slot] == ordered[index]
  {
    SlotHolds(ordered, g, group, slot);
  }

  lemma SlotIsFilled(n: nat, g: nat, index: nat)
    requires g >= 1 && index < n
    ensures index / g < Size(n, g, GroupOf(index, g))
  {
    GroupOfInverts(g, index);
    QuotientMonotone(index, n, g);
  }

  lemma QuotientMonotone(a: nat, b: nat, g: nat)
    requires g >= 1 && a <= b
    ensures a / g <= b / g
  {
    var p, q := a / g, b / g;
    assert a == p * g + a % g && b == q * g + b % g;
    if q < p { NextMultiple(q, p, g); }
  }

  /** Sizes are the floor or the ceiling of n / g, so they differ by at most one. */
  lemma SizesAreBalanced<T>(ordered: seq<T>, g: nat, group: nat)
    requires group < g
    ensures |ordered| / g <= |Deal(ordered, g)[group]| <= (|ordered| + g - 1) / g <= |ordered| / g + 1
  {
    DealtSlots(ordered, g);
    var n := |ordered|;
    var c, o := n / g, n % g;
    assert n == c * g + o;
    assert (c + 1) * g == c * g + g;
    if o == 0 { Divides(n + g - 1, g, c, g - 1); } else { Divides(n + g - 1, g, c + 1, o - 1); }
  }

  /** Every accepted plan with a group stage leaves each group at least as many entries as it must qualify. */
  lemma EveryGroupCanQualify<T>(input: PlanInput, ordered: seq<T>, group: nat)
    requires PlanTournamentStructure(input).Accepted? && PlanTournamentStructure(input).plan.hasKnockout
    requires PlanTournamentStructure(input).plan.groupQualifyNum.Some? && |ordered| == input.participants
    requires group < PlanTournamentStructure(input).plan.groupNum
    ensures var plan := PlanTournamentStructure(input).plan;
      plan.groupQualifyNum.value <= |Deal(ordered, plan.groupNum)[group]| <= plan.groupTeamNum
  {
    var plan := PlanTournamentStructure(input).plan;
    QualifiersFitTheField(input);
    SizesAreBalanced(ordered, plan.groupNum, group);
    QuotientAtLeast(plan.groupQualifyNum.value, plan.groupNum, |ordered|);
  }

  lemma QuotientAtLeast(q: nat, g: nat, n: nat)
    requires g >= 1 && q * g <= n
    ensures q <= n / g
  {
    Divides(q * g, g, q, 0);
    QuotientMonotone(q * g, n, g);
  }

  // ------------------------------------------------------- fairness of seeds

  function Positions(n: nat): (s: seq<int>)
    ensures |s| == n && forall i | 0 <= i < n :: s[i] == i + 1
  {
    if n == 0 then [] else Positions(n - 1) + [n]
  }

  function Sum(s: seq<int>): int {
    if s == [] then 0 else Sum(s[..|s| - 1]) + s[|s| - 1]
  }

  /** Two rows of the snake give every group the same total. */
  lemma {:induction false} PairsOfRowsAreFair(g: nat, a: nat, b: nat, s: seq<int>, t: seq<int>, pairs: nat)
    requires a < g && b < g && |s| == |t| == 2 * pairs
    requires forall slot | 0 <= slot < |s| :: s[slot] == IndexAt(g, a, slot) + 1
    requires forall slot | 0 <= slot < |t| :: t[slot] == IndexAt(g, b, slot) + 1
    ensures Sum(s) == Sum(t)
  {
    if pairs > 0 {
      var n := |s| - 2;
      PairsOfRowsAreFair(g, a, b, s[..n], t[..n], pairs - 1);
      LastTwo(s);
      LastTwo(t);
      RowPair(g, a, n);
      RowPair(g, b, n);
    }
  }

  lemma RowPair(g: nat, group: nat, slot: nat)
    requires group < g && slot % 2 == 0
    ensures IndexAt(g, group, slot) + IndexAt(g, group, slot + 1) == 2 * (slot * g) + 2 * g - 1
    ensures Turned(g, group, slot) + Turned(g, group, slot + 1) == g - 1
  {
    assert (slot + 1) * g == slot * g + g;
  }

  lemma LastTwo(s: seq<int>)
    requires |s| >= 2
    ensures Sum(s) == Sum(s[..|s| - 2]) + s[|s| - 2] + s[|s| - 1]
  {
    assert s[..|s| - 1][..|s| - 2] == s[..|s| - 2];
  }

  /** When the field is a multiple of twice the group count, all groups have the same total of seed positions. */
  lemma SeedTotalsAreEqual(n: nat, g: nat, pairs: nat, a: nat, b: nat)
    requires a < g && b < g && n == 2 * pairs * g
    ensures Sum(Deal(Positions(n), g)[a]) == Sum(Deal(Positions(n), g)[b])
  {
    DealtSlots(Positions(n), g);
    Divides(n, g, 2 * pairs, 0);
    PairsOfRowsAreFair(g, a, b, Deal(Positions(n), g)[a], Deal(Positions(n), g)[b], pairs);
  }

  // ------------------------------------------------------------------ the rows

  function GroupNameForIndex(index: nat): string {
    if index < 26 then [('A' as int + index) as char] else "Group " + Decimal(index + 1)
  }

  function Decimal(n: nat): string {
    var digit := ('0' as int + n % 10) as char;
    if n < 10 then [digit] else Decimal(n / 10) + [digit]
  }

  /** The number a string of digits stands for. */
  function ValueOf(digits: string): int {
    if digits == "" then 0 else 10 * ValueOf(digits[..|digits| - 1]) + (digits[|digits| - 1] as int - '0' as int)
  }

  lemma {:induction false} DecimalIsRead(n: nat)
    ensures ValueOf(Decimal(n)) == n && Decimal(n) != ""
    ensures forall i | 0 <= i < |Decimal(n)| :: '0' <= Decimal(n)[i] <= '9'
    ensures n > 0 ==> Decimal(n)[0] != '0'
  {
    if n >= 10 {
      DecimalIsRead(n / 10);
      assert (Decimal(n / 10) + [Decimal(n)[|Decimal(n)| - 1]])[..|Decimal(n / 10)|] == Decimal(n / 10);
    } else {
      assert Decimal(n)[..0] == "";
    }
  }

  /** Groups are called A to Z, then by their number. */
  lemma GroupNames(index: nat)
    ensures
      var name := GroupNameForIndex(index);
      if index < 26 then |name| == 1 && name[0] as int == 'A' as int + index
      else |name| > 6 && name[..6] == "Group " && ValueOf(name[6..]) == index + 1
  {
    DecimalIsRead(index + 1);
    if index >= 26 { assert GroupNameForIndex(index)[6..] == Decimal(index + 1); }
  }

  /** No two groups share a name. */
  lemma GroupNamesAreDistinct(a: nat, b: nat)
    requires a != b
    ensures GroupNameForIndex(a) != GroupNameForIndex(b)
  {
    GroupNames(a);
    GroupNames(b);
  }

  function RowFor(group: nat, slot: nat, entry: EntrySeed): GroupRow {
    GroupRow(group + 1, GroupNameForIndex(group), slot + 1, entry.entryId, entry.overallRank)
  }

  function GroupRows(group: nat, members: seq<EntrySeed>): (rows: seq<GroupRow>)
    ensures |rows| == |members|
    ensures forall slot | 0 <= slot < |rows| :: rows[slot] == RowFor(group, slot, members[slot])
  {
    if members == [] then []
    else
      var n := |members| - 1;
      GroupRows(group, members[..n]) + [RowFor(group, n, members[n])]
  }

  function AllRows(groups: seq<seq<EntrySeed>>): seq<GroupRow> {
    if groups == [] then []
    else
      var n := |groups| - 1;
      AllRows(groups[..n]) + GroupRows(n, groups[n])
  }

  method DealIntoGroups(ordered: seq<EntrySeed>, groupCount: nat) returns (groups: seq<seq<EntrySeed>>)
    requires groupCount >= 1
    ensures groups == Deal(ordered, groupCount)
  {
    groups := Empties(groupCount);
    for index := 0 to |ordered|
      invariant groups == Deal(ordered[..index], groupCount)
    {
      var cycle, offset := index / groupCount, index % groupCount;
      var groupIndex := if cycle % 2 == 0 then offset else groupCount - offset - 1;
      assert groupIndex == GroupOf(index, groupCount);
      assert ordered[..index + 1][..index] == ordered[..index];
      groups := groups[groupIndex := groups[groupIndex] + [ordered[index]]];
    }
    assert ordered[..|ordered|] == ordered;
  }

  method PushGroup(rows: seq<GroupRow>, group: nat, members: seq<EntrySeed>) returns (extended: seq<GroupRow>)
    ensures extended == rows + GroupRows(group, members)
  {
    extended := rows;
    for slot := 0 to |members|
      invariant extended == rows + GroupRows(group, members[..slot])
    {
      assert members[..slot + 1][..slot] == members[..slot];
      extended := extended + [RowFor(group, slot, members[slot])];
    }
    assert members[..|members|] == members;
  }

  method BuildGroupRows(groupNum: Option<int>, entries: seq<EntrySeed>) returns (rows: seq<GroupRow>)
    ensures rows == AllRows(Deal(SortEntrySeeds(entries), if groupNum.GetOr(1) > 1 then groupNum.value else 1))
  {
    var groupCount: nat := if groupNum.GetOr(1) > 1 then groupNum.value else 1;
    var groups := DealIntoGroups(SortEntrySeeds(entries), groupCount);
    rows := [];
    for group := 0 to |groups|
      invariant rows == AllRows(groups[..group])
    {
      rows := PushGroup(rows, group, groups[group]);
      assert groups[..group + 1][..group] == groups[..group];
    }
    assert groups[..|groups|] == groups;
  }

  /** Which group and slot a row was written for. */
  lemma {:induction false} RowOrigin(groups: seq<seq<EntrySeed>>, k: nat) returns (group: nat, slot: nat)
    requires k < |AllRows(groups)|
    ensures group < |groups| && slot < |groups[group]|
    ensures AllRows(groups)[k] == RowFor(group, slot, groups[group][slot])
  {
    var n := |groups| - 1;
    var before := AllRows(groups[..n]);
    if k < |before| {
      group, slot := RowOrigin(groups[..n], k);
    } else {
      group, slot := n, k - |before|;
    }
  }

  /** A row's group and slot numbers count from one and say which sorted entry it holds. */
  lemma RowsNameTheirSlots(entries: seq<EntrySeed>, g: nat, k: nat) returns (group: nat, slot: nat)
    requires g >= 1
    ensures k < |AllRows(Deal(SortEntrySeeds(entries), g))| ==>
      var row := AllRows(Deal(SortEntrySeeds(entries), g))[k];
      && row.groupId == group + 1 && row.groupIndex == slot + 1 && group < g
      && row.groupName == GroupNameForIndex(group)
      && IndexAt(g, group, slot) < |entries| && EntryIn(row) == SortEntrySeeds(entries)[IndexAt(g, group, slot)]
  {
    var ordered := SortEntrySeeds(entries);
    group, slot := 0, 0;
    if k < |AllRows(Deal(ordered, g))| {
      group, slot := RowOrigin(Deal(ordered, g), k);
      SlotHolds(ordered, g, group, slot);
      EntryOfRow(group, slot, Deal(ordered, g)[group][slot]);
    }
  }

  lemma EntryOfRow(group: nat, slot: nat, entry: EntrySeed)
    ensures EntryIn(RowFor(group, slot, entry)) == entry
  {
  }

  function EntryIn(row: GroupRow): EntrySeed { EntrySeed(row.entryId, row.overallRank) }

  function EntriesIn(rows: seq<GroupRow>): (s: multiset<EntrySeed>) {
    if rows == [] then multiset{} else EntriesIn(rows[..|rows| - 1]) + multiset{EntryIn(rows[|rows| - 1])}
  }

  lemma {:induction false} EntriesConcat(a: seq<GroupRow>, b: seq<GroupRow>)
    ensures EntriesIn(a + b) == EntriesIn(a) + EntriesIn(b)
  {
    if b == [] {
      assert a + b == a;
    } else {
      assert (a + b)[..|a + b| - 1] == a + b[..|b| - 1];
      EntriesConcat(a, b[..|b| - 1]);
    }
  }

  lemma EntriesOfOneMore(rows: seq<GroupRow>, row: GroupRow)
    ensures EntriesIn(rows + [row]) == EntriesIn(rows) + multiset{EntryIn(row)}
  {
    assert (rows + [row])[..|rows|] == rows;
  }

  lemma {:induction false} EntriesOfGroup(group: nat, members: seq<EntrySeed>)
    ensures EntriesIn(GroupRows(group, members)) == multiset(members)
  {
    if members != [] {
      var n := |members| - 1;
      EntriesOfGroup(group, members[..n]);
      assert members == members[..n] + [members[n]];
      EntriesOfOneMore(GroupRows(group, members[..n]), RowFor(group, n, members[n]));
    }
  }

  function Members(groups: seq<seq<EntrySeed>>): multiset<EntrySeed> {
    if groups == [] then multiset{} else Members(groups[..|groups| - 1]) + multiset(groups[|groups| - 1])
  }

  lemma {:induction false} EntriesOfAllRows(groups: seq<seq<EntrySeed>>)
    ensures EntriesIn(AllRows(groups)) == Members(groups)
  {
    if groups != [] {
      var n := |groups| - 1;
      EntriesOfAllRows(groups[..n]);
      EntriesOfGroup(n, groups[n]);
      EntriesConcat(AllRows(groups[..n]), GroupRows(n, groups[n]));
    }
  }

  lemma {:induction false} PushAddsOne(groups: seq<seq<EntrySeed>>, group: nat, x: EntrySeed)
    requires group < |groups|
    ensures Members(Push(groups, group, x)) == Members(groups) + multiset{x}
  {
    var n := |groups| - 1;
    var after := Push(groups, group, x);
    if group == n {
      assert after[..n] == groups[..n];
    } else {
      PushAddsOne(groups[..n], group, x);
      assert after[..n] == Push(groups[..n], group, x);
    }
  }

  lemma {:induction false} EmptyMembers(g: nat)
    ensures Members(Empties(g)) == multiset{}
  {
    if g > 0 {
      EmptyMembers(g - 1);
      assert Empties<EntrySeed>(g)[..g - 1] == Empties(g - 1);
    }
  }

  lemma {:induction false} DealKeepsMembers(ordered: seq<EntrySeed>, g: nat)
    requires g >= 1
    ensures Members(Deal(ordered, g)) == multiset(ordered)
  {
    if ordered == [] {
      EmptyMembers(g);
    } else {
      var n := |ordered| - 1;
      DealKeepsMembers(ordered[..n], g);
      assert Deal(ordered, g) == Push(Deal(ordered[..n], g), GroupOf(n, g), ordered[n]);
      PushAddsOne(Deal(ordered[..n], g), GroupOf(n, g), ordered[n]);
      assert ordered == ordered[..n] + [ordered[n]];
    }
  }

  /** The rows hold exactly the entries they were built from, each once. */
  lemma RowsPartitionTheEntries(entries: seq<EntrySeed>, g: nat)
    requires g >= 1
    ensures EntriesIn(AllRows(Deal(SortEntrySeeds(entries), g))) == multiset(entries)
  {
    EntriesOfAllRows(Deal(SortEntrySeeds(entries), g));
    DealKeepsMembers(SortEntrySeeds(entries), g);
  }
}
