/**
 Bracket seeding of src/domain/tournament.ts: the seed order of a bracket, the
 pairs it gives a field of teams, and where byes fall.
 */
module BracketSeeding {
  import opened Wrappers
  import opened Powers

  // --------------------------------------------------------------- the order

  /** Every seed is followed by the opponent that completes the sum `size + 1`. */
  function Mirrored(order: seq<int>, size: int): (r: seq<int>)
    ensures |r| == 2 * |order|
  {
    if order == [] then [] else
      var last := order[|order| - 1];
      Mirrored(order[..|order| - 1], size) + [last, size + 1 - last]
  }

  lemma {:induction false} MirroredAt(order: seq<int>, size: int, i: nat)
    requires i < |order|
    ensures Mirrored(order, size)[2 * i] == order[i]
    ensures Mirrored(order, size)[2 * i + 1] == size + 1 - order[i]
  {
    if i < |order| - 1 {
      MirroredAt(order[..|order| - 1], size, i);
    }
  }

  /** The seed order of a bracket of Pow2(k) places. */
  function SeedOrder(k: nat): (order: seq<int>)
    requires k >= 1
    ensures |order| == Pow2(k)
  {
    if k == 1 then [1, 2] else Mirrored(SeedOrder(k - 1), Pow2(k))
  }

  method BuildBracketSeedOrder(bracketSize: nat, ghost k: nat) returns (order: seq<int>)
    requires k >= 1 && bracketSize == Pow2(k)
    ensures order == SeedOrder(k)
  {
    order := [1, 2];
    var size := 2;
    ghost var done := 1;
    while size < bracketSize
      invariant 1 <= done <= k && size == Pow2(done) && order == SeedOrder(done)
      decreases k - done
    {
      var nextSize := size * 2;
      order := FlatMapOpponents(order, nextSize);
      size, done := nextSize, done + 1;
    }
    if done < k { Pow2Monotone(done, k); }
  }

  method FlatMapOpponents(order: seq<int>, nextSize: int) returns (next: seq<int>)
    ensures next == Mirrored(order, nextSize)
  {
    next := [];
    for i := 0 to |order|
      invariant next == Mirrored(order[..i], nextSize)
    {
      assert order[..i + 1][..i] == order[..i];
      next := next + [order[i], nextSize + 1 - order[i]];
    }
    assert order[..|order|] == order;
  }

  ghost predicate InRange(order: seq<int>) {
    forall i | 0 <= i < |order| :: 1 <= order[i] <= |order|
  }

  ghost predicate Distinct(order: seq<int>) {
    forall i, j | 0 <= i < j < |order| :: order[i] != order[j]
  }

  ghost predicate Permutation(order: seq<int>) {
    InRange(order) && Distinct(order) && forall v | 1 <= v <= |order| :: v in order
  }

  /** Where the value at a place of the doubled order comes from. */
  lemma MirroredFrom(order: seq<int>, p: nat) returns (i: nat)
    requires p < 2 * |order| && InRange(order)
    ensures i < |order| && p / 2 == i
    ensures Mirrored(order, 2 * |order|)[p] == if p % 2 == 0 then order[i] else 2 * |order| + 1 - order[i]
    ensures Mirrored(order, 2 * |order|)[p] <= |order| <==> p % 2 == 0
  {
    i := p / 2;
    MirroredAt(order, 2 * |order|, i);
    assert p == 2 * i || p == 2 * i + 1;
  }

  lemma MirroredKeepsDistinct(order: seq<int>, p: nat, q: nat)
    requires InRange(order) && Distinct(order) && p < q < 2 * |order|
    ensures Mirrored(order, 2 * |order|)[p] != Mirrored(order, 2 * |order|)[q]
  {
    var i := MirroredFrom(order, p);
    var j := MirroredFrom(order, q);
  }

  lemma MirroredHasAll(order: seq<int>, v: int)
    requires Permutation(order) && 1 <= v <= 2 * |order|
    ensures v in Mirrored(order, 2 * |order|)
  {
    var w := if v <= |order| then v else 2 * |order| + 1 - v;
    assert w in order;
    var i :| 0 <= i < |order| && order[i] == w;
    MirroredAt(order, 2 * |order|, i);
  }

  lemma MirroredKeepsPermutation(order: seq<int>)
    requires Permutation(order)
    ensures Permutation(Mirrored(order, 2 * |order|))
  {
    var r := Mirrored(order, 2 * |order|);
    forall p | 0 <= p < |r| ensures 1 <= r[p] <= |r| {
      var i := MirroredFrom(order, p);
    }
    forall p, q | 0 <= p < q < |r| ensures r[p] != r[q] { MirroredKeepsDistinct(order, p, q); }
    forall v | 1 <= v <= |r| ensures v in r { MirroredHasAll(order, v); }
  }

  /** Each seed 1..Pow2(k) occurs exactly once. */
  lemma {:induction false} SeedOrderIsPermutation(k: nat)
    requires k >= 1
    ensures Permutation(SeedOrder(k))
  {
    if k == 1 {
      assert SeedOrder(k)[0] == 1 && SeedOrder(k)[1] == 2;
    } else {
      SeedOrderIsPermutation(k - 1);
      MirroredKeepsPermutation(SeedOrder(k - 1));
    }
  }

  lemma DoubledOrderAt(k: nat, i: nat)
    requires k >= 2 && i < Pow2(k - 1)
    ensures SeedOrder(k)[2 * i] == SeedOrder(k - 1)[i]
    ensures SeedOrder(k)[2 * i + 1] == Pow2(k) + 1 - SeedOrder(k - 1)[i]
  {
    MirroredAt(SeedOrder(k - 1), Pow2(k), i);
  }

  /** The two seeds of every first-round pair sum to the bracket size plus one, the better one first. */
  lemma PairsAreBalanced(k: nat, i: nat)
    requires k >= 1 && 2 * i + 1 < Pow2(k)
    ensures SeedOrder(k)[2 * i] + SeedOrder(k)[2 * i + 1] == Pow2(k) + 1
    ensures SeedOrder(k)[2 * i] < SeedOrder(k)[2 * i + 1]
    ensures 2 * SeedOrder(k)[2 * i] <= Pow2(k)
  {
    if k > 1 {
      SeedOrderIsPermutation(k - 1);
      DoubledOrderAt(k, i);
    }
  }

  /** The better seed of each pair. */
  function Favourites(order: seq<int>): (r: seq<int>)
    requires |order| % 2 == 0
    ensures |r| == |order| / 2
  {
    seq(|order| / 2, i requires 0 <= i < |order| / 2 =>
      if order[2 * i] < order[2 * i + 1] then order[2 * i] else order[2 * i + 1])
  }

  /** If favourites win a round, what remains is the seed order of the half-size bracket. */
  lemma FavouritesGiveTheHalfOrder(k: nat)
    requires k >= 2
    ensures Favourites(SeedOrder(k)) == SeedOrder(k - 1)
  {
    forall i | 0 <= i < Pow2(k - 1) ensures Favourites(SeedOrder(k))[i] == SeedOrder(k - 1)[i] {
      PairsAreBalanced(k, i);
      DoubledOrderAt(k, i);
    }
  }

  /** Who is left after `rounds` rounds of favourites winning. */
  function Remaining(k: nat, rounds: nat): (r: seq<int>)
    requires 1 <= k && rounds < k
    ensures |r| == Pow2(k - rounds)
  {
    if rounds == 0 then SeedOrder(k) else Favourites(Remaining(k, rounds - 1))
  }

  lemma {:induction false} RemainingIsSeedOrder(k: nat, rounds: nat)
    requires 1 <= k && rounds < k
    ensures Remaining(k, rounds) == SeedOrder(k - rounds)
  {
    if rounds > 0 {
      var left := k - rounds + 1;
      RemainingIsSeedOrder(k, rounds - 1);
      assert Remaining(k, rounds - 1) == SeedOrder(left);
      FavouritesGiveTheHalfOrder(left);
    }
  }

  /** With favourites winning, the top Pow2(t) seeds do not meet while more than Pow2(t) remain. */
  lemma TopSeedsDoNotMeetEarly(k: nat, rounds: nat, t: nat, i: nat)
    requires 1 <= k && rounds < k && t < k - rounds && 2 * i + 1 < Pow2(k - rounds)
    ensures Remaining(k, rounds)[2 * i] > Pow2(t) || Remaining(k, rounds)[2 * i + 1] > Pow2(t)
  {
    RemainingIsSeedOrder(k, rounds);
    PairsAreBalanced(k - rounds, i);
    Pow2Monotone(t, k - rounds);
  }

  /** The place `i` moves to when the order is doubled `levels` times. */
  function Spread(i: nat, levels: nat): nat {
    if levels == 0 then i else 2 * Spread(i, levels - 1)
  }

  lemma {:induction false} SpreadIsProduct(i: nat, levels: nat)
    ensures Spread(i, levels) == Pow2(levels) * i
  {
    if levels > 0 {
      SpreadIsProduct(i, levels - 1);
      DoubleProduct(Pow2(levels - 1), i);
    }
  }

  /** Doubling the order moves the seed at `i` to the head of its own section. */
  lemma {:induction false} SpreadKeepsSeed(k: nat, t: nat, i: nat)
    requires 1 <= t <= k && i < Pow2(t)
    ensures Spread(i, k - t) < Pow2(k) && SeedOrder(k)[Spread(i, k - t)] == SeedOrder(t)[i]
  {
    if t < k {
      SpreadKeepsSeed(k - 1, t, i);
      DoubledOrderAt(k, Spread(i, k - 1 - t));
    }
  }

  /** A top seed heads its own section: the order of Pow2(t) places, spread out. */
  lemma TopSeedsHeadTheirSections(k: nat, t: nat, i: nat)
    requires 1 <= t <= k && i < Pow2(t)
    ensures Pow2(k - t) * i < Pow2(k) && SeedOrder(k)[Pow2(k - t) * i] == SeedOrder(t)[i]
  {
    SpreadKeepsSeed(k, t, i);
    SpreadIsProduct(i, k - t);
  }

  /** So whoever wins, two of the top Pow2(t) seeds sit in different sections of Pow2(k - t) places. */
  lemma TopSeedsSitInDifferentSections(k: nat, t: nat, a: nat, b: nat)
    requires 1 <= t <= k && a < b < Pow2(k)
    requires SeedOrder(k)[a] <= Pow2(t) && SeedOrder(k)[b] <= Pow2(t)
    ensures a / Pow2(k - t) != b / Pow2(k - t)
  {
    var i := SectionOf(k, t, a);
    var j := SectionOf(k, t, b);
  }

  lemma SectionOf(k: nat, t: nat, a: nat) returns (i: nat)
    requires 1 <= t <= k && a < Pow2(k) && SeedOrder(k)[a] <= Pow2(t)
    ensures i < Pow2(t) && a == Pow2(k - t) * i && a / Pow2(k - t) == i
  {
    SeedOrderIsPermutation(t);
    SeedOrderIsPermutation(k);
    var seed := SeedOrder(k)[a];
    i := PlaceOf(SeedOrder(t), seed);
    var d := Pow2(k - t);
    TopSeedsHeadTheirSections(k, t, i);
    SameSeedSamePlace(SeedOrder(k), a, d * i);
    DivideMultiple(d, i);
  }

  lemma PlaceOf(order: seq<int>, seed: int) returns (i: nat)
    requires Permutation(order) && 1 <= seed <= |order|
    ensures i < |order| && order[i] == seed
  {
    assert seed in order;
    i :| 0 <= i < |order| && order[i] == seed;
  }

  lemma SameSeedSamePlace(order: seq<int>, a: nat, b: nat)
    requires Distinct(order) && a < |order| && b < |order| && order[a] == order[b]
    ensures a == b
  {
  }

  // --------------------------------------------------------------- the pairs

  datatype SeedPair = SeedPair(home: Option<int>, away: Option<int>)

  function NextPowerOfTwo(value: nat): nat {
    if value == 0 then 0 else Pow2(CeilLog2(value))
  }

  /** The entry a seed stands for, if the field and the entry list reach that far. */
  function EntryOf(entries: seq<int>, teamCount: nat, seed: int): Option<int> {
    if 1 <= seed <= teamCount && seed <= |entries| then Some(entries[seed - 1]) else None
  }

  function PairAt(entries: seq<int>, teamCount: nat, i: nat): SeedPair
    requires teamCount >= 2 && 2 * i + 1 < Pow2(CeilLog2(teamCount)) && CeilLog2(teamCount) >= 1
  {
    var order := SeedOrder(CeilLog2(teamCount));
    SeedPair(EntryOf(entries, teamCount, order[2 * i]), EntryOf(entries, teamCount, order[2 * i + 1]))
  }

  /** A field of two or more needs a bracket of at least two. */
  lemma BracketHasRounds(teamCount: nat)
    requires teamCount >= 2
    ensures CeilLog2(teamCount) >= 1 && Pow2(CeilLog2(teamCount)) == 2 * Pow2(CeilLog2(teamCount) - 1)
    ensures Pow2(CeilLog2(teamCount) - 1) < teamCount
  {
  }

  method SeedBracketEntries(entries: seq<int>, teamCount: nat) returns (pairs: seq<SeedPair>)
    ensures teamCount < 2 ==> pairs == []
    ensures teamCount >= 2 ==> |pairs| == Pow2(CeilLog2(teamCount) - 1)
    ensures teamCount >= 2 ==> forall i | 0 <= i < |pairs| :: pairs[i] == PairAt(entries, teamCount, i)
  {
    if teamCount < 2 {
      return [];
    }
    BracketHasRounds(teamCount);
    var bracketSize := NextPowerOfTwo(teamCount);
    var normalized := if |entries| > teamCount then entries[..teamCount] else entries;
    var seedOrder := BuildBracketSeedOrder(bracketSize, CeilLog2(teamCount));
    SeedOrderIsPermutation(CeilLog2(teamCount));
    pairs := [];
    for index := 0 to bracketSize / 2
      invariant |pairs| == index
      invariant forall i | 0 <= i < index :: pairs[i] == PairAt(entries, teamCount, i)
    {
      var homeSeed, awaySeed := seedOrder[index * 2], seedOrder[index * 2 + 1];
      var home := SeededEntry(entries, normalized, teamCount, homeSeed);
      var away := SeededEntry(entries, normalized, teamCount, awaySeed);
      pairs := pairs + [SeedPair(home, away)];
    }
  }

  method SeededEntry(ghost entries: seq<int>, normalized: seq<int>, teamCount: nat, seed: int)
    returns (entry: Option<int>)
    requires normalized == (if |entries| > teamCount then entries[..teamCount] else entries) && seed >= 1
    ensures entry == EntryOf(entries, teamCount, seed)
  {
    entry := if seed <= teamCount && seed <= |normalized| then Some(normalized[seed - 1]) else None;
  }

  /**
   Byes go to exactly the top seeds: a full field leaves an away place empty when and only when its home seed is among
   the first size - teams.
   */
  lemma ByesGoToTopSeeds(entries: seq<int>, teamCount: nat, i: nat)
    requires teamCount >= 2 && |entries| >= teamCount && i < Pow2(CeilLog2(teamCount) - 1)
    ensures 2 * i + 1 < Pow2(CeilLog2(teamCount))
    ensures PairAt(entries, teamCount, i).home.Some?
    ensures PairAt(entries, teamCount, i).away.None? <==>
      SeedOrder(CeilLog2(teamCount))[2 * i] <= NextPowerOfTwo(teamCount) - teamCount
  {
    BracketHasRounds(teamCount);
    var k := CeilLog2(teamCount);
    PairsAreBalanced(k, i);
    SeedOrderIsPermutation(k);
    assert 1 <= SeedOrder(k)[2 * i];
  }

  /**
   For any entry list, some match is left without either side exactly when the list is shorter than half the bracket.
   */
  lemma EmptyMatchIffFieldIsShort(entries: seq<int>, teamCount: nat)
    requires teamCount >= 2
    ensures
      (exists i :: 0 <= i < Pow2(CeilLog2(teamCount) - 1) && PairAt(entries, teamCount, i) == SeedPair(None, None))
      <==> |entries| < Pow2(CeilLog2(teamCount) - 1)
  {
    BracketHasRounds(teamCount);
    var k := CeilLog2(teamCount);
    var half := Pow2(k - 1);
    SeedOrderIsPermutation(k);
    if |entries| < half {
      var p := PlaceOf(SeedOrder(k), half);
      var i := p / 2;
      PairsAreBalanced(k, i);
      assert PairAt(entries, teamCount, i) == SeedPair(None, None);
    }
    forall i | 0 <= i < half && PairAt(entries, teamCount, i) == SeedPair(None, None) ensures |entries| < half {
      PairsAreBalanced(k, i);
      assert 1 <= SeedOrder(k)[2 * i];
    }
  }

  /** Every team of the field gets exactly one place in the bracket. */
  lemma EveryTeamIsPlacedOnce(teamCount: nat, seed: nat) returns (place: nat)
    requires teamCount >= 2 && 1 <= seed <= teamCount
    ensures place < Pow2(CeilLog2(teamCount)) && CeilLog2(teamCount) >= 1
    ensures forall p | 0 <= p < Pow2(CeilLog2(teamCount)) :: SeedOrder(CeilLog2(teamCount))[p] == seed <==> p == place
  {
    BracketHasRounds(teamCount);
    SeedOrderIsPermutation(CeilLog2(teamCount));
    var order := SeedOrder(CeilLog2(teamCount));
    assert seed in order;
    place :| 0 <= place < |order| && order[place] == seed;
  }
}
