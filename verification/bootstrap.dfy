/** The lower confidence bound of the learning gates: a block bootstrap over
    session days with a fixed generator (src/learning.rs). */
module Bootstrap {
  import opened Common
  import opened Sorting

  const TWO_64: int := 0x1_0000_0000_0000_0000

  const RESAMPLES: nat := 1000

  const RANK: nat := 24

  /** One trade of one kind: its session day and the value that is averaged. */
  datatype Observation = Observation(day: int, value: real)

  // ----- the generator -----

  type u64 = n: int | 0 <= n < 0x1_0000_0000_0000_0000

  function NextState(state: u64): u64 {
    (state * 6364136223846793005 + 1) % TWO_64
  }

  function Seed(blocks: u64): u64 {
    ((0x9e37_79b9_7f4a_7c15 as bv64) ^ (blocks as bv64)) as int
  }

  /** The state after `n` draws. */
  function StateAfter(seed: u64, n: nat): u64 {
    if n == 0 then seed else NextState(StateAfter(seed, n - 1))
  }

  // ----- the generator -----

  const INVERSE: int := 13877824140714322085

  /** The step before, so no two states lead to the same one. */
  function PreviousState(state: u64): u64 {
    (state - 1) * INVERSE % TWO_64
  }

  lemma StepIsUndone(state: u64)
    ensures PreviousState(NextState(state)) == state
  {
    var product := state * 6_364_136_223_846_793_005 + 1;
    assert 6_364_136_223_846_793_005 * INVERSE == 4787856489426250814 * TWO_64 + 1;
    var wraps := product / TWO_64;
    assert NextState(state) == product - wraps * TWO_64;
    var back := (NextState(state) - 1) * INVERSE;
    assert back == state * (6_364_136_223_846_793_005 * INVERSE) - wraps * INVERSE * TWO_64;
    assert back == state + (state * 4787856489426250814 - wraps * INVERSE) * TWO_64;
    RemainderIs(back, state * 4787856489426250814 - wraps * INVERSE, state);
  }

  lemma RemainderIs(x: int, q: int, r: u64)
    requires x == r + q * TWO_64
    ensures x % TWO_64 == r
  {
  }

  /** Known states: the multiplier and the increment of the generator, its wrap, and the
      seeds of two and of three days. */
  lemma KnownStates()
    ensures NextState(0) == 1 && NextState(1) == 6_364_136_223_846_793_006
    ensures NextState(2) == 12728272447693586011 && NextState(0xFFFF_FFFF_FFFF_FFFF) == 12082607849862758612
    ensures Seed(2) == 0x9e37_79b9_7f4a_7c17 && Seed(3) == 0x9e37_79b9_7f4a_7c16
  {
  }

  // ----- blocks, from the observations alone -----

  function InsertDay(day: int, days: seq<int>): seq<int> {
    if days == [] || day < days[0] then [day] + days
    else if day == days[0] then days
    else [days[0]] + InsertDay(day, days[1..])
  }

  /** The session days, ascending and distinct: the keys of the block map. */
  function DaysOf(trades: seq<Observation>): seq<int> {
    if trades == [] then [] else InsertDay(trades[|trades| - 1].day, DaysOf(trades[..|trades| - 1]))
  }

  function DaySum(trades: seq<Observation>, day: int): real {
    if trades == [] then 0.0
    else
      var last := trades[|trades| - 1];
      DaySum(trades[..|trades| - 1], day) + if last.day == day then last.value else 0.0
  }

  function DayCount(trades: seq<Observation>, day: int): nat {
    if trades == [] then 0
    else DayCount(trades[..|trades| - 1], day) + if trades[|trades| - 1].day == day then 1 else 0
  }

  // ----- resamples -----

  /** Total and count of `k` draws starting after `drawn` earlier ones. */
  function DrawTotal(trades: seq<Observation>, days: seq<int>, seed: u64, drawn: nat, k: nat): real
    requires days != []
  {
    if k == 0 then 0.0
    else
      DrawTotal(trades, days, seed, drawn, k - 1)
      + DaySum(trades, days[StateAfter(seed, drawn + k) % |days|])
  }

  function DrawCount(trades: seq<Observation>, days: seq<int>, seed: u64, drawn: nat, k: nat): nat
    requires days != []
  {
    if k == 0 then 0
    else
      DrawCount(trades, days, seed, drawn, k - 1)
      + DayCount(trades, days[StateAfter(seed, drawn + k) % |days|])
  }

  function AtLeastOne(n: nat): (m: nat)
    ensures m > 0 && (m == n || (n == 0 && m == 1))
  {
    if n == 0 then 1 else n
  }

  /** The draws before resample `r`. */
  function Drawn(r: nat, n: nat): nat {
    r * n
  }

  /** The mean of resample `r`: as many draws as there are days. */
  function ResampleMean(trades: seq<Observation>, days: seq<int>, seed: u64, r: nat): real
    requires days != []
  {
    var drawn := Drawn(r, |days|);
    DrawTotal(trades, days, seed, drawn, |days|) / AtLeastOne(DrawCount(trades, days, seed, drawn, |days|)) as real
  }

  function ResampleMeans(trades: seq<Observation>, days: seq<int>, seed: u64, n: nat): (means: seq<real>)
    requires days != []
    ensures |means| == n
  {
    if n == 0 then [] else ResampleMeans(trades, days, seed, n - 1) + [ResampleMean(trades, days, seed, n - 1)]
  }

  /** `None` stands for the `-f64::MAX` of too little evidence. */
  function LowerBound(trades: seq<Observation>): Option<real>
    requires |DaysOf(trades)| < TWO_64
  {
    var days := DaysOf(trades);
    if |days| < 2 then None
    else
      var means := ResampleMeans(trades, days, Seed(|days|), RESAMPLES);
      SortAscends(means);
      Some(Sort(means)[RANK])
  }

  // ----- the loops of the program -----

  /** A block holds the values of its day, in the order they came. */
  ghost predicate BlockOf(trades: seq<Observation>, day: int, block: seq<real>) {
    Sum(block) == DaySum(trades, day) && |block| == DayCount(trades, day)
  }

  ghost predicate BlocksOf(trades: seq<Observation>, blocks: map<int, seq<real>>) {
    && (forall day :: day in blocks <==> DayCount(trades, day) > 0)
    && (forall day | day in blocks :: BlockOf(trades, day, blocks[day]))
  }

  method GroupByDay(trades: seq<Observation>) returns (blocks: map<int, seq<real>>)
    ensures BlocksOf(trades, blocks)
  {
    blocks := map[];
    for n := 0 to |trades|
      invariant BlocksOf(trades[..n], blocks)
    {
      var trade := trades[n];
      var block := if trade.day in blocks then blocks[trade.day] else [];
      GroupOneMore(trades[..n], trade, blocks, block + [trade.value]);
      assert trades[..n + 1] == trades[..n] + [trade];
      blocks := blocks[trade.day := block + [trade.value]];
    }
    assert trades[..|trades|] == trades;
  }

  lemma GroupOneMore(trades: seq<Observation>, trade: Observation, blocks: map<int, seq<real>>, block: seq<real>)
    requires BlocksOf(trades, blocks)
    requires block == (if trade.day in blocks then blocks[trade.day] else []) + [trade.value]
    ensures BlocksOf(trades + [trade], blocks[trade.day := block])
  {
    assert (trades + [trade])[..|trades|] == trades;
    NoTradesNoSum(trades, trade.day);
    assert block[..|block| - 1] == if trade.day in blocks then blocks[trade.day] else [];
    var after := blocks[trade.day := block];
    forall day | day in after ensures BlockOf(trades + [trade], day, after[day]) {
      if day != trade.day {
        assert BlockOf(trades, day, blocks[day]);
      } else if day in blocks {
        assert BlockOf(trades, day, blocks[day]);
      }
    }
  }

  lemma {:induction false} NoTradesNoSum(trades: seq<Observation>, day: int)
    ensures DayCount(trades, day) == 0 ==> DaySum(trades, day) == 0.0
  {
    if trades != [] {
      NoTradesNoSum(trades[..|trades| - 1], day);
    }
  }

  method SumBlock(block: seq<real>) returns (total: real)
    ensures total == Sum(block)
  {
    total := 0.0;
    for i := 0 to |block|
      invariant total == Sum(block[..i])
    {
      assert block[..i + 1][..i] == block[..i];
      total := total + block[i];
    }
    assert block[..|block|] == block;
  }

  method Resample(ghost trades: seq<Observation>, days: seq<int>, blocks: seq<seq<real>>, ghost seed: u64, ghost drawn: nat, start: u64)
    returns (mean: real, state: u64)
    requires days != [] && |blocks| == |days|
    requires forall i | 0 <= i < |days| :: BlockOf(trades, days[i], blocks[i])
    requires start == StateAfter(seed, drawn)
    ensures state == StateAfter(seed, drawn + |days|)
    ensures mean == DrawTotal(trades, days, seed, drawn, |days|)
                    / AtLeastOne(DrawCount(trades, days, seed, drawn, |days|)) as real
  {
    state := start;
    var total, observations := 0.0, 0;
    for k := 0 to |days|
      invariant state == StateAfter(seed, drawn + k)
      invariant total == DrawTotal(trades, days, seed, drawn, k)
      invariant observations == DrawCount(trades, days, seed, drawn, k)
    {
      state := NextState(state);
      var chosen := state % |blocks|;
      assert BlockOf(trades, days[chosen], blocks[chosen]);
      var sum := SumBlock(blocks[chosen]);
      total := total + sum;
      observations := observations + |blocks[chosen]|;
    }
    mean := total / AtLeastOne(observations) as real;
  }

  method BlockBootstrapLower95(trades: seq<Observation>) returns (bound: Option<real>)
    requires |DaysOf(trades)| < TWO_64
    ensures bound == LowerBound(trades)
  {
    var grouped := GroupByDay(trades);
    var days := DaysOf(trades);
    if |days| < 2 {
      return None;
    }
    forall i | 0 <= i < |days| ensures days[i] in grouped {
      DaysAreTheDays(trades, days[i]);
    }
    var blocks := seq(|days|, i requires 0 <= i < |days| && days[i] in grouped => grouped[days[i]]);
    var means := ResampleAll(trades, days, blocks);
    SortAscends(means);
    bound := Some(Sort(means)[RANK]);
  }

  method ResampleAll(ghost trades: seq<Observation>, days: seq<int>, blocks: seq<seq<real>>) returns (means: seq<real>)
    requires days != [] && |blocks| == |days| < TWO_64
    requires forall i | 0 <= i < |days| :: BlockOf(trades, days[i], blocks[i])
    ensures means == ResampleMeans(trades, days, Seed(|days|), RESAMPLES)
  {
    var state := Seed(|days|);
    ghost var drawn: nat := 0;
    means := [];
    for r := 0 to RESAMPLES
      invariant drawn == Drawn(r, |days|) && state == StateAfter(Seed(|days|), drawn)
      invariant means == ResampleMeans(trades, days, Seed(|days|), r)
    {
      hide Drawn;
      var mean;
      mean, state := Resample(trades, days, blocks, Seed(|days|), drawn, state);
      NextResample(r, |days|);
      drawn := drawn + |days|;
      means := means + [mean];
    }
  }

  lemma NextResample(r: nat, n: nat)
    ensures Drawn(r + 1, n) == Drawn(r, n) + n
  {
  }

  lemma {:induction false} DaysAreTheDays(trades: seq<Observation>, day: int)
    ensures day in DaysOf(trades) <==> DayCount(trades, day) > 0
  {
    if trades != [] {
      DaysAreTheDays(trades[..|trades| - 1], day);
      InsertedDay(trades[|trades| - 1].day, DaysOf(trades[..|trades| - 1]), day);
    }
  }

  lemma {:induction false} InsertedDay(added: int, days: seq<int>, day: int)
    ensures day in InsertDay(added, days) <==> day == added || day in days
  {
    if days != [] && added > days[0] {
      InsertedDay(added, days[1..], day);
    }
  }

  // ----- what the bound means -----

  /** The bound is the 25th smallest of the thousand resampled means. */
  lemma BoundIsTwentyFifthSmallest(trades: seq<Observation>)
    requires 2 <= |DaysOf(trades)| < TWO_64
    ensures var days := DaysOf(trades);
            var means := ResampleMeans(trades, days, Seed(|days|), RESAMPLES);
            var bound := LowerBound(trades).value;
            CountBelow(means, bound) <= 24 && CountAtMost(means, bound) >= 25 && bound in means
  {
    var days := DaysOf(trades);
    SortedElementHasRank(ResampleMeans(trades, days, Seed(|days|), RESAMPLES), RANK);
  }

  ghost predicate Within(trades: seq<Observation>, low: real, high: real) {
    forall i | 0 <= i < |trades| :: low <= trades[i].value <= high
  }

  lemma {:induction false} DaySumWithin(trades: seq<Observation>, day: int, low: real, high: real)
    requires Within(trades, low, high)
    ensures Times(DayCount(trades, day), low) <= DaySum(trades, day) <= Times(DayCount(trades, day), high)
  {
    if trades != [] {
      var rest := trades[..|trades| - 1];
      DaySumWithin(rest, day, low, high);
    }
  }

  lemma {:induction false} DrawsWithin(trades: seq<Observation>, days: seq<int>, seed: u64, drawn: nat, k: nat, low: real, high: real)
    requires days != [] && Within(trades, low, high)
    requires forall i | 0 <= i < |days| :: DayCount(trades, days[i]) > 0
    ensures DrawCount(trades, days, seed, drawn, k) >= k
    ensures Times(DrawCount(trades, days, seed, drawn, k), low)
            <= DrawTotal(trades, days, seed, drawn, k)
            <= Times(DrawCount(trades, days, seed, drawn, k), high)
  {
    if k > 0 {
      DrawsWithin(trades, days, seed, drawn, k - 1, low, high);
      var day := days[StateAfter(seed, drawn + k) % |days|];
      DaySumWithin(trades, day, low, high);
      TimesAdds(DrawCount(trades, days, seed, drawn, k - 1), DayCount(trades, day), low);
      TimesAdds(DrawCount(trades, days, seed, drawn, k - 1), DayCount(trades, day), high);
    }
  }

  lemma MeanWithin(total: real, count: nat, low: real, high: real)
    requires count > 0 && Times(count, low) <= total <= Times(count, high)
    ensures low <= total / count as real <= high
  {
    TimesIsProduct(count, low);
    TimesIsProduct(count, high);
    RatioWithin(total, count as real, low, high);
  }

  lemma RatioWithin(total: real, count: real, low: real, high: real)
    requires count > 0.0 && count * low <= total <= count * high
    ensures low <= total / count <= high
  {
    var mean := total / count;
    assert count * mean == total;
    assert count * (mean - low) >= 0.0 && count * (high - mean) >= 0.0;
  }

  lemma {:induction false} MeansWithin(trades: seq<Observation>, days: seq<int>, seed: u64, n: nat, low: real, high: real)
    requires days != [] && Within(trades, low, high)
    requires forall i | 0 <= i < |days| :: DayCount(trades, days[i]) > 0
    ensures forall i | 0 <= i < n :: low <= ResampleMeans(trades, days, seed, n)[i] <= high
  {
    if n > 0 {
      MeansWithin(trades, days, seed, n - 1, low, high);
      var drawn := Drawn(n - 1, |days|);
      DrawsWithin(trades, days, seed, drawn, |days|, low, high);
      MeanWithin(DrawTotal(trades, days, seed, drawn, |days|), DrawCount(trades, days, seed, drawn, |days|), low, high);
    }
  }

  /** The bound lies between the smallest and the largest value; so evidence that
      is all positive passes the gates that ask for a positive bound. */
  lemma BoundWithinValues(trades: seq<Observation>, low: real, high: real)
    requires 2 <= |DaysOf(trades)| < TWO_64 && Within(trades, low, high)
    ensures low <= LowerBound(trades).value <= high
  {
    var days := DaysOf(trades);
    forall i | 0 <= i < |days| ensures DayCount(trades, days[i]) > 0 {
      DaysAreTheDays(trades, days[i]);
    }
    MeansWithin(trades, days, Seed(|days|), RESAMPLES, low, high);
    SortedElementHasRank(ResampleMeans(trades, days, Seed(|days|), RESAMPLES), RANK);
  }

  // ----- the order of the trades does not matter -----

  ghost predicate StrictlyAscending(days: seq<int>) {
    forall i, j | 0 <= i < j < |days| :: days[i] < days[j]
  }

  lemma {:induction false} InsertDayAscends(day: int, days: seq<int>)
    requires StrictlyAscending(days)
    ensures StrictlyAscending(InsertDay(day, days))
  {
    if days != [] && day > days[0] {
      InsertDayAscends(day, days[1..]);
      var rest := InsertDay(day, days[1..]);
      forall i | 0 <= i < |rest| ensures days[0] < rest[i] {
        InsertedDay(day, days[1..], rest[i]);
        assert rest[i] in rest;
      }
    }
  }

  lemma {:induction false} DaysAscend(trades: seq<Observation>)
    ensures StrictlyAscending(DaysOf(trades))
  {
    if trades != [] {
      DaysAscend(trades[..|trades| - 1]);
      InsertDayAscends(trades[|trades| - 1].day, DaysOf(trades[..|trades| - 1]));
    }
  }

  lemma {:induction false} AscendingIsUnique(a: seq<int>, b: seq<int>)
    requires StrictlyAscending(a) && StrictlyAscending(b)
    requires forall x :: x in a <==> x in b
    ensures a == b
  {
    assert a != [] ==> a[0] in a;
    assert b != [] ==> b[0] in b;
    if a != [] {
      assert a[0] == b[0];
      forall x ensures x in a[1..] <==> x in b[1..] {
        assert x in a <==> x in b;
        assert a == [a[0]] + a[1..] && b == [b[0]] + b[1..];
      }
      AscendingIsUnique(a[1..], b[1..]);
    }
  }

  lemma OneMoreTrade(trades: seq<Observation>, last: Observation, day: int)
    ensures DaySum(trades + [last], day) == DaySum(trades, day) + if last.day == day then last.value else 0.0
    ensures DayCount(trades + [last], day) == DayCount(trades, day) + if last.day == day then 1 else 0
  {
    assert (trades + [last])[..|trades|] == trades;
  }

  /** Taking one trade out from anywhere takes out its share and nothing else. */
  lemma {:induction false} RemoveOne(before: seq<Observation>, trade: Observation, after: seq<Observation>, day: int)
    ensures DaySum(before + [trade] + after, day) ==
            DaySum(before + after, day) + if trade.day == day then trade.value else 0.0
    ensures DayCount(before + [trade] + after, day) ==
            DayCount(before + after, day) + if trade.day == day then 1 else 0
    decreases |after|
  {
    hide DaySum, DayCount;
    if after == [] {
      assert before + after == before && before + [trade] + after == before + [trade];
      OneMoreTrade(before, trade, day);
    } else {
      var rest, last := after[..|after| - 1], after[|after| - 1];
      assert before + [trade] + after == (before + [trade] + rest) + [last];
      assert before + after == (before + rest) + [last];
      RemoveOne(before, trade, rest, day);
      OneMoreTrade(before + [trade] + rest, last, day);
      OneMoreTrade(before + rest, last, day);
    }
  }

  lemma {:induction false} DaysIgnoreOrder(a: seq<Observation>, b: seq<Observation>, day: int)
    requires multiset(a) == multiset(b)
    ensures DaySum(a, day) == DaySum(b, day) && DayCount(a, day) == DayCount(b, day)
    decreases |a|
  {
    if a == [] {
      assert |multiset(b)| == 0;
    } else {
      var last := a[|a| - 1];
      var j := PermutationWithoutLast(a, b);
      assert b == b[..j] + [last] + b[j + 1..];
      RemoveOne(b[..j], last, b[j + 1..], day);
      DaysIgnoreOrder(a[..|a| - 1], b[..j] + b[j + 1..], day);
    }
  }

  lemma {:induction false} DrawsIgnoreOrder(a: seq<Observation>, b: seq<Observation>, days: seq<int>, seed: u64, drawn: nat, k: nat)
    requires days != [] && multiset(a) == multiset(b)
    ensures DrawTotal(a, days, seed, drawn, k) == DrawTotal(b, days, seed, drawn, k)
    ensures DrawCount(a, days, seed, drawn, k) == DrawCount(b, days, seed, drawn, k)
  {
    if k > 0 {
      DrawsIgnoreOrder(a, b, days, seed, drawn, k - 1);
      DaysIgnoreOrder(a, b, days[StateAfter(seed, drawn + k) % |days|]);
    }
  }

  lemma MeanIgnoresOrder(a: seq<Observation>, b: seq<Observation>, days: seq<int>, seed: u64, r: nat)
    requires days != [] && multiset(a) == multiset(b)
    ensures ResampleMean(a, days, seed, r) == ResampleMean(b, days, seed, r)
  {
    DrawsIgnoreOrder(a, b, days, seed, Drawn(r, |days|), |days|);
  }

  lemma {:induction false} MeansIgnoreOrder(a: seq<Observation>, b: seq<Observation>, days: seq<int>, seed: u64, n: nat)
    requires days != [] && multiset(a) == multiset(b)
    ensures ResampleMeans(a, days, seed, n) == ResampleMeans(b, days, seed, n)
  {
    if n > 0 {
      MeansIgnoreOrder(a, b, days, seed, n - 1);
      MeanIgnoresOrder(a, b, days, seed, n - 1);
    }
  }

  /** In exact arithmetic the bound depends on which trades there are, not on the
      order they are listed in. */
  lemma BoundIgnoresOrder(a: seq<Observation>, b: seq<Observation>)
    requires multiset(a) == multiset(b) && |DaysOf(a)| < TWO_64
    ensures DaysOf(a) == DaysOf(b)
    ensures LowerBound(a) == LowerBound(b)
  {
    forall day ensures day in DaysOf(a) <==> day in DaysOf(b) {
      DaysAreTheDays(a, day);
      DaysAreTheDays(b, day);
      DaysIgnoreOrder(a, b, day);
    }
    DaysAscend(a);
    DaysAscend(b);
    AscendingIsUnique(DaysOf(a), DaysOf(b));
    if |DaysOf(a)| >= 2 {
      MeansIgnoreOrder(a, b, DaysOf(a), Seed(|DaysOf(a)|), RESAMPLES);
    }
  }
}
