/** The point-in-time percentile of an implied volatility (src/iv_rank.rs). */
module IvRank {
  import opened Common
  import opened Sorting

  datatype OptionKind = CallOption | PutOption

  datatype Observation = Observation(
    underlying: string, kind: OptionKind, tenorDays: u32, observedAt: int, impliedVolatility: real)

  datatype Policy = Policy(windowSessions: nat, minSessions: nat)

  /** 0/0 has no value. */
  datatype Percentage = Undefined | Percent(value: real)

  datatype RankResult = RankResult(
    rank: Option<Percentage>,
    windowSessions: nat,
    observations: nat)

  /** Earlier, valid, and about the same underlying, kind and tenor. */
  predicate Relevant(current: Observation, item: Observation) {
    && item.observedAt < current.observedAt
    && item.underlying == current.underlying
    && item.kind == current.kind
    && item.tenorDays == current.tenorDays
    && item.impliedVolatility > 0.0
  }

  function RelevantTo(current: Observation): Observation -> bool {
    item => Relevant(current, item)
  }

  // ----- the definition: the latest sessions, counted from the newest -----

  /** The session days of the relevant history. `day` maps an instant to its
      local calendar day. */
  function SessionDays(prior: seq<Observation>, day: int -> int): set<int> {
    set i | 0 <= i < |prior| :: day(prior[i].observedAt)
  }

  /** A day is in the window when fewer than `window` session days are later. */
  ghost predicate InWindow(days: set<int>, window: nat, d: int) {
    d in days && |set later | later in days && later > d| < window
  }

  ghost function WindowDays(days: set<int>, window: nat): set<int> {
    set d | d in days && InWindow(days, window, d)
  }

  function CountIn(prior: seq<Observation>, day: int -> int, kept: set<int>): nat {
    if prior == [] then 0
    else CountIn(prior[..|prior| - 1], day, kept) + if day(prior[|prior| - 1].observedAt) in kept then 1 else 0
  }

  function CountAtMostIn(prior: seq<Observation>, day: int -> int, kept: set<int>, iv: real): nat {
    if prior == [] then 0
    else
      var last := prior[|prior| - 1];
      CountAtMostIn(prior[..|prior| - 1], day, kept, iv)
      + if day(last.observedAt) in kept && last.impliedVolatility <= iv then 1 else 0
  }

  function Ratio(part: nat, whole: nat): Percentage {
    if whole == 0 then Undefined else Percent(100.0 * part as real / whole as real)
  }

  ghost function RankOf(history: seq<Observation>, current: Observation, policy: Policy, day: int -> int): RankResult {
    var prior := Filter(history, RelevantTo(current));
    var kept := WindowDays(SessionDays(prior, day), policy.windowSessions);
    var total := CountIn(prior, day, kept);
    RankResult(
      if |kept| < policy.minSessions then None
      else Some(Ratio(CountAtMostIn(prior, day, kept, current.impliedVolatility), total)),
      |kept|, total)
  }

  // ----- the program: a map by session, evicted from its first key -----

  function MinOf(days: set<int>): (least: int)
    requires days != {}
    ensures least in days && forall d | d in days :: least <= d
  {
    assert (forall d :: d !in days) ==> days == {};
    var some :| some in days;
    MinExists(days, some);
    var least :| least in days && forall d | d in days :: least <= d;
    least
  }

  lemma {:induction false} MinExists(days: set<int>, some: int)
    requires some in days
    ensures exists least :: least in days && forall d | d in days :: least <= d
    decreases |days|
  {
    if lower :| lower in days && lower < some {
      MinExists(days - {some}, lower);
      var least :| least in days - {some} && forall d | d in days - {some} :: least <= d;
      assert forall d | d in days :: d == some || d in days - {some};
    }
  }

  ghost predicate LaterDaysOf(days: set<int>, kept: set<int>) {
    kept <= days && forall d, e | d in kept && e in days && e > d :: e in kept
  }

  /** An upper part of the days, as large as the window or complete, is the window. */
  lemma UpperPartIsWindow(days: set<int>, kept: set<int>, window: nat)
    requires LaterDaysOf(days, kept) && |kept| <= window && (kept == days || |kept| == window)
    ensures kept == WindowDays(days, window)
  {
    forall d | d in days ensures d in kept <==> InWindow(days, window, d) {
      var later := set e | e in days && e > d;
      if d in kept {
        assert later <= kept - {d};
        SubsetSize(later, kept - {d});
      } else {
        forall e | e in kept ensures e in later {
          assert e < d ==> d in kept;
        }
        SubsetSize(kept, later);
      }
    }
  }

  lemma {:induction false} SubsetSize<T>(a: set<T>, b: set<T>)
    requires a <= b
    ensures |a| <= |b|
  {
    assert b == a + (b - a);
  }

  method PointInTimeIvRank(history: seq<Observation>, current: Observation, policy: Policy, day: int -> int)
    returns (result: RankResult)
    ensures result == RankOf(history, current, policy, day)
  {
    var prior := Filter(history, RelevantTo(current));
    var sessions := GroupBySession(prior, day);
    sessions := EvictOldest(prior, day, sessions, policy.windowSessions);
    var total, below := CountWindow(prior, day, sessions, current.impliedVolatility);
    result := RankResult(
      if |sessions| < policy.minSessions then None else Some(Ratio(below, total)),
      |sessions|, total);
    assert |sessions| == |sessions.Keys|;
  }

  method GroupBySession(prior: seq<Observation>, day: int -> int) returns (sessions: map<int, seq<Observation>>)
    ensures sessions.Keys == SessionDays(prior, day) && GroupedAs(prior, day, sessions)
  {
    sessions := map[];
    for n := 0 to |prior|
      invariant sessions.Keys == SessionDays(prior[..n], day)
      invariant GroupedAs(prior[..n], day, sessions)
    {
      var item := prior[n];
      var d := day(item.observedAt);
      var group := if d in sessions then sessions[d] else [];
      GroupSnoc(prior[..n], item, day, sessions, group + [item]);
      assert prior[..n + 1] == prior[..n] + [item];
      sessions := sessions[d := group + [item]];
    }
    assert prior[..|prior|] == prior;
  }

  /** Drops the first key while there are too many. */
  method EvictOldest(ghost prior: seq<Observation>, ghost day: int -> int, sessions: map<int, seq<Observation>>, window: nat)
    returns (kept: map<int, seq<Observation>>)
    requires GroupedAs(prior, day, sessions)
    ensures kept.Keys == WindowDays(sessions.Keys, window)
    ensures forall d | d in kept :: GroupOf(prior, day, d, kept[d])
  {
    kept := sessions;
    while |kept| > window
      invariant LaterDaysOf(sessions.Keys, kept.Keys)
      invariant kept.Keys == sessions.Keys || |kept.Keys| >= window
      invariant forall d | d in kept :: GroupOf(prior, day, d, kept[d])
      decreases |kept|
    {
      var first := MinOf(kept.Keys);
      var smaller := kept - {first};
      assert smaller.Keys == kept.Keys - {first};
      kept := smaller;
    }
    assert |kept| == |kept.Keys|;
    UpperPartIsWindow(sessions.Keys, kept.Keys, window);
  }

  method CountWindow(prior: seq<Observation>, day: int -> int, kept: map<int, seq<Observation>>, iv: real)
    returns (total: nat, below: nat)
    requires forall d | d in kept :: GroupOf(prior, day, d, kept[d])
    ensures total == CountIn(prior, day, kept.Keys) && below == CountAtMostIn(prior, day, kept.Keys, iv)
  {
    total, below := 0, 0;
    var left := kept.Keys;
    NoDaysNoCount(prior, day, iv);
    assert kept.Keys - left == {};
    while left != {}
      invariant left <= kept.Keys
      invariant total == CountIn(prior, day, kept.Keys - left)
      invariant below == CountAtMostIn(prior, day, kept.Keys - left, iv)
      decreases |left|
    {
      var d :| d in left;
      OneMoreDay(prior, day, kept.Keys - left, d, kept[d], iv);
      total := total + |kept[d]|;
      below := below + CountUpTo(kept[d], iv);
      assert kept.Keys - (left - {d}) == kept.Keys - left + {d};
      left := left - {d};
    }
    assert kept.Keys - {} == kept.Keys;
  }

  lemma {:induction false} NoDaysNoCount(prior: seq<Observation>, day: int -> int, iv: real)
    ensures CountIn(prior, day, {}) == 0 && CountAtMostIn(prior, day, {}, iv) == 0
  {
    if prior != [] {
      NoDaysNoCount(prior[..|prior| - 1], day, iv);
    }
  }

  function CountUpTo(items: seq<Observation>, iv: real): nat {
    if items == [] then 0
    else CountUpTo(items[..|items| - 1], iv) + if items[|items| - 1].impliedVolatility <= iv then 1 else 0
  }

  function OfDay(prior: seq<Observation>, day: int -> int, d: int): seq<Observation> {
    if prior == [] then []
    else
      var last := prior[|prior| - 1];
      OfDay(prior[..|prior| - 1], day, d) + if day(last.observedAt) == d then [last] else []
  }

  predicate GroupOf(prior: seq<Observation>, day: int -> int, d: int, group: seq<Observation>) {
    group == OfDay(prior, day, d)
  }

  ghost predicate GroupedAs(prior: seq<Observation>, day: int -> int, sessions: map<int, seq<Observation>>) {
    forall d :: if d in sessions then GroupOf(prior, day, d, sessions[d]) else OfDay(prior, day, d) == []
  }

  lemma GroupSnoc(prior: seq<Observation>, item: Observation, day: int -> int,
                  sessions: map<int, seq<Observation>>, group: seq<Observation>)
    requires GroupedAs(prior, day, sessions) && sessions.Keys == SessionDays(prior, day)
    requires var d := day(item.observedAt); group == (if d in sessions then sessions[d] else []) + [item]
    ensures GroupedAs(prior + [item], day, sessions[day(item.observedAt) := group])
    ensures SessionDays(prior + [item], day) == SessionDays(prior, day) + {day(item.observedAt)}
  {
    var more := prior + [item];
    assert more[..|prior|] == prior;
    forall i | 0 <= i < |prior| ensures day(prior[i].observedAt) in SessionDays(more, day) {
      assert more[i] == prior[i];
    }
    assert more[|prior|] == item;
  }

  lemma CountUpToSnoc(items: seq<Observation>, item: Observation, iv: real)
    ensures CountUpTo(items + [item], iv) == CountUpTo(items, iv) + if item.impliedVolatility <= iv then 1 else 0
  {
    assert (items + [item])[..|items|] == items;
  }

  /** Counting a new day of the window is counting its group. */
  lemma {:induction false} OneMoreDay(prior: seq<Observation>, day: int -> int, kept: set<int>, d: int, group: seq<Observation>, iv: real)
    requires d !in kept && GroupOf(prior, day, d, group)
    ensures CountIn(prior, day, kept + {d}) == CountIn(prior, day, kept) + |group|
    ensures CountAtMostIn(prior, day, kept + {d}, iv) == CountAtMostIn(prior, day, kept, iv) + CountUpTo(group, iv)
  {
    if prior != [] {
      var n := |prior| - 1;
      OneMoreDay(prior[..n], day, kept, d, OfDay(prior[..n], day, d), iv);
      if day(prior[n].observedAt) == d {
        CountUpToSnoc(OfDay(prior[..n], day, d), prior[n], iv);
      } else {
        assert group == OfDay(prior[..n], day, d);
      }
    }
  }

  // ----- what the rank means -----

  lemma {:induction false} CountsAreOrdered(prior: seq<Observation>, day: int -> int, kept: set<int>, low: real, high: real)
    requires low <= high
    ensures CountAtMostIn(prior, day, kept, low) <= CountAtMostIn(prior, day, kept, high) <= CountIn(prior, day, kept)
  {
    if prior != [] {
      CountsAreOrdered(prior[..|prior| - 1], day, kept, low, high);
    }
  }

  lemma RatioGrows(a: nat, b: nat, whole: nat)
    requires a <= b <= whole && whole > 0
    ensures 0.0 <= Ratio(a, whole).value <= Ratio(b, whole).value <= 100.0
  {
    var w := whole as real;
    Quotients(100.0 * a as real, 100.0 * b as real, w);
    Quotients(100.0 * b as real, 100.0 * w, w);
    Quotients(0.0, 100.0 * a as real, w);
    assert 100.0 * w / w == 100.0;
  }

  lemma Quotients(x: real, y: real, w: real)
    requires x <= y && w > 0.0
    ensures x / w <= y / w
  {
    assert (y - x) / w >= 0.0;
    assert y / w == x / w + (y - x) / w;
  }

  lemma {:induction false} KeptDaysHaveItems(prior: seq<Observation>, day: int -> int, kept: set<int>, d: int)
    requires d in kept && d in SessionDays(prior, day)
    ensures CountIn(prior, day, kept) > 0
  {
    var n := |prior| - 1;
    if day(prior[n].observedAt) !in kept {
      var i :| 0 <= i < |prior| && day(prior[i].observedAt) == d;
      assert prior[..n][i] == prior[i];
      KeptDaysHaveItems(prior[..n], day, kept, d);
    }
  }

  /** With a minimum of at least one session a rank that exists is a percentage,
      and it never falls when the current volatility rises. */
  lemma RankIsMonotonePercentage(history: seq<Observation>, current: Observation, raised: real, policy: Policy, day: int -> int)
    requires policy.minSessions >= 1 && current.impliedVolatility <= raised
    ensures var low := RankOf(history, current, policy, day).rank;
            var high := RankOf(history, current.(impliedVolatility := raised), policy, day).rank;
            && (low.Some? <==> high.Some?)
            && (low.Some? ==> low.value.Percent? && high.value.Percent?
                              && 0.0 <= low.value.value <= high.value.value <= 100.0)
  {
    var later := current.(impliedVolatility := raised);
    SameRelevance(history, current, later);
    var prior := Filter(history, RelevantTo(current));
    var days := SessionDays(prior, day);
    var kept := WindowDays(days, policy.windowSessions);
    if |kept| >= policy.minSessions {
      assert kept != {};
      var d :| d in kept;
      KeptDaysHaveItems(prior, day, kept, d);
      CountsAreOrdered(prior, day, kept, current.impliedVolatility, raised);
      RatioGrows(CountAtMostIn(prior, day, kept, current.impliedVolatility),
                 CountAtMostIn(prior, day, kept, raised), CountIn(prior, day, kept));
    }
  }

  /** The rank over the fields: of the observations that are strictly earlier, about the
      same underlying, kind and tenor, and positive, those of the window days are
      counted, and the rank is the percentage of them at most the current one. */
  lemma RankInFields(history: seq<Observation>, current: Observation, policy: Policy, day: int -> int)
    ensures var prior := Filter(history, (item: Observation) =>
                           && !(item.observedAt >= current.observedAt) && !(item.impliedVolatility <= 0.0)
                           && (item.underlying, item.kind, item.tenorDays) == (current.underlying, current.kind, current.tenorDays));
            var kept := WindowDays(SessionDays(prior, day), policy.windowSessions);
            var report := RankOf(history, current, policy, day);
            var below := CountAtMostIn(prior, day, kept, current.impliedVolatility);
            && report.windowSessions == |kept| && report.observations == CountIn(prior, day, kept)
            && (report.rank.Some? <==> |kept| >= policy.minSessions)
            && (report.rank.Some? ==>
                  if report.observations == 0 then report.rank == Some(Undefined)
                  else report.rank.value.Percent?
                       && report.rank.value.value * report.observations as real == 100.0 * below as real)
  {
    SameRelevant(history, current);
  }

  lemma {:induction false} SameRelevant(history: seq<Observation>, current: Observation)
    ensures Filter(history, RelevantTo(current)) ==
            Filter(history, (item: Observation) =>
              && !(item.observedAt >= current.observedAt) && !(item.impliedVolatility <= 0.0)
              && (item.underlying, item.kind, item.tenorDays) == (current.underlying, current.kind, current.tenorDays))
  {
    if history != [] {
      SameRelevant(history[1..], current);
    }
  }

  lemma {:induction false} SameRelevance(history: seq<Observation>, a: Observation, b: Observation)
    requires forall item :: Relevant(a, item) == Relevant(b, item)
    ensures Filter(history, RelevantTo(a)) == Filter(history, RelevantTo(b))
  {
    if history != [] {
      SameRelevance(history[1..], a, b);
    }
  }

  // ----- only the relevant past counts, in any order -----

  lemma {:induction false} CountsWithoutOne(before: seq<Observation>, item: Observation, after: seq<Observation>,
                                            day: int -> int, kept: set<int>, iv: real)
    ensures CountIn(before + [item] + after, day, kept)
            == CountIn(before + after, day, kept) + if day(item.observedAt) in kept then 1 else 0
    ensures CountAtMostIn(before + [item] + after, day, kept, iv)
            == CountAtMostIn(before + after, day, kept, iv)
               + if day(item.observedAt) in kept && item.impliedVolatility <= iv then 1 else 0
  {
    var all := before + [item] + after;
    if after == [] {
      assert all[..|all| - 1] == before && before + after == before;
    } else {
      var n := |after| - 1;
      CountsWithoutOne(before, item, after[..n], day, kept, iv);
      assert all[..|all| - 1] == before + [item] + after[..n];
      assert (before + after)[..|before| + n] == before + after[..n];
    }
  }

  lemma {:induction false} CountsIgnoreOrder(a: seq<Observation>, b: seq<Observation>, day: int -> int, kept: set<int>, iv: real)
    requires multiset(a) == multiset(b)
    ensures CountIn(a, day, kept) == CountIn(b, day, kept)
    ensures CountAtMostIn(a, day, kept, iv) == CountAtMostIn(b, day, kept, iv)
    decreases |a|
  {
    if a == [] {
      assert |multiset(b)| == 0;
    } else {
      var j := PermutationWithoutLast(a, b);
      assert b == b[..j] + [b[j]] + b[j + 1..];
      CountsWithoutOne(b[..j], b[j], b[j + 1..], day, kept, iv);
      CountsIgnoreOrder(a[..|a| - 1], b[..j] + b[j + 1..], day, kept, iv);
    }
  }

  lemma DaysIgnoreOrder(a: seq<Observation>, b: seq<Observation>, day: int -> int)
    requires multiset(a) == multiset(b)
    ensures SessionDays(a, day) == SessionDays(b, day)
  {
    forall i | 0 <= i < |a| ensures day(a[i].observedAt) in SessionDays(b, day) {
      assert a[i] in multiset(b);
      var j :| 0 <= j < |b| && b[j] == a[i];
    }
    forall i | 0 <= i < |b| ensures day(b[i].observedAt) in SessionDays(a, day) {
      assert b[i] in multiset(a);
      var j :| 0 <= j < |a| && a[j] == b[i];
    }
  }

  /** Two histories with the same relevant past, in whatever order and whatever
      else they hold (later, invalid or other observations), give the same rank. */
  lemma OnlyRelevantPastMatters(a: seq<Observation>, b: seq<Observation>, current: Observation, policy: Policy, day: int -> int)
    requires multiset(Filter(a, RelevantTo(current))) == multiset(Filter(b, RelevantTo(current)))
    ensures RankOf(a, current, policy, day) == RankOf(b, current, policy, day)
  {
    var priorA, priorB := Filter(a, RelevantTo(current)), Filter(b, RelevantTo(current));
    DaysIgnoreOrder(priorA, priorB, day);
    CountsIgnoreOrder(priorA, priorB, day, WindowDays(SessionDays(priorA, day), policy.windowSessions), current.impliedVolatility);
  }

  lemma {:induction false} FilterOfPermutation(a: seq<Observation>, b: seq<Observation>, keep: Observation -> bool)
    requires multiset(a) == multiset(b)
    ensures multiset(Filter(a, keep)) == multiset(Filter(b, keep))
    decreases |a|
  {
    if a == [] {
      assert |multiset(b)| == 0;
    } else {
      var n := |a| - 1;
      var j := PermutationWithoutLast(a, b);
      FilterConcat(a[..n], [a[n]], keep);
      FilterConcat(b[..j], [b[j]] + b[j + 1..], keep);
      FilterConcat([b[j]], b[j + 1..], keep);
      FilterConcat(b[..j], b[j + 1..], keep);
      assert a == a[..n] + [a[n]] && b == b[..j] + ([b[j]] + b[j + 1..]);
      FilterOfPermutation(a[..n], b[..j] + b[j + 1..], keep);
    }
  }

  lemma {:induction false} FilterConcat(a: seq<Observation>, b: seq<Observation>, keep: Observation -> bool)
    ensures Filter(a + b, keep) == Filter(a, keep) + Filter(b, keep)
  {
    if a == [] {
      assert a + b == b;
    } else {
      assert (a + b)[1..] == a[1..] + b;
      FilterConcat(a[1..], b, keep);
    }
  }

  /** In particular the order of the history file is irrelevant. */
  lemma RankIgnoresOrder(a: seq<Observation>, b: seq<Observation>, current: Observation, policy: Policy, day: int -> int)
    requires multiset(a) == multiset(b)
    ensures RankOf(a, current, policy, day) == RankOf(b, current, policy, day)
  {
    FilterOfPermutation(a, b, RelevantTo(current));
    OnlyRelevantPastMatters(a, b, current, policy, day);
  }

  /** The window is exactly the latest session days, as many as it has room for. */
  lemma {:induction false} WindowSize(days: set<int>, window: nat)
    ensures |WindowDays(days, window)| == if |days| <= window then |days| else window
    decreases |days|
  {
    if |days| <= window {
      forall d | d in days ensures InWindow(days, window, d) {
        var later := set e | e in days && e > d;
        assert later <= days - {d};
        SubsetSize(later, days - {d});
      }
      assert WindowDays(days, window) == days;
    } else {
      var least := MinOf(days);
      var rest := days - {least};
      WindowSize(rest, window);
      assert (set e | e in days && e > least) == rest;
      forall d | d in rest ensures InWindow(days, window, d) <==> InWindow(rest, window, d) {
        assert (set e | e in days && e > d) == (set e | e in rest && e > d);
      }
      assert WindowDays(days, window) == WindowDays(rest, window);
    }
  }
}
