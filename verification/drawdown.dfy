/** Drawdown of a trade list and of its days (src/learning.rs, src/experiments.rs). */
module Drawdowns {
  import opened Common

  /** Equity after the first `k` trades. */
  function Equity(values: seq<real>, k: nat): real
    requires k <= |values|
  {
    if k == 0 then 0.0 else Equity(values, k - 1) + values[k - 1]
  }

  /** The fall of equity from one point to a later one. */
  function Fall(values: seq<real>, from: nat, to: nat): real
    requires from <= to <= |values|
  {
    Equity(values, from) - Equity(values, to)
  }

  /** `drop` is the largest fall of equity within the first `n` trades. */
  ghost predicate IsDropWithin(values: seq<real>, n: nat, drop: real)
    requires n <= |values|
  {
    && (forall i, j | 0 <= i <= j <= n :: Fall(values, i, j) <= drop)
    && (exists i, j :: 0 <= i <= j <= n && Fall(values, i, j) == drop)
  }

  ghost predicate IsLargestDrop(values: seq<real>, drop: real) {
    IsDropWithin(values, |values|, drop)
  }

  ghost predicate IsPeak(values: seq<real>, n: nat, peak: real)
    requires n <= |values|
  {
    && (forall i | 0 <= i <= n :: Equity(values, i) <= peak)
    && (exists i :: 0 <= i <= n && Equity(values, i) == peak)
  }

  lemma PeakGrows(values: seq<real>, n: nat, peak: real)
    requires n < |values| && IsPeak(values, n, peak)
    ensures IsPeak(values, n + 1, Max(peak, Equity(values, n + 1)))
  {
    var i :| 0 <= i <= n && Equity(values, i) == peak;
    assert 0 <= i <= n + 1 && 0 <= n + 1 <= n + 1;
    if peak < Equity(values, n + 1) {
      assert Equity(values, n + 1) == Max(peak, Equity(values, n + 1));
    }
  }

  lemma DropGrows(values: seq<real>, n: nat, top: real, drop: real)
    requires n < |values| && IsPeak(values, n + 1, top) && IsDropWithin(values, n, drop)
    ensures IsDropWithin(values, n + 1, Max(drop, top - Equity(values, n + 1)))
  {
    var last := top - Equity(values, n + 1);
    forall i, j | 0 <= i <= j <= n + 1 ensures Fall(values, i, j) <= Max(drop, last) {
      if j == n + 1 {
        assert Equity(values, i) <= top;
      }
    }
    if drop >= last {
      var a, b :| 0 <= a <= b <= n && Fall(values, a, b) == drop;
      assert 0 <= a <= b <= n + 1;
    } else {
      var p :| 0 <= p <= n + 1 && Equity(values, p) == top;
      assert Fall(values, p, n + 1) == last;
    }
  }

  /** The drawdown as a value, for results that contain it. */
  ghost function LargestDrop(values: seq<real>): (drop: real)
    ensures IsLargestDrop(values, drop)
  {
    LargestDropExists(values, |values|);
    var drop :| IsDropWithin(values, |values|, drop);
    drop
  }

  lemma {:induction false} LargestDropExists(values: seq<real>, n: nat)
    requires n <= |values|
    ensures exists peak :: IsPeak(values, n, peak)
    ensures exists drop :: IsDropWithin(values, n, drop)
  {
    if n == 0 {
      assert Equity(values, 0) == 0.0 && Fall(values, 0, 0) == 0.0;
      assert IsPeak(values, 0, 0.0) && IsDropWithin(values, 0, 0.0);
    } else {
      LargestDropExists(values, n - 1);
      var peak :| IsPeak(values, n - 1, peak);
      var drop :| IsDropWithin(values, n - 1, drop);
      PeakGrows(values, n - 1, peak);
      DropGrows(values, n - 1, Max(peak, Equity(values, n)), drop);
    }
  }

  method MaxDrawdown(values: seq<real>) returns (drawdown: real)
    ensures IsLargestDrop(values, drawdown) && drawdown >= 0.0
  {
    var equity, peak := 0.0, 0.0;
    drawdown := 0.0;
    assert Equity(values, 0) == 0.0 && Fall(values, 0, 0) == 0.0;
    for n := 0 to |values|
      invariant equity == Equity(values, n) && drawdown >= 0.0
      invariant IsPeak(values, n, peak)
      invariant IsDropWithin(values, n, drawdown)
    {
      equity := equity + values[n];
      PeakGrows(values, n, peak);
      peak := Max(peak, equity);
      DropGrows(values, n, peak, drawdown);
      drawdown := Max(drawdown, peak - equity);
    }
  }

  lemma LargestDropIsUnique(values: seq<real>, a: real, b: real)
    requires IsLargestDrop(values, a) && IsLargestDrop(values, b)
    ensures a == b
  {
    var i, j :| 0 <= i <= j <= |values| && Fall(values, i, j) == a;
    var k, l :| 0 <= k <= l <= |values| && Fall(values, k, l) == b;
    assert Fall(values, i, j) <= b && Fall(values, k, l) <= a;
  }

  // ----- by day -----

  datatype DayTrade = DayTrade(day: int, pnl: real)

  function Pnls(trades: seq<DayTrade>): (pnls: seq<real>)
    ensures |pnls| == |trades|
  {
    seq(|trades|, i requires 0 <= i < |trades| => trades[i].pnl)
  }

  function OfDay(trades: seq<DayTrade>, day: int): seq<DayTrade> {
    if trades == [] then []
    else if trades[0].day == day then [trades[0]] + OfDay(trades[1..], day)
    else OfDay(trades[1..], day)
  }

  function Days(trades: seq<DayTrade>): set<int> {
    set i | 0 <= i < |trades| :: trades[i].day
  }

  /** The trades of each day stand together. Session order is one way to get this. */
  ghost predicate Contiguous(trades: seq<DayTrade>) {
    forall i, j, k | 0 <= i < j < k < |trades| && trades[i].day == trades[k].day :: trades[j].day == trades[i].day
  }

  ghost predicate SessionOrder(trades: seq<DayTrade>) {
    forall i, j | 0 <= i < j < |trades| :: trades[i].day <= trades[j].day
  }

  lemma SessionOrderIsContiguous(trades: seq<DayTrade>)
    requires SessionOrder(trades)
    ensures Contiguous(trades)
  {
    forall i, j, k | 0 <= i < j < k < |trades| && trades[i].day == trades[k].day
      ensures trades[j].day == trades[i].day
    {
      assert trades[i].day <= trades[j].day <= trades[k].day;
    }
  }

  method MaxDailyDrawdown(trades: seq<DayTrade>) returns (worst: real)
    ensures worst >= 0.0
    ensures forall day, drop | day in Days(trades) && IsLargestDrop(Pnls(OfDay(trades, day)), drop) :: drop <= worst
    ensures worst == 0.0 || exists day :: day in Days(trades) && IsLargestDrop(Pnls(OfDay(trades, day)), worst)
  {
    worst := 0.0;
    var left := Days(trades);
    while left != {}
      invariant left <= Days(trades) && worst >= 0.0
      invariant forall day, drop | day in Days(trades) - left && IsLargestDrop(Pnls(OfDay(trades, day)), drop) :: drop <= worst
      invariant worst == 0.0 || exists day :: day in Days(trades) && IsLargestDrop(Pnls(OfDay(trades, day)), worst)
      decreases |left|
    {
      var day :| day in left;
      var drawdown := MaxDrawdown(Pnls(OfDay(trades, day)));
      forall drop | IsLargestDrop(Pnls(OfDay(trades, day)), drop) ensures drop == drawdown {
        LargestDropIsUnique(Pnls(OfDay(trades, day)), drop, drawdown);
      }
      worst := Max(worst, drawdown);
      left := left - {day};
    }
  }

  lemma {:induction false} EquityOfSlice(values: seq<real>, from: nat, to: nat, k: nat)
    requires from <= to <= |values| && k <= to - from
    ensures Equity(values[from..to], k) == Equity(values, from + k) - Equity(values, from)
  {
    if k > 0 {
      EquityOfSlice(values, from, to, k - 1);
    }
  }

  /** A stretch of the trades cannot fall further than the whole. */
  lemma SliceDropsLess(values: seq<real>, from: nat, to: nat, part: real, whole: real)
    requires from <= to <= |values|
    requires IsLargestDrop(values[from..to], part) && IsLargestDrop(values, whole)
    ensures part <= whole
  {
    var slice := values[from..to];
    var i, j :| 0 <= i <= j <= |slice| && Fall(slice, i, j) == part;
    EquityOfSlice(values, from, to, i);
    EquityOfSlice(values, from, to, j);
    assert Fall(values, from + i, from + j) == part;
  }

  /** A day whose trades stand together is one stretch. */
  lemma {:induction false} DayIsSlice(trades: seq<DayTrade>, day: int) returns (from: nat, to: nat)
    requires Contiguous(trades)
    ensures from <= to <= |trades| && OfDay(trades, day) == trades[from..to]
    ensures forall i | 0 <= i < from :: trades[i].day != day
    ensures from == to ==> OfDay(trades, day) == []
  {
    if trades == [] {
      return 0, 0;
    }
    var f, t := DayIsSlice(trades[1..], day);
    if trades[0].day != day {
      from, to := f + 1, t + 1;
      assert trades[1..][f..t] == trades[from..to];
    } else if f == t {
      from, to := 0, 1;
    } else {
      OfDayMembers(trades[1..], day, f, t);
      assert trades[1..][f] == trades[f + 1];
      if f > 0 {
        assert false; // the first day of the rest would be this one
      }
      from, to := 0, t + 1;
      assert [trades[0]] + trades[1..][0..t] == trades[0..t + 1];
    }
  }

  lemma {:induction false} OfDayAll(trades: seq<DayTrade>, day: int)
    ensures forall i | 0 <= i < |OfDay(trades, day)| :: OfDay(trades, day)[i].day == day
  {
    if trades != [] {
      OfDayAll(trades[1..], day);
    }
  }

  lemma OfDayMembers(trades: seq<DayTrade>, day: int, from: nat, to: nat)
    requires from < to <= |trades| && OfDay(trades, day) == trades[from..to]
    ensures trades[from].day == day
  {
    OfDayAll(trades, day);
    assert trades[from..to][0] == trades[from];
  }

  /** When each day's trades stand together, no day falls further than the whole list. */
  lemma DailyNeverExceedsTotal(trades: seq<DayTrade>, day: int, daily: real, total: real)
    requires Contiguous(trades)
    requires IsLargestDrop(Pnls(OfDay(trades, day)), daily) && IsLargestDrop(Pnls(trades), total)
    ensures daily <= total
  {
    var from, to := DayIsSlice(trades, day);
    assert Pnls(trades[from..to]) == Pnls(trades)[from..to];
    SliceDropsLess(Pnls(trades), from, to, daily, total);
  }

  ghost predicate DailyWithinTotal(trades: seq<DayTrade>) {
    forall day :: LargestDrop(Pnls(OfDay(trades, day))) <= LargestDrop(Pnls(trades))
  }

  /** Trades listed as they closed meet this. */
  lemma SessionOrderKeepsDailyWithin(trades: seq<DayTrade>)
    requires SessionOrder(trades)
    ensures DailyWithinTotal(trades)
  {
    SessionOrderIsContiguous(trades);
    forall day ensures LargestDrop(Pnls(OfDay(trades, day))) <= LargestDrop(Pnls(trades)) {
      DailyNeverExceedsTotal(trades, day, LargestDrop(Pnls(OfDay(trades, day))), LargestDrop(Pnls(trades)));
    }
  }

  // ----- and only then -----

  function Trades(days: seq<int>, pnls: seq<real>): (trades: seq<DayTrade>)
    requires |days| == |pnls|
    ensures |trades| == |days|
  {
    seq(|days|, i requires 0 <= i < |days| => DayTrade(days[i], pnls[i]))
  }

  /** Lose one, win one, lose one, and nothing else. */
  function Swing(n: nat, i: nat, j: nat, k: nat): (pnls: seq<real>)
    ensures |pnls| == n
  {
    seq(n, x => if x == i || x == k then -1.0 else if x == j then 1.0 else 0.0)
  }

  lemma {:induction false} SwingEquity(n: nat, i: nat, j: nat, k: nat, m: nat)
    requires i < j < k < n && m <= n
    ensures Equity(Swing(n, i, j, k), m) == if i < m <= j || k < m then -1.0 else 0.0
  {
    if m > 0 {
      SwingEquity(n, i, j, k, m - 1);
    }
  }

  lemma SwingDropsByOne(n: nat, i: nat, j: nat, k: nat)
    requires i < j < k < n
    ensures LargestDrop(Swing(n, i, j, k)) <= 1.0
  {
    var pnls := Swing(n, i, j, k);
    var a, b :| 0 <= a <= b <= n && Fall(pnls, a, b) == LargestDrop(pnls);
    SwingEquity(n, i, j, k, a);
    SwingEquity(n, i, j, k, b);
  }

  /** What a day earned from position `m` on. */
  lemma {:induction false} SwingDayTotal(days: seq<int>, i: nat, j: nat, k: nat, m: nat)
    requires i < j < k < |days| && days[i] == days[k] != days[j] && m <= |days|
    ensures var own := Pnls(OfDay(Trades(days, Swing(|days|, i, j, k))[m..], days[i]));
            Equity(own, |own|) == -(if m <= i then 1.0 else 0.0) - if m <= k then 1.0 else 0.0
    decreases |days| - m
  {
    var trades := Trades(days, Swing(|days|, i, j, k));
    var day := days[i];
    if m < |days| {
      SwingDayTotal(days, i, j, k, m + 1);
      assert trades[m..][1..] == trades[m + 1..] && trades[m..][0] == trades[m];
      var own, rest := Pnls(OfDay(trades[m..], day)), Pnls(OfDay(trades[m + 1..], day));
      if trades[m].day == day {
        assert own[1..] == rest && own[0] == trades[m].pnl;
        EquityOfSlice(own, 1, |own|, |rest|);
        assert own[1..|own|] == rest;
        assert Equity(own, 1) == own[0];
      }
    } else {
      assert trades[m..] == [];
    }
  }

  lemma SplitDayExceedsTotal(days: seq<int>, i: nat, j: nat, k: nat)
    requires i < j < k < |days| && days[i] == days[k] != days[j]
    ensures !DailyWithinTotal(Trades(days, Swing(|days|, i, j, k)))
  {
    var pnls := Swing(|days|, i, j, k);
    var trades := Trades(days, pnls);
    SwingDropsByOne(|days|, i, j, k);
    assert Pnls(trades) == pnls;
    SwingDayTotal(days, i, j, k, 0);
    assert trades[0..] == trades;
    var own := Pnls(OfDay(trades, days[i]));
    assert Fall(own, 0, |own|) == 2.0;
    assert LargestDrop(own) >= 2.0;
  }

  /** The days of a list keep every daily drawdown within the total one, whatever the
      trades earn, if and only if the trades of each day stand together. */
  lemma DailyWithinTotalExactly(days: seq<int>)
    ensures (forall pnls: seq<real> | |pnls| == |days| :: DailyWithinTotal(Trades(days, pnls)))
            <==> forall i, j, k | 0 <= i < j < k < |days| && days[i] == days[k] :: days[j] == days[i]
  {
    if forall i, j, k | 0 <= i < j < k < |days| && days[i] == days[k] :: days[j] == days[i] {
      forall pnls: seq<real> | |pnls| == |days| ensures DailyWithinTotal(Trades(days, pnls)) {
        var trades := Trades(days, pnls);
        forall day ensures LargestDrop(Pnls(OfDay(trades, day))) <= LargestDrop(Pnls(trades)) {
          DailyNeverExceedsTotal(trades, day, LargestDrop(Pnls(OfDay(trades, day))), LargestDrop(Pnls(trades)));
        }
      }
    } else {
      var i, j, k :| 0 <= i < j < k < |days| && days[i] == days[k] && days[j] != days[i];
      SplitDayExceedsTotal(days, i, j, k);
    }
  }
}
