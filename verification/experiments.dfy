/** Temporal experiments: variants are chosen on a selection interval and judged on
    a later one (src/experiments.rs). */
module Experiments {
  import opened Common
  import opened Sorting
  import opened Drawdowns

  datatype Kind = CallTrade | PutTrade

  datatype Trade = Trade(
    kind: Kind,
    openedAt: i64,
    closedAt: i64,
    netPnl: real,
    stressedNetPnl: real,
    rMultiple: real,
    slope: Option<real>,
    entryPrice: real,
    contracts: u32)

  datatype Variant = Variant(
    name: string,
    entryDelayMinutes: u32,
    extraCostBps: real,
    maxRiskMultiple: real,
    volatilityNormalized: bool)

  datatype Manifest = Manifest(
    variants: seq<Variant>,
    selectionStart: Option<i64>,
    selectionEnd: i64,
    holdoutStart: i64,
    holdoutEnd: Option<i64>)

  datatype Metrics = Metrics(
    observations: nat,
    sessions: nat,
    calls: nat,
    puts: nat,
    coverage: real,
    netExpectancy: real,
    stressedExpectancy: real,
    maximumDrawdown: real,
    byHour: map<int, nat>,
    costSensitivity: map<string, real>)

  datatype ExperimentResult = ExperimentResult(
    selectedVariant: Option<string>,
    selectionMetrics: map<string, Metrics>,
    holdoutMetrics: Option<Metrics>)

  // ----- local time -----

  function LocalSeconds(timestamp: i64): i64 {
    SatSub(timestamp, 3 * 3_600)
  }

  function ArgentinaSession(timestamp: i64): int {
    LocalSeconds(timestamp) / 86_400
  }

  function LocalHour(timestamp: i64): (hour: int)
    ensures 0 <= hour < 24
  {
    LocalSeconds(timestamp) % 86_400 / 3_600
  }

  function MinutesAfterOpen(timestamp: i64): int {
    LocalSeconds(timestamp) % 86_400 / 60 - (10 * 60 + 30)
  }

  /** The local clock is three hours behind: an instant lies in one second of one minute
      of one hour of its session day, and minutes count from half past ten. */
  lemma ClockExactly(t: i64)
    requires t >= I64_MIN + 10_800
    ensures var day, hour, minute := ArgentinaSession(t), LocalHour(t), MinutesAfterOpen(t) + 630;
            && 0 <= hour < 24 && 0 <= t - 10_800 - (day * 24 + hour) * 3_600 < 3_600
            && 0 <= minute < 1_440 && 0 <= t - 10_800 - (day * 1_440 + minute) * 60 < 60
  {
  }

  // ----- the pieces of an evaluation -----

  function Abs(x: real): real {
    if x >= 0.0 then x else -x
  }

  predicate Accepts(variant: Variant, trade: Trade) {
    && MinutesAfterOpen(trade.openedAt) >= variant.entryDelayMinutes
    && Abs(trade.rMultiple) <= variant.maxRiskMultiple
    && (variant.volatilityNormalized ==> trade.slope.Some? && Abs(trade.slope.value) > 0.0)
  }

  function Adjusted(trade: Trade, extraBps: real): real {
    trade.stressedNetPnl - trade.entryPrice * trade.contracts as real * extraBps / 10_000.0
  }

  predicate IsCall(trade: Trade) {
    trade.kind.CallTrade?
  }

  predicate IsPut(trade: Trade) {
    trade.kind.PutTrade?
  }

  function NetPnl(trade: Trade): real {
    trade.netPnl
  }

  function Accepting(variant: Variant): Trade -> bool {
    trade => Accepts(variant, trade)
  }

  function AdjustedBy(extraBps: real): Trade -> real {
    trade => Adjusted(trade, extraBps)
  }

  function Map<T, U>(items: seq<T>, f: T -> U): (r: seq<U>)
    ensures |r| == |items|
  {
    seq(|items|, i requires 0 <= i < |items| => f(items[i]))
  }

  function Mean(values: seq<real>): real {
    if values == [] then 0.0 else Sum(values) / |values| as real
  }

  function CountHour(trades: seq<Trade>, hour: int): nat {
    if trades == [] then 0
    else CountHour(trades[..|trades| - 1], hour) + if LocalHour(trades[|trades| - 1].openedAt) == hour then 1 else 0
  }

  function HourHistogram(trades: seq<Trade>): map<int, nat> {
    map hour | 0 <= hour < 24 && CountHour(trades, hour) > 0 :: CountHour(trades, hour)
  }

  /** What `evaluate` reports about the trades a variant accepts. */
  ghost function Evaluation(trades: seq<Trade>, variant: Variant): Metrics {
    var accepted := Filter(trades, Accepting(variant));
    var values := Map(accepted, AdjustedBy(variant.extraCostBps));
    Metrics(
      |accepted|,
      |set i | 0 <= i < |accepted| :: ArgentinaSession(accepted[i].openedAt)|,
      |Filter(accepted, IsCall)|,
      |Filter(accepted, IsPut)|,
      if trades == [] then 0.0 else |accepted| as real / |trades| as real,
      Mean(Map(accepted, NetPnl)),
      Mean(values),
      LargestDrop(values),
      HourHistogram(accepted),
      Sensitivity(accepted, variant))
  }

  function Sensitivity(accepted: seq<Trade>, variant: Variant): map<string, real> {
    map["+0bps" := Mean(Map(accepted, AdjustedBy(variant.extraCostBps))),
        "+10bps" := Mean(Map(accepted, AdjustedBy(variant.extraCostBps + 10.0))),
        "+25bps" := Mean(Map(accepted, AdjustedBy(variant.extraCostBps + 25.0))),
        "+50bps" := Mean(Map(accepted, AdjustedBy(variant.extraCostBps + 50.0)))]
  }

  lemma {:induction false} SameFilter<T>(items: seq<T>, f: T -> bool, g: T -> bool)
    requires forall x :: f(x) == g(x)
    ensures Filter(items, f) == Filter(items, g)
  {
    if items != [] {
      SameFilter(items[1..], f, g);
    }
  }

  lemma AdjustedExactly(trade: Trade, extraBps: real)
    ensures (trade.stressedNetPnl - Adjusted(trade, extraBps)) * 10_000.0
            == trade.entryPrice * trade.contracts as real * extraBps
  {
  }

  lemma MeanExactly(values: seq<real>)
    ensures Mean(values) * |values| as real == Sum(values)
    ensures values == [] ==> Mean(values) == 0.0
  {
  }

  /** The trades an evaluation is about, over their fields. */
  function InFields(variant: Variant): Trade -> bool {
    (trade: Trade) =>
      && (trade.openedAt >= I64_MIN + 10_800 ==>
            (trade.openedAt - 10_800) % 86_400 / 60 >= 630 + variant.entryDelayMinutes)
      && (trade.openedAt < I64_MIN + 10_800 ==> Accepts(variant, trade))
      && -variant.maxRiskMultiple <= trade.rMultiple <= variant.maxRiskMultiple
      && (variant.volatilityNormalized ==> trade.slope.Some? && trade.slope != Some(0.0))
  }

  /** The trades an evaluation accepts: late enough after the open, within the risk
      multiple on both sides, and with a slope where that is asked for. */
  lemma {:induction false} AcceptedInFields(trades: seq<Trade>, variant: Variant)
    ensures Filter(trades, Accepting(variant)) == Filter(trades, InFields(variant))
  {
    forall trade: Trade ensures Accepting(variant)(trade) == InFields(variant)(trade) {
      AcceptsExactly(variant, trade);
    }
    SameFilter(trades, Accepting(variant), InFields(variant));
  }

  /** They are counted, and counted by kind. */
  lemma CountsInFields(trades: seq<Trade>, variant: Variant)
    ensures var report, accepted := Evaluation(trades, variant), Filter(trades, InFields(variant));
            && report.observations == |accepted|
            && report.calls == |Filter(accepted, (t: Trade) => t.kind == CallTrade)|
            && report.puts == |Filter(accepted, (t: Trade) => t.kind == PutTrade)|
            && report.byHour == HourHistogram(accepted) && report.costSensitivity == Sensitivity(accepted, variant)
  {
    hide Mean, LargestDrop, HourHistogram, Sensitivity, Map, InFields;
    AcceptedInFields(trades, variant);
    var accepted := Filter(trades, InFields(variant));
    SameFilter(accepted, IsCall, (t: Trade) => t.kind == CallTrade);
    SameFilter(accepted, IsPut, (t: Trade) => t.kind == PutTrade);
  }

  /** And averaged: net, and net of the stress and of the extra cost per entry value.
      `MeanExactly` says what a mean is. */
  lemma AveragesInFields(trades: seq<Trade>, variant: Variant)
    ensures var report, accepted := Evaluation(trades, variant), Filter(trades, InFields(variant));
            && report.netExpectancy == Mean(seq(|accepted|, i requires 0 <= i < |accepted| => accepted[i].netPnl))
            && report.stressedExpectancy == Mean(Map(accepted, AdjustedBy(variant.extraCostBps)))
  {
    hide Mean, LargestDrop, HourHistogram, Sensitivity, InFields;
    AcceptedInFields(trades, variant);
    var accepted := Filter(trades, InFields(variant));
    assert Map(accepted, NetPnl) == seq(|accepted|, i requires 0 <= i < |accepted| => accepted[i].netPnl);
  }

  /** The coverage is the accepted part of all trades. */
  lemma CoverageInFields(trades: seq<Trade>, variant: Variant)
    ensures var report := Evaluation(trades, variant);
            && report.coverage * |trades| as real == |Filter(trades, InFields(variant))| as real
            && (trades == [] ==> report.coverage == 0.0)
  {
    hide Mean, LargestDrop, HourHistogram, Sensitivity, InFields, Map, Evaluation;
    EvaluationCoverage(trades, variant);
    AcceptedInFields(trades, variant);
    CoverageExactly(|Filter(trades, InFields(variant))|, trades);
  }

  /** The cost table repeats the stressed average for ten, twenty-five and fifty basis
      points more. */
  lemma SensitivityInFields(accepted: seq<Trade>, variant: Variant)
    ensures var table, n := Sensitivity(accepted, variant), |accepted| as real;
            && table.Keys == {"+0bps", "+10bps", "+25bps", "+50bps"}
            && table["+0bps"] * n == Sum(Map(accepted, AdjustedBy(variant.extraCostBps)))
            && table["+10bps"] * n == Sum(Map(accepted, AdjustedBy(variant.extraCostBps + 10.0)))
            && table["+25bps"] * n == Sum(Map(accepted, AdjustedBy(variant.extraCostBps + 25.0)))
            && table["+50bps"] * n == Sum(Map(accepted, AdjustedBy(variant.extraCostBps + 50.0)))
  {
    hide Sum, Adjusted, Mean;
    assert "+0bps"[1] == '0' && "+10bps"[1] == '1' && "+25bps"[1] == '2' && "+50bps"[1] == '5';
    MeanExactly(Map(accepted, AdjustedBy(variant.extraCostBps)));
    MeanExactly(Map(accepted, AdjustedBy(variant.extraCostBps + 10.0)));
    MeanExactly(Map(accepted, AdjustedBy(variant.extraCostBps + 25.0)));
    MeanExactly(Map(accepted, AdjustedBy(variant.extraCostBps + 50.0)));
  }

  lemma AcceptsExactly(variant: Variant, trade: Trade)
    ensures Accepts(variant, trade) <==> InFields(variant)(trade)
  {
  }

  lemma EvaluationCoverage(trades: seq<Trade>, variant: Variant)
    ensures Evaluation(trades, variant).coverage ==
            if trades == [] then 0.0 else |Filter(trades, Accepting(variant))| as real / |trades| as real
  {
  }

  lemma CoverageExactly(n: nat, trades: seq<Trade>)
    requires trades == [] ==> n == 0
    ensures (if trades == [] then 0.0 else n as real / |trades| as real) * |trades| as real == n as real
  {
  }

  method ByHour(trades: seq<Trade>) returns (byHour: map<int, nat>)
    ensures byHour == HourHistogram(trades)
  {
    byHour := map[];
    for n := 0 to |trades|
      invariant byHour == HourHistogram(trades[..n])
    {
      assert trades[..n + 1][..n] == trades[..n];
      var hour := LocalHour(trades[n].openedAt);
      byHour := byHour[hour := if hour in byHour then byHour[hour] + 1 else 1];
    }
    assert trades[..|trades|] == trades;
  }

  method Evaluate(trades: seq<Trade>, variant: Variant) returns (metrics: Metrics)
    ensures metrics == Evaluation(trades, variant)
  {
    var accepted := Filter(trades, Accepting(variant));
    var values := Map(accepted, AdjustedBy(variant.extraCostBps));
    var drawdown := MaxDrawdown(values);
    LargestDropIsUnique(values, drawdown, LargestDrop(values));
    var byHour := ByHour(accepted);
    metrics := Metrics(
      |accepted|,
      |set i | 0 <= i < |accepted| :: ArgentinaSession(accepted[i].openedAt)|,
      |Filter(accepted, IsCall)|,
      |Filter(accepted, IsPut)|,
      if trades == [] then 0.0 else |accepted| as real / |trades| as real,
      Mean(Map(accepted, NetPnl)),
      Mean(values),
      drawdown,
      byHour,
      Sensitivity(accepted, variant));
  }

  /** Every trade an evaluation accepts is a call or a put, of one hour. */
  lemma {:induction false} KindsPartition(trades: seq<Trade>)
    ensures |Filter(trades, IsCall)| + |Filter(trades, IsPut)| == |trades|
  {
    if trades != [] {
      KindsPartition(trades[1..]);
    }
  }

  // ----- intervals and order -----

  predicate InSelection(manifest: Manifest, trade: Trade) {
    && (manifest.selectionStart.Some? ==> trade.openedAt >= manifest.selectionStart.value)
    && trade.openedAt <= manifest.selectionEnd
  }

  predicate InHoldout(manifest: Manifest, trade: Trade) {
    && trade.openedAt >= manifest.holdoutStart
    && (manifest.holdoutEnd.Some? ==> trade.openedAt <= manifest.holdoutEnd.value)
  }

  function SelectedBy(manifest: Manifest): Trade -> bool {
    trade => InSelection(manifest, trade)
  }

  function HeldOutBy(manifest: Manifest): Trade -> bool {
    trade => InHoldout(manifest, trade)
  }

  predicate Chronological(a: Trade, b: Trade) {
    a.openedAt < b.openedAt || (a.openedAt == b.openedAt && a.closedAt <= b.closedAt)
  }

  predicate NameAtMost(a: string, b: string) {
    a == [] || (b != [] && (a[0] < b[0] || (a[0] == b[0] && NameAtMost(a[1..], b[1..]))))
  }

  predicate VariantAtMost(a: Variant, b: Variant) {
    NameAtMost(a.name, b.name)
  }

  // ----- the choice -----

  predicate Eligible(metrics: Metrics) {
    metrics.observations > 0 && metrics.calls > 0 && metrics.puts > 0
  }

  /** Stressed expectancy first, coverage second. */
  predicate NoBetter(a: Metrics, b: Metrics) {
    || a.stressedExpectancy < b.stressedExpectancy
    || (a.stressedExpectancy == b.stressedExpectancy && a.coverage <= b.coverage)
  }

  /** The last of the best eligible variants, as `max_by` picks it. */
  ghost predicate IsChoice(variants: seq<Variant>, metrics: map<string, Metrics>, choice: Option<nat>)
    requires forall i | 0 <= i < |variants| :: variants[i].name in metrics
  {
    match choice
    case None => forall i | 0 <= i < |variants| :: !Eligible(metrics[variants[i].name])
    case Some(best) =>
      && best < |variants| && Eligible(metrics[variants[best].name])
      && (forall i | 0 <= i < |variants| && Eligible(metrics[variants[i].name]) ::
            NoBetter(metrics[variants[i].name], metrics[variants[best].name]))
      && (forall i | best < i < |variants| && Eligible(metrics[variants[i].name]) ::
            !NoBetter(metrics[variants[best].name], metrics[variants[i].name]))
  }

  lemma ChoiceIsUnique(variants: seq<Variant>, metrics: map<string, Metrics>, a: Option<nat>, b: Option<nat>)
    requires forall i | 0 <= i < |variants| :: variants[i].name in metrics
    requires IsChoice(variants, metrics, a) && IsChoice(variants, metrics, b)
    ensures a == b
  {
  }

  method ChooseVariant(variants: seq<Variant>, metrics: map<string, Metrics>) returns (choice: Option<nat>)
    requires forall i | 0 <= i < |variants| :: variants[i].name in metrics
    ensures IsChoice(variants, metrics, choice)
    // Over the figures: one with calls and puts, the most stressed expectancy, then the
    // most coverage, then the last in the list.
    ensures choice.None? <==>
              forall i | 0 <= i < |variants| ::
                var m := metrics[variants[i].name]; m.observations == 0 || m.calls == 0 || m.puts == 0
    ensures choice.Some? ==>
              && choice.value < |variants|
              && var best := metrics[variants[choice.value].name];
              && best.observations > 0 && best.calls > 0 && best.puts > 0
              && forall i | 0 <= i < |variants| ::
                   var m := metrics[variants[i].name];
                   m.observations > 0 && m.calls > 0 && m.puts > 0 ==>
                     || m.stressedExpectancy < best.stressedExpectancy
                     || (m.stressedExpectancy == best.stressedExpectancy && m.coverage < best.coverage)
                     || (m.stressedExpectancy == best.stressedExpectancy && m.coverage == best.coverage && i <= choice.value)
  {
    choice := None;
    for n := 0 to |variants|
      invariant forall i | 0 <= i < n :: variants[..n][i].name in metrics
      invariant IsChoice(variants[..n], metrics, choice)
    {
      var candidate := metrics[variants[n].name];
      ghost var before := variants[..n];
      if Eligible(candidate) && (choice.None? || NoBetter(metrics[variants[choice.value].name], candidate)) {
        choice := Some(n);
      }
      assert forall i | 0 <= i < n :: variants[..n + 1][i] == before[i];
    }
    assert variants[..|variants|] == variants;
  }

  /** The metrics by name; a later variant of the same name replaces an earlier one. */
  ghost function Table(variants: seq<Variant>, trades: seq<Trade>): (table: map<string, Metrics>)
    ensures forall i | 0 <= i < |variants| :: variants[i].name in table
  {
    if variants == [] then map[]
    else
      var n := |variants| - 1;
      Table(variants[..n], trades)[variants[n].name := Evaluation(trades, variants[n])]
  }

  method EvaluateAll(variants: seq<Variant>, trades: seq<Trade>) returns (table: map<string, Metrics>)
    ensures table == Table(variants, trades)
  {
    table := map[];
    for n := 0 to |variants|
      invariant table == Table(variants[..n], trades)
    {
      assert variants[..n + 1][..n] == variants[..n];
      var metrics := Evaluate(trades, variants[n]);
      table := table[variants[n].name := metrics];
    }
    assert variants[..|variants|] == variants;
  }

  predicate FirstOfName(variants: seq<Variant>, name: string, i: int) {
    0 <= i < |variants| && variants[i].name == name && forall j | 0 <= j < i :: variants[j].name != name
  }

  /** The result that `choice` leads to. */
  ghost predicate ResultOf(variants: seq<Variant>, selection: seq<Trade>, holdout: seq<Trade>, choice: Option<nat>,
                           result: ExperimentResult)
  {
    && IsChoice(variants, Table(variants, selection), choice)
    && result.selectionMetrics == Table(variants, selection)
    && match choice
       case None => result.selectedVariant == None && result.holdoutMetrics == None
       case Some(best) =>
         && result.selectedVariant == Some(variants[best].name)
         && exists first ::
              && FirstOfName(variants, variants[best].name, first)
              && result.holdoutMetrics == Some(Evaluation(holdout, variants[first]))
  }

  function Selection(trades: seq<Trade>, manifest: Manifest): seq<Trade> {
    Filter(SortBy(trades, Chronological), SelectedBy(manifest))
  }

  function Holdout(trades: seq<Trade>, manifest: Manifest): seq<Trade> {
    Filter(SortBy(trades, Chronological), HeldOutBy(manifest))
  }

  ghost predicate IsResult(trades: seq<Trade>, manifest: Manifest, result: ExperimentResult) {
    exists choice :: ResultOf(SortBy(manifest.variants, VariantAtMost), Selection(trades, manifest),
                              Holdout(trades, manifest), choice, result)
  }

  method RunTemporalExperiment(trades: seq<Trade>, manifest: Manifest) returns (result: ExperimentResult)
    ensures IsResult(trades, manifest, result)
  {
    var choice;
    result, choice := SelectThenJudge(SortBy(manifest.variants, VariantAtMost),
                                      Selection(trades, manifest), Holdout(trades, manifest));
  }

  method SelectThenJudge(variants: seq<Variant>, selection: seq<Trade>, holdout: seq<Trade>)
    returns (result: ExperimentResult, choice: Option<nat>)
    ensures ResultOf(variants, selection, holdout, choice, result)
  {
    var table := EvaluateAll(variants, selection);
    choice := ChooseVariant(variants, table);
    if choice.None? {
      return ExperimentResult(None, table, None), choice;
    }
    var name := variants[choice.value].name;
    var first := FindByName(variants, name, choice.value);
    var metrics := Evaluate(holdout, variants[first]);
    result := ExperimentResult(Some(name), table, Some(metrics));
  }

  method FindByName(variants: seq<Variant>, name: string, known: nat) returns (first: nat)
    requires known < |variants| && variants[known].name == name
    ensures first < |variants| && FirstOfName(variants, name, first)
  {
    first := 0;
    while variants[first].name != name
      invariant 0 <= first <= known
      decreases known - first
      invariant forall j | 0 <= j < first :: variants[j].name != name
    {
      first := first + 1;
    }
  }

  // ----- no look-ahead -----

  /** The two intervals over the instants: both ends belong to them, and an end that is
      not given is open. */
  lemma {:induction false} IntervalsInFields(trades: seq<Trade>, manifest: Manifest)
    ensures Filter(trades, SelectedBy(manifest)) ==
            Filter(trades, (trade: Trade) =>
              (manifest.selectionStart == None || manifest.selectionStart.value <= trade.openedAt)
              && !(manifest.selectionEnd < trade.openedAt))
    ensures Filter(trades, HeldOutBy(manifest)) ==
            Filter(trades, (trade: Trade) =>
              !(trade.openedAt < manifest.holdoutStart)
              && (manifest.holdoutEnd == None || !(manifest.holdoutEnd.value < trade.openedAt)))
  {
    SameFilter(trades, SelectedBy(manifest), (trade: Trade) =>
      (manifest.selectionStart == None || manifest.selectionStart.value <= trade.openedAt)
      && !(manifest.selectionEnd < trade.openedAt));
    SameFilter(trades, HeldOutBy(manifest), (trade: Trade) =>
      !(trade.openedAt < manifest.holdoutStart)
      && (manifest.holdoutEnd == None || !(manifest.holdoutEnd.value < trade.openedAt)));
  }

  /** Trades are taken in the order they opened, and closed. */
  lemma {:induction false} TakenInOrder(trades: seq<Trade>, i: nat, j: nat)
    requires i < j < |trades|
    ensures |SortBy(trades, Chronological)| == |trades|
    ensures var first, second := SortBy(trades, Chronological)[i], SortBy(trades, Chronological)[j];
            first.openedAt < second.openedAt || (first.openedAt == second.openedAt && first.closedAt <= second.closedAt)
  {
    ChronologicalIsOrder();
    SortByOrders(trades, Chronological);
    assert |multiset(SortBy(trades, Chronological))| == |multiset(trades)|;
  }

  /** Names compare by their first difference; a prefix comes first. */
  lemma {:induction false} NamesAreLexicographic(p: string, a: char, s: string, b: char, t: string)
    ensures a < b ==> NameAtMost(p + [a] + s, p + [b] + t) && !NameAtMost(p + [b] + t, p + [a] + s)
    ensures NameAtMost(p, p + s) && (s != [] ==> !NameAtMost(p + s, p))
  {
    if p == [] {
      assert p + [a] + s == [a] + s && p + [b] + t == [b] + t && p + s == s;
    } else {
      NamesAreLexicographic(p[1..], a, s, b, t);
      assert (p + [a] + s)[1..] == p[1..] + [a] + s && (p + [b] + t)[1..] == p[1..] + [b] + t;
      assert (p + s)[1..] == p[1..] + s;
    }
  }

  lemma ChronologicalIsOrder()
    ensures TotalPreorder(Chronological)
  {
  }

  /** An interval sees exactly the trades opened in it, in order. */
  lemma IntervalIsLocal(trades: seq<Trade>, keep: Trade -> bool)
    ensures Filter(SortBy(trades, Chronological), keep) == SortBy(Filter(trades, keep), Chronological)
  {
    ChronologicalIsOrder();
    FilterCommutesWithSort(trades, Chronological, keep);
  }

  /** Adding, removing or changing trades outside the selection interval changes
      neither the metrics the choice is made on nor the choice. */
  lemma NoLookAhead(a: seq<Trade>, b: seq<Trade>, manifest: Manifest, resultA: ExperimentResult, resultB: ExperimentResult)
    requires Filter(a, SelectedBy(manifest)) == Filter(b, SelectedBy(manifest))
    requires IsResult(a, manifest, resultA) && IsResult(b, manifest, resultB)
    ensures resultA.selectionMetrics == resultB.selectionMetrics
    ensures resultA.selectedVariant == resultB.selectedVariant
  {
    IntervalIsLocal(a, SelectedBy(manifest));
    IntervalIsLocal(b, SelectedBy(manifest));
    var variants := SortBy(manifest.variants, VariantAtMost);
    var table := Table(variants, Selection(a, manifest));
    assert Selection(a, manifest) == Selection(b, manifest);
    var choiceA :| ResultOf(variants, Selection(a, manifest), Holdout(a, manifest), choiceA, resultA);
    var choiceB :| ResultOf(variants, Selection(b, manifest), Holdout(b, manifest), choiceB, resultB);
    ChoiceIsUnique(variants, table, choiceA, choiceB);
  }

  /** And the whole result depends on the two intervals only. */
  lemma OnlyTheIntervalsMatter(a: seq<Trade>, b: seq<Trade>, manifest: Manifest, resultA: ExperimentResult, resultB: ExperimentResult)
    requires Filter(a, SelectedBy(manifest)) == Filter(b, SelectedBy(manifest))
    requires Filter(a, HeldOutBy(manifest)) == Filter(b, HeldOutBy(manifest))
    requires IsResult(a, manifest, resultA) && IsResult(b, manifest, resultB)
    ensures resultA == resultB
  {
    NoLookAhead(a, b, manifest, resultA, resultB);
    IntervalIsLocal(a, HeldOutBy(manifest));
    IntervalIsLocal(b, HeldOutBy(manifest));
  }
}
