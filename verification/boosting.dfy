/** Gradient boosting of decision stumps with a cached score per example
    (`TreeMetaFilter`, src/learning_model.rs). */
module Boosting {
  import opened Common
  import opened Sorting

  datatype Example = Example(features: seq<real>, profitable: bool)

  datatype Stump = Stump(feature: nat, threshold: real, leftScore: real, rightScore: real)

  datatype TreeModel = TreeModel(
    baseScore: real, learningRate: real, stumps: seq<Stump>, threshold: real, featureCount: nat)

  // ----- the model, rebuilt from its stumps -----

  function Update(stump: Stump, features: seq<real>): real
    requires stump.feature < |features|
  {
    if features[stump.feature] <= stump.threshold then stump.leftScore else stump.rightScore
  }

  predicate StumpsFit(stumps: seq<Stump>, width: nat) {
    forall i | 0 <= i < |stumps| :: stumps[i].feature < width
  }

  function Score(base: real, rate: real, stumps: seq<Stump>, features: seq<real>): real
    requires StumpsFit(stumps, |features|)
  {
    if stumps == [] then base
    else
      var n := |stumps| - 1;
      Score(base, rate, stumps[..n], features) + rate * Update(stumps[n], features)
  }

  function Probability(model: TreeModel, features: seq<real>, sigmoid: real -> real): Option<real>
    requires StumpsFit(model.stumps, model.featureCount)
  {
    if |features| != model.featureCount then None
    else Some(sigmoid(Score(model.baseScore, model.learningRate, model.stumps, features)))
  }

  // ----- candidate splits -----

  predicate SameWidth(examples: seq<Example>, width: nat) {
    forall i | 0 <= i < |examples| :: |examples[i].features| == width
  }

  function Column(examples: seq<Example>, feature: nat): (column: seq<real>)
    requires forall i | 0 <= i < |examples| :: feature < |examples[i].features|
    ensures |column| == |examples|
  {
    seq(|examples|, i requires 0 <= i < |examples| => examples[i].features[feature])
  }

  const EPSILON: real := 0.000000000001

  function Distance(a: real, b: real): real {
    if a >= b then a - b else b - a
  }

  /** `dedup_by`: drops each value that is too close to the last one kept. */
  function Dedup(values: seq<real>): (kept: seq<real>)
    ensures values != [] ==> kept != []
  {
    if values == [] then []
    else
      var before := Dedup(values[..|values| - 1]);
      var last := values[|values| - 1];
      if before != [] && Distance(last, before[|before| - 1]) < EPSILON then before else before + [last]
  }

  /** The value at a quartile of the distinct values of a feature. */
  function QuantileThreshold(examples: seq<Example>, feature: nat, quantile: nat): real
    requires examples != [] && 1 <= quantile <= 3
    requires forall i | 0 <= i < |examples| :: feature < |examples[i].features|
  {
    SortAscends(Column(examples, feature));
    var values := Dedup(Sort(Column(examples, feature)));
    QuarterIsInside(quantile, |values|);
    values[quantile * (|values| - 1) / 4]
  }

  // ----- least squares -----

  /** What is left of ascending values when each that is closer than 1e-12 to the last one
      kept is dropped: the least first, ascending in steps of at least 1e-12, each value
      close above one of them. */
  ghost predicate IsDeduped(values: seq<real>, kept: seq<real>) {
    && (forall k | 0 <= k < |kept| :: kept[k] in values)
    && (forall k | 0 < k < |kept| :: kept[k] - kept[k - 1] >= 0.000000000001)
    && (forall v | v in values :: IsNear(kept, v))
  }

  ghost predicate IsNear(kept: seq<real>, v: real) {
    exists k :: 0 <= k < |kept| && kept[k] <= v && v - kept[k] < 0.000000000001
  }

  lemma DedupSnoc(values: seq<real>, last: real)
    ensures var before := Dedup(values);
            Dedup(values + [last]) ==
            if before != [] && Distance(last, before[|before| - 1]) < EPSILON then before else before + [last]
  {
    assert (values + [last])[..|values|] == values;
  }

  lemma NearExtends(kept: seq<real>, more: seq<real>, v: real)
    requires IsNear(kept, v)
    ensures IsNear(kept + more, v)
  {
    var k :| 0 <= k < |kept| && kept[k] <= v && v - kept[k] < 0.000000000001;
    assert (kept + more)[k] == kept[k];
  }

  lemma NearLast(kept: seq<real>, v: real)
    requires kept != [] && kept[|kept| - 1] <= v && v - kept[|kept| - 1] < 0.000000000001
    ensures IsNear(kept, v)
  {
  }

  /** One more value, no less than all before it: dropped, or kept. */
  lemma DropOne(values: seq<real>, kept: seq<real>, last: real)
    requires IsDeduped(values, kept) && kept != [] && kept[|kept| - 1] <= last && Distance(last, kept[|kept| - 1]) < EPSILON
    ensures IsDeduped(values + [last], kept)
  {
    hide IsNear;
    NearLast(kept, last);
  }

  lemma KeepOne(values: seq<real>, kept: seq<real>, last: real)
    requires IsDeduped(values, kept) && (kept != [] ==> last - kept[|kept| - 1] >= EPSILON)
    ensures IsDeduped(values + [last], kept + [last])
  {
    hide IsNear;
    NearLast(kept + [last], last);
    forall v | v in values + [last] ensures IsNear(kept + [last], v) {
      if v != last {
        NearExtends(kept, [last], v);
      }
    }
  }

  lemma {:induction false} DedupExactly(values: seq<real>)
    requires Ascending(values)
    ensures IsDeduped(values, Dedup(values))
    ensures if values == [] then Dedup(values) == [] else Dedup(values) != [] && Dedup(values)[|Dedup(values)| - 1] <= values[|values| - 1]
  {
    hide Dedup, IsDeduped, Ascending;
    if values == [] {
      DedupOfNothing();
    } else {
      var before, last := values[..|values| - 1], values[|values| - 1];
      AscendingFront(values);
      DedupExactly(before);
      DedupGrows(before, last);
      assert before + [last] == values;
    }
  }

  lemma DedupOfNothing()
    ensures Dedup([]) == [] && IsDeduped([], [])
  {
  }

  lemma AscendingFront(values: seq<real>)
    requires Ascending(values) && values != []
    ensures Ascending(values[..|values| - 1])
    ensures |values| > 1 ==> values[|values| - 2] <= values[|values| - 1]
  {
  }

  lemma DedupGrows(before: seq<real>, last: real)
    requires IsDeduped(before, Dedup(before))
    requires if before == [] then Dedup(before) == [] else Dedup(before) != [] && Dedup(before)[|Dedup(before)| - 1] <= last
    ensures IsDeduped(before + [last], Dedup(before + [last]))
    ensures Dedup(before + [last]) != [] && Dedup(before + [last])[|Dedup(before + [last])| - 1] <= last
  {
    hide IsDeduped, Dedup;
    DedupSnoc(before, last);
    var kept := Dedup(before);
    if kept != [] && Distance(last, kept[|kept| - 1]) < EPSILON {
      DropOne(before, kept, last);
    } else {
      KeepOne(before, kept, last);
    }
  }

  lemma QuarterIsInside(quantile: nat, n: nat)
    requires 1 <= quantile <= 3 && n > 0
    ensures 0 <= quantile * (n - 1) / 4 < n
  {
  }

  lemma QuarterDown(n: nat)
    ensures 4 * (n / 4) <= n < 4 * (n / 4) + 4
  {
  }

  /** A threshold is the quantile of the distinct values of the column, at the index
      rounded down. */
  lemma ThresholdExactly(examples: seq<Example>, feature: nat, quantile: nat) returns (kept: seq<real>, index: nat)
    requires examples != [] && 1 <= quantile <= 3
    requires forall i | 0 <= i < |examples| :: feature < |examples[i].features|
    ensures IsDeduped(Sort(Column(examples, feature)), kept)
    ensures index < |kept| && 4 * index <= quantile * (|kept| - 1) < 4 * index + 4
    ensures QuantileThreshold(examples, feature, quantile) == kept[index]
  {
    hide IsDeduped, Dedup, Sort;
    SortAscends(Column(examples, feature));
    DedupExactly(Sort(Column(examples, feature)));
    kept := Dedup(Sort(Column(examples, feature)));
    index := quantile * (|kept| - 1) / 4;
    QuarterDown(quantile * (|kept| - 1));
  }

  function Square(x: real): real {
    x * x
  }

  /** Squared error of a stump against the residuals. */
  function SquaredError(examples: seq<Example>, residuals: seq<real>, stump: Stump): real
    requires |residuals| == |examples|
    requires forall i | 0 <= i < |examples| :: stump.feature < |examples[i].features|
  {
    if examples == [] then 0.0
    else
      var n := |examples| - 1;
      SquaredError(examples[..n], residuals[..n], stump) + Square(residuals[n] - Update(stump, examples[n].features))
  }

  function SumSquares(residuals: seq<real>): real {
    if residuals == [] then 0.0 else SumSquares(residuals[..|residuals| - 1]) + Square(residuals[|residuals| - 1])
  }

  /** Count and sum of the residuals on one side of a split. */
  datatype Side = Side(count: nat, sum: real)

  function SideOf(examples: seq<Example>, residuals: seq<real>, feature: nat, threshold: real, left: bool): Side
    requires |residuals| == |examples|
    requires forall i | 0 <= i < |examples| :: feature < |examples[i].features|
  {
    if examples == [] then Side(0, 0.0)
    else
      var n := |examples| - 1;
      var rest := SideOf(examples[..n], residuals[..n], feature, threshold, left);
      if (examples[n].features[feature] <= threshold) == left then Side(rest.count + 1, rest.sum + residuals[n]) else rest
  }

  /** The error of a leaf value, up to what does not depend on it. */
  function LeafCost(side: Side, score: real): real {
    side.count as real * Square(score) - 2.0 * score * side.sum
  }

  lemma {:induction false} ErrorByLeaves(examples: seq<Example>, residuals: seq<real>, stump: Stump)
    requires |residuals| == |examples|
    requires forall i | 0 <= i < |examples| :: stump.feature < |examples[i].features|
    ensures SquaredError(examples, residuals, stump) ==
            SumSquares(residuals)
            + LeafCost(SideOf(examples, residuals, stump.feature, stump.threshold, true), stump.leftScore)
            + LeafCost(SideOf(examples, residuals, stump.feature, stump.threshold, false), stump.rightScore)
  {
    if examples != [] {
      var n := |examples| - 1;
      ErrorByLeaves(examples[..n], residuals[..n], stump);
      var left := SideOf(examples[..n], residuals[..n], stump.feature, stump.threshold, true);
      var right := SideOf(examples[..n], residuals[..n], stump.feature, stump.threshold, false);
      OneMoreResidual(left, stump.leftScore, residuals[n]);
      OneMoreResidual(right, stump.rightScore, residuals[n]);
    }
  }

  lemma OneMoreResidual(side: Side, score: real, residual: real)
    ensures LeafCost(Side(side.count + 1, side.sum + residual), score) + Square(residual)
            == LeafCost(side, score) + Square(residual - score)
  {
    var c := side.count as real;
    assert (side.count + 1) as real == c + 1.0;
    assert (c + 1.0) * Square(score) == c * Square(score) + Square(score);
    assert 2.0 * score * (side.sum + residual) == 2.0 * score * side.sum + 2.0 * score * residual;
    assert Square(residual - score) == Square(residual) - 2.0 * score * residual + Square(score);
  }

  /** No leaf value beats the mean. */
  lemma MeanIsBestLeaf(side: Side, score: real)
    requires side.count > 0
    ensures LeafCost(side, side.sum / side.count as real) <= LeafCost(side, score)
  {
    var c := side.count as real;
    var mean := side.sum / c;
    assert side.sum == c * mean;
    var gap := score - mean;
    assert Square(score) == Square(mean) + 2.0 * mean * gap + Square(gap);
    assert c * Square(score) == c * Square(mean) + 2.0 * mean * gap * c + c * Square(gap);
    assert 2.0 * score * side.sum == 2.0 * mean * side.sum + 2.0 * gap * side.sum;
    assert gap * side.sum == gap * (c * mean) == mean * gap * c;
    assert c * Square(gap) >= 0.0;
  }

  // ----- what a round must choose -----

  ghost predicate Splits(examples: seq<Example>, feature: nat, threshold: real)
    requires forall i | 0 <= i < |examples| :: feature < |examples[i].features|
  {
    && (exists i :: 0 <= i < |examples| && examples[i].features[feature] <= threshold)
    && (exists i :: 0 <= i < |examples| && examples[i].features[feature] > threshold)
  }

  ghost predicate Candidate(examples: seq<Example>, width: nat, feature: nat, quantile: nat)
    requires examples != [] && SameWidth(examples, width)
  {
    feature < width && 1 <= quantile <= 3 && Splits(examples, feature, QuantileThreshold(examples, feature, quantile))
  }

  ghost predicate Splittable(examples: seq<Example>, width: nat)
    requires examples != [] && SameWidth(examples, width)
  {
    exists feature, quantile :: Candidate(examples, width, feature, quantile)
  }

  /** The stump cuts at a candidate threshold, and no stump that cuts at any
      candidate threshold, whatever its leaf scores, has less squared error. */
  ghost predicate LeastSquares(examples: seq<Example>, width: nat, residuals: seq<real>, stump: Stump)
    requires examples != [] && SameWidth(examples, width) && |residuals| == |examples|
  {
    && (exists quantile :: Candidate(examples, width, stump.feature, quantile)
                           && stump.threshold == QuantileThreshold(examples, stump.feature, quantile))
    && forall feature, quantile, left, right | Candidate(examples, width, feature, quantile) ::
         SquaredError(examples, residuals, stump)
         <= SquaredError(examples, residuals, Stump(feature, QuantileThreshold(examples, feature, quantile), left, right))
  }

  lemma {:induction false} SidesCount(examples: seq<Example>, residuals: seq<real>, feature: nat, threshold: real)
    requires |residuals| == |examples|
    requires forall i | 0 <= i < |examples| :: feature < |examples[i].features|
    ensures SideOf(examples, residuals, feature, threshold, true).count > 0 <==>
              exists i :: 0 <= i < |examples| && examples[i].features[feature] <= threshold
    ensures SideOf(examples, residuals, feature, threshold, false).count > 0 <==>
              exists i :: 0 <= i < |examples| && examples[i].features[feature] > threshold
  {
    if examples != [] {
      var n := |examples| - 1;
      SidesCount(examples[..n], residuals[..n], feature, threshold);
      assert forall i | 0 <= i < n :: examples[..n][i] == examples[i];
      if examples[n].features[feature] <= threshold {
        if exists i :: 0 <= i < |examples| && examples[i].features[feature] > threshold {
          var i :| 0 <= i < |examples| && examples[i].features[feature] > threshold;
          assert examples[..n][i].features[feature] > threshold;
        }
      } else {
        if exists i :: 0 <= i < |examples| && examples[i].features[feature] <= threshold {
          var i :| 0 <= i < |examples| && examples[i].features[feature] <= threshold;
          assert examples[..n][i].features[feature] <= threshold;
        }
      }
    }
  }

  /** With mean leaves a split has the least error any leaves can give it. */
  lemma MeansAreBest(examples: seq<Example>, residuals: seq<real>, feature: nat, threshold: real, left: real, right: real)
    requires |residuals| == |examples|
    requires forall i | 0 <= i < |examples| :: feature < |examples[i].features|
    requires SideOf(examples, residuals, feature, threshold, true).count > 0
    requires SideOf(examples, residuals, feature, threshold, false).count > 0
    ensures var l, r := SideOf(examples, residuals, feature, threshold, true), SideOf(examples, residuals, feature, threshold, false);
            SquaredError(examples, residuals, Stump(feature, threshold, l.sum / l.count as real, r.sum / r.count as real))
            <= SquaredError(examples, residuals, Stump(feature, threshold, left, right))
  {
    var l, r := SideOf(examples, residuals, feature, threshold, true), SideOf(examples, residuals, feature, threshold, false);
    ErrorByLeaves(examples, residuals, Stump(feature, threshold, l.sum / l.count as real, r.sum / r.count as real));
    ErrorByLeaves(examples, residuals, Stump(feature, threshold, left, right));
    MeanIsBestLeaf(l, left);
    MeanIsBestLeaf(r, right);
  }

  /** A round never loses to doing nothing. */
  lemma NoWorseThanNothing(examples: seq<Example>, width: nat, residuals: seq<real>, stump: Stump)
    requires examples != [] && SameWidth(examples, width) && |residuals| == |examples|
    requires LeastSquares(examples, width, residuals, stump)
    ensures SquaredError(examples, residuals, stump) <= SumSquares(residuals)
  {
    var quantile :| Candidate(examples, width, stump.feature, quantile)
                    && stump.threshold == QuantileThreshold(examples, stump.feature, quantile);
    var nothing := Stump(stump.feature, stump.threshold, 0.0, 0.0);
    ErrorByLeaves(examples, residuals, nothing);
    assert SquaredError(examples, residuals, stump) <= SquaredError(examples, residuals, nothing);
  }

  // ----- the loops -----

  /** Sums and error of one split, by two passes over the examples. */
  method EvaluateSplit(examples: seq<Example>, residuals: seq<real>, feature: nat, threshold: real)
    returns (result: Option<(real, Stump)>)
    requires |residuals| == |examples|
    requires forall i | 0 <= i < |examples| :: feature < |examples[i].features|
    ensures result.Some? <==> Splits(examples, feature, threshold)
    ensures result.Some? ==>
              && result.value.1.feature == feature && result.value.1.threshold == threshold
              && result.value.0 == SquaredError(examples, residuals, result.value.1)
              && forall left, right ::
                   result.value.0 <= SquaredError(examples, residuals, Stump(feature, threshold, left, right))
  {
    var left, right := SumSides(examples, residuals, feature, threshold);
    SidesCount(examples, residuals, feature, threshold);
    if left.count == 0 || right.count == 0 {
      return None;
    }
    var stump := Stump(feature, threshold, left.sum / left.count as real, right.sum / right.count as real);
    var error := TotalError(examples, residuals, stump);
    forall l, r ensures error <= SquaredError(examples, residuals, Stump(feature, threshold, l, r)) {
      MeansAreBest(examples, residuals, feature, threshold, l, r);
    }
    result := Some((error, stump));
  }

  method SumSides(examples: seq<Example>, residuals: seq<real>, feature: nat, threshold: real) returns (left: Side, right: Side)
    requires |residuals| == |examples|
    requires forall i | 0 <= i < |examples| :: feature < |examples[i].features|
    ensures left == SideOf(examples, residuals, feature, threshold, true)
    ensures right == SideOf(examples, residuals, feature, threshold, false)
  {
    left, right := Side(0, 0.0), Side(0, 0.0);
    for i := 0 to |examples|
      invariant left == SideOf(examples[..i], residuals[..i], feature, threshold, true)
      invariant right == SideOf(examples[..i], residuals[..i], feature, threshold, false)
    {
      assert examples[..i + 1][..i] == examples[..i] && residuals[..i + 1][..i] == residuals[..i];
      if examples[i].features[feature] <= threshold {
        left := Side(left.count + 1, left.sum + residuals[i]);
      } else {
        right := Side(right.count + 1, right.sum + residuals[i]);
      }
    }
    assert examples[..|examples|] == examples && residuals[..|examples|] == residuals;
  }

  method TotalError(examples: seq<Example>, residuals: seq<real>, stump: Stump) returns (error: real)
    requires |residuals| == |examples|
    requires forall i | 0 <= i < |examples| :: stump.feature < |examples[i].features|
    ensures error == SquaredError(examples, residuals, stump)
  {
    error := 0.0;
    for i := 0 to |examples|
      invariant error == SquaredError(examples[..i], residuals[..i], stump)
    {
      assert examples[..i + 1][..i] == examples[..i] && residuals[..i + 1][..i] == residuals[..i];
      error := error + Square(residuals[i] - Update(stump, examples[i].features));
    }
    assert examples[..|examples|] == examples && residuals[..|examples|] == residuals;
  }

  /** The best candidate among the quantiles below `quantile` of the features up to
      `feature`. */
  ghost predicate BestSoFar(examples: seq<Example>, width: nat, residuals: seq<real>, best: Option<(real, Stump)>,
                            feature: nat, quantile: nat)
    requires examples != [] && SameWidth(examples, width) && |residuals| == |examples|
  {
    && (best.Some? ==>
          var stump := best.value.1;
          && (exists q :: Candidate(examples, width, stump.feature, q)
                          && stump.threshold == QuantileThreshold(examples, stump.feature, q))
          && best.value.0 == SquaredError(examples, residuals, stump))
    && forall f, q | Candidate(examples, width, f, q) && Before(f, q, feature, quantile) ::
         best.Some? && NoStumpBeats(examples, residuals, f, QuantileThreshold(examples, f, q), best.value.0)
  }

  predicate Before(f: nat, q: nat, feature: nat, quantile: nat) {
    f < feature || (f == feature && q < quantile)
  }

  ghost predicate NoStumpBeats(examples: seq<Example>, residuals: seq<real>, feature: nat, threshold: real, error: real)
    requires |residuals| == |examples|
    requires forall i | 0 <= i < |examples| :: feature < |examples[i].features|
  {
    forall left, right :: error <= SquaredError(examples, residuals, Stump(feature, threshold, left, right))
  }

  method BestStump(examples: seq<Example>, width: nat, residuals: seq<real>) returns (best: Option<(real, Stump)>)
    requires examples != [] && SameWidth(examples, width) && |residuals| == |examples|
    ensures best.Some? <==> Splittable(examples, width)
    ensures best.Some? ==> best.value.1.feature < width && LeastSquares(examples, width, residuals, best.value.1)
  {
    best := None;
    for feature := 0 to width
      invariant BestSoFar(examples, width, residuals, best, feature, 1)
    {
      for quantile := 1 to 4
        invariant BestSoFar(examples, width, residuals, best, feature, quantile)
      {
        var threshold := QuantileThreshold(examples, feature, quantile);
        var split := EvaluateSplit(examples, residuals, feature, threshold);
        ghost var before := best;
        if split.Some? && (best.None? || split.value.0 < best.value.0) {
          best := split;
        }
        StepBest(examples, width, residuals, before, split, best, feature, quantile);
      }
    }
  }

  lemma StepBest(examples: seq<Example>, width: nat, residuals: seq<real>, before: Option<(real, Stump)>,
                 split: Option<(real, Stump)>, after: Option<(real, Stump)>, feature: nat, quantile: nat)
    requires examples != [] && SameWidth(examples, width) && |residuals| == |examples|
    requires feature < width && 1 <= quantile <= 3 && BestSoFar(examples, width, residuals, before, feature, quantile)
    requires split.Some? <==> Candidate(examples, width, feature, quantile)
    requires split.Some? ==>
               && split.value.1.feature == feature
               && split.value.1.threshold == QuantileThreshold(examples, feature, quantile)
               && split.value.0 == SquaredError(examples, residuals, split.value.1)
               && NoStumpBeats(examples, residuals, feature, QuantileThreshold(examples, feature, quantile), split.value.0)
    requires after == if split.Some? && (before.None? || split.value.0 < before.value.0) then split else before
    ensures BestSoFar(examples, width, residuals, after, feature, quantile + 1)
  {
    forall f, q | Candidate(examples, width, f, q) && Before(f, q, feature, quantile + 1)
      ensures after.Some? && NoStumpBeats(examples, residuals, f, QuantileThreshold(examples, f, q), after.value.0)
    {
      if Before(f, q, feature, quantile) {
        assert before.Some? && NoStumpBeats(examples, residuals, f, QuantileThreshold(examples, f, q), before.value.0);
      } else {
        assert f == feature && q == quantile;
      }
    }
  }

  function Clamp(x: real, low: real, high: real): (r: real)
    requires low <= high
    ensures low <= r <= high
    ensures r == x || (r == low && x < low) || (r == high && x > high)
  {
    if x < low then low else if x > high then high else x
  }

  function Rounds(requested: nat): (n: nat)
    ensures 1 <= n <= 32 && (n == requested || (n == 1 && requested == 0) || (n == 32 && requested > 32))
  {
    if requested < 1 then 1 else if requested > 32 then 32 else requested
  }

  function CountProfitable(examples: seq<Example>): nat {
    if examples == [] then 0
    else CountProfitable(examples[..|examples| - 1]) + if examples[|examples| - 1].profitable then 1 else 0
  }

  /** The log-odds of the clamped positive rate; the logarithm itself is a parameter. */
  function BaseScore(examples: seq<Example>, ln: real -> real): real
    requires examples != []
  {
    var rate := Clamp(CountProfitable(examples) as real / |examples| as real, 0.000001, 0.999999);
    ln(rate / (1.0 - rate))
  }

  predicate Trainable(examples: seq<Example>, minimumExamples: nat) {
    && examples != [] && examples[0].features != []
    && |examples| >= minimumExamples
    && SameWidth(examples, |examples[0].features|)
    && (exists i :: 0 <= i < |examples| && !examples[i].profitable)
    && (exists i :: 0 <= i < |examples| && examples[i].profitable)
  }

  /** The positive examples are counted one by one. */
  lemma {:induction false} CountProfitableExactly(examples: seq<Example>)
    ensures CountProfitable(examples) == |set i | 0 <= i < |examples| && examples[i].profitable|
  {
    if examples != [] {
      var n := |examples| - 1;
      var rest := examples[..n];
      CountProfitableExactly(rest);
      var before := set i | 0 <= i < |rest| && rest[i].profitable;
      var after := set i | 0 <= i < |examples| && examples[i].profitable;
      forall i ensures i in after <==> i in before || (i == n && examples[n].profitable) {
        assert 0 <= i < n ==> rest[i] == examples[i];
      }
      assert after == before + if examples[n].profitable then {n} else {};
    }
  }

  /** The base score is the logarithm of the odds of the positive rate, kept a
      millionth away from none and from all. */
  lemma BaseScoreExactly(examples: seq<Example>, ln: real -> real) returns (rate: real)
    requires examples != []
    ensures 0.000001 <= rate <= 0.999999 && BaseScore(examples, ln) == ln(rate / (1.0 - rate))
    ensures var part := CountProfitable(examples) as real / |examples| as real;
            rate == part || (part < 0.000001 && rate == 0.000001) || (part > 0.999999 && rate == 0.999999)
  {
    rate := Clamp(CountProfitable(examples) as real / |examples| as real, 0.000001, 0.999999);
  }

  /** What cannot be trained on: too few examples, none with a feature, rows of
      different width, or a single outcome. */
  lemma UntrainableExactly(examples: seq<Example>, minimumExamples: nat)
    ensures !Trainable(examples, minimumExamples) <==>
              || examples == [] || |examples| < minimumExamples || examples[0].features == []
              || (exists i :: 0 <= i < |examples| && |examples[i].features| != |examples[0].features|)
              || (forall i | 0 <= i < |examples| :: examples[i].profitable)
              || (forall i | 0 <= i < |examples| :: !examples[i].profitable)
  {
  }

  /** Each stump adds the learning rate times the leaf of its side; a feature at the
      threshold is on the left. */
  lemma StumpAddsItsSide(base: real, rate: real, stumps: seq<Stump>, stump: Stump, features: seq<real>)
    requires StumpsFit(stumps + [stump], |features|)
    ensures StumpsFit(stumps, |features|) && stump.feature < |features|
    ensures Score(base, rate, [], features) == base
    ensures var gain := Score(base, rate, stumps + [stump], features) - Score(base, rate, stumps, features);
            && (features[stump.feature] <= stump.threshold ==> gain == rate * stump.leftScore)
            && (features[stump.feature] > stump.threshold ==> gain == rate * stump.rightScore)
  {
    assert (stumps + [stump])[|stumps|] == stump;
    assert forall i | 0 <= i < |stumps| :: (stumps + [stump])[i] == stumps[i];
    assert (stumps + [stump])[..|stumps|] == stumps;
  }

  /** The residuals of the model made of `stumps`, from scratch. */
  function Residuals(examples: seq<Example>, base: real, rate: real, stumps: seq<Stump>, sigmoid: real -> real): (r: seq<real>)
    requires forall i | 0 <= i < |examples| :: StumpsFit(stumps, |examples[i].features|)
    ensures |r| == |examples|
  {
    seq(|examples|, i requires 0 <= i < |examples| =>
      (if examples[i].profitable then 1.0 else 0.0) - sigmoid(Score(base, rate, stumps, examples[i].features)))
  }

  /** Every stump is the least-squares one for the residuals of the stumps before
      it. No cache appears here. */
  ghost predicate Boosted(examples: seq<Example>, width: nat, base: real, rate: real, stumps: seq<Stump>, sigmoid: real -> real)
    requires examples != [] && SameWidth(examples, width)
  {
    && StumpsFit(stumps, width)
    && forall k | 0 <= k < |stumps| ::
         LeastSquares(examples, width, Residuals(examples, base, rate, stumps[..k], sigmoid), stumps[k])
  }

  method Fit(examples: seq<Example>, rounds: nat, requestedRate: real, threshold: real, minimumExamples: nat,
             sigmoid: real -> real, ln: real -> real)
    returns (model: Option<TreeModel>)
    ensures model.Some? <==> Trainable(examples, minimumExamples) && Splittable(examples, |examples[0].features|)
    ensures model.Some? ==>
              var m := model.value;
              && m.featureCount == |examples[0].features|
              && m.learningRate == Clamp(requestedRate, 0.01, 0.3) && m.threshold == Clamp(threshold, 0.5, 0.9)
              && m.baseScore == BaseScore(examples, ln)
              && |m.stumps| == Rounds(rounds)
              && Boosted(examples, m.featureCount, m.baseScore, m.learningRate, m.stumps, sigmoid)
  {
    if !Trainable(examples, minimumExamples) {
      return None;
    }
    var width := |examples[0].features|;
    var base := BaseScore(examples, ln);
    var rate := Clamp(requestedRate, 0.01, 0.3);
    var scores := seq(|examples|, i => base);
    var stumps: seq<Stump> := [];
    for round := 0 to Rounds(rounds)
      invariant |stumps| == round && Boosted(examples, width, base, rate, stumps, sigmoid)
      invariant Cached(examples, base, rate, stumps, scores)
      invariant round > 0 ==> Splittable(examples, width)
    {
      var next;
      next, scores := BoostRound(examples, width, base, rate, stumps, scores, sigmoid);
      if next.None? {
        return None;
      }
      BoostedSnoc(examples, width, base, rate, stumps, sigmoid, next.value);
      stumps := stumps + [next.value];
    }
    model := Some(TreeModel(base, rate, stumps, Clamp(threshold, 0.5, 0.9), width));
  }

  method BoostRound(examples: seq<Example>, width: nat, base: real, rate: real, ghost stumps: seq<Stump>,
                    scores: seq<real>, sigmoid: real -> real)
    returns (next: Option<Stump>, updated: seq<real>)
    requires examples != [] && SameWidth(examples, width) && StumpsFit(stumps, width)
    requires Cached(examples, base, rate, stumps, scores)
    ensures next.Some? <==> Splittable(examples, width)
    ensures next.Some? ==>
              && next.value.feature < width
              && LeastSquares(examples, width, Residuals(examples, base, rate, stumps, sigmoid), next.value)
              && Cached(examples, base, rate, stumps + [next.value], updated)
  {
    var residuals := CachedResiduals(examples, scores, sigmoid);
    assert residuals == Residuals(examples, base, rate, stumps, sigmoid);
    var best := BestStump(examples, width, residuals);
    if best.None? {
      return None, scores;
    }
    updated := AddStump(examples, base, rate, stumps, scores, best.value.1);
    next := Some(best.value.1);
  }

  function CachedResiduals(examples: seq<Example>, scores: seq<real>, sigmoid: real -> real): (r: seq<real>)
    requires |scores| == |examples|
    ensures |r| == |examples|
  {
    seq(|examples|, i requires 0 <= i < |examples| =>
      (if examples[i].profitable then 1.0 else 0.0) - sigmoid(scores[i]))
  }

  /** The cache holds, for each training example, the score that the model would
      compute from its stumps. */
  ghost predicate Cached(examples: seq<Example>, base: real, rate: real, stumps: seq<Stump>, scores: seq<real>) {
    && |scores| == |examples|
    && forall i | 0 <= i < |examples| ::
         StumpsFit(stumps, |examples[i].features|) && scores[i] == Score(base, rate, stumps, examples[i].features)
  }

  method AddStump(examples: seq<Example>, base: real, rate: real, ghost stumps: seq<Stump>, scores: seq<real>, stump: Stump)
    returns (updated: seq<real>)
    requires Cached(examples, base, rate, stumps, scores)
    requires forall i | 0 <= i < |examples| :: stump.feature < |examples[i].features|
    ensures Cached(examples, base, rate, stumps + [stump], updated)
  {
    assert (stumps + [stump])[..|stumps|] == stumps;
    updated := scores;
    for i := 0 to |examples|
      invariant |updated| == |examples|
      invariant forall j | i <= j < |examples| :: updated[j] == scores[j]
      invariant forall j | 0 <= j < i :: StumpsFit(stumps + [stump], |examples[j].features|)
                                         && updated[j] == Score(base, rate, stumps + [stump], examples[j].features)
    {
      updated := updated[i := updated[i] + rate * Update(stump, examples[i].features)];
    }
  }

  /** So the cache is what the finished model would answer before the sigmoid. */
  lemma CachedScoreIsProbability(examples: seq<Example>, model: TreeModel, scores: seq<real>, sigmoid: real -> real, i: nat)
    requires StumpsFit(model.stumps, model.featureCount) && SameWidth(examples, model.featureCount)
    requires Cached(examples, model.baseScore, model.learningRate, model.stumps, scores) && i < |examples|
    ensures Probability(model, examples[i].features, sigmoid) == Some(sigmoid(scores[i]))
    ensures CachedResiduals(examples, scores, sigmoid)[i]
            == (if examples[i].profitable then 1.0 else 0.0) - Probability(model, examples[i].features, sigmoid).value
  {
  }

  lemma BoostedSnoc(examples: seq<Example>, width: nat, base: real, rate: real, stumps: seq<Stump>, sigmoid: real -> real, stump: Stump)
    requires examples != [] && SameWidth(examples, width)
    requires Boosted(examples, width, base, rate, stumps, sigmoid) && stump.feature < width
    requires LeastSquares(examples, width, Residuals(examples, base, rate, stumps, sigmoid), stump)
    ensures Boosted(examples, width, base, rate, stumps + [stump], sigmoid)
  {
    var more := stumps + [stump];
    assert more[..|stumps|] == stumps;
    forall k | 0 <= k < |more|
      ensures LeastSquares(examples, width, Residuals(examples, base, rate, more[..k], sigmoid), more[k])
    {
      if k < |stumps| {
        assert more[..k] == stumps[..k];
      }
    }
  }

  /** In every round the boosted model loses nothing against its own residuals. */
  lemma RoundsNeverHurt(examples: seq<Example>, model: TreeModel, sigmoid: real -> real, k: nat)
    requires examples != [] && SameWidth(examples, model.featureCount) && k < |model.stumps|
    requires Boosted(examples, model.featureCount, model.baseScore, model.learningRate, model.stumps, sigmoid)
    ensures var residuals := Residuals(examples, model.baseScore, model.learningRate, model.stumps[..k], sigmoid);
            SquaredError(examples, residuals, model.stumps[k]) <= SumSquares(residuals)
  {
    NoWorseThanNothing(examples, model.featureCount,
      Residuals(examples, model.baseScore, model.learningRate, model.stumps[..k], sigmoid), model.stumps[k]);
  }
}
