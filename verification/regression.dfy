/** When the trades of a stage send it back to Learning (`trading_regressed`,
    src/learning.rs). */
module Regression {
  import opened Common
  import opened Drawdowns

  /** The gains of the winners. */
  function Profit(values: seq<real>): real {
    if values == [] then 0.0
    else Profit(values[..|values| - 1]) + if values[|values| - 1] > 0.0 then values[|values| - 1] else 0.0
  }

  /** What the others lost. */
  function Loss(values: seq<real>): real {
    if values == [] then 0.0
    else Loss(values[..|values| - 1]) + if values[|values| - 1] > 0.0 then 0.0 else -values[|values| - 1]
  }

  /** `Unlimited` stands for the `f64::MAX` of a list that never lost. */
  datatype Factor = Unlimited | Factor(value: real)

  function FactorOf(profit: real, loss: real): Factor {
    if loss == 0.0 then
      if profit > 0.0 then Unlimited else Factor(0.0)
    else Factor(profit / loss)
  }

  predicate BelowOne(factor: Factor) {
    factor.Factor? && factor.value < 1.0
  }

  /** The factor is gains over losses: unlimited only for gains without a loss, and
      nothing without either. */
  lemma FactorExactly(profit: real, loss: real)
    ensures FactorOf(profit, loss).Unlimited? <==> loss == 0.0 && profit > 0.0
    ensures FactorOf(profit, loss).Factor? ==>
              if loss == 0.0 then FactorOf(profit, loss).value == 0.0 else FactorOf(profit, loss).value * loss == profit
  {
  }

  // ----- the definition -----

  ghost predicate EndsInLosses(pnls: seq<real>, n: nat) {
    n <= |pnls| && forall i | |pnls| - n <= i < |pnls| :: pnls[i] <= 0.0
  }

  ghost predicate LosesOver(recent: seq<real>, allowedDrawdown: real) {
    Sum(recent) <= 0.0 || LargestDrop(recent) > allowedDrawdown
  }

  /** The last `maxLosses` trades all lost, or the latest window gained nothing or
      fell too far. */
  ghost predicate Regressed(pnls: seq<real>, window: nat, maxLosses: u32, allowedDrawdown: real) {
    || EndsInLosses(pnls, maxLosses)
    || (window <= |pnls| && LosesOver(pnls[|pnls| - window..], allowedDrawdown))
  }

  // ----- the program -----

  method LossStreak(pnls: seq<real>) returns (streak: nat)
    ensures streak <= |pnls|
    ensures forall n: nat | n <= |pnls| :: EndsInLosses(pnls, n) <==> n <= streak
  {
    streak := 0;
    while streak < |pnls| && pnls[|pnls| - 1 - streak] <= 0.0
      invariant streak <= |pnls| && EndsInLosses(pnls, streak)
    {
      streak := streak + 1;
    }
  }

  method ProfitFactor(values: seq<real>) returns (factor: Factor)
    ensures factor == FactorOf(Profit(values), Loss(values))
  {
    var profit, loss := 0.0, 0.0;
    for i := 0 to |values|
      invariant profit == Profit(values[..i]) && loss == Loss(values[..i])
    {
      assert values[..i + 1][..i] == values[..i];
      if values[i] > 0.0 {
        profit := profit + values[i];
      } else {
        loss := loss - values[i];
      }
    }
    assert values[..|values|] == values;
    factor := FactorOf(profit, loss);
  }

  method Mean(values: seq<real>) returns (mean: real)
    ensures mean <= 0.0 <==> Sum(values) <= 0.0
    ensures mean * |values| as real == Sum(values)
  {
    var total := 0.0;
    for i := 0 to |values|
      invariant total == Sum(values[..i])
    {
      assert values[..i + 1][..i] == values[..i];
      total := total + values[i];
    }
    assert values[..|values|] == values;
    if values == [] {
      return 0.0;
    }
    mean := total / |values| as real;
    SignOfQuotient(total, |values| as real);
  }

  lemma ProductSign(x: real, b: real)
    requires b > 0.0
    ensures x * b <= 0.0 <==> x <= 0.0
    ensures x * b < 0.0 <==> x < 0.0
  {
  }

  lemma SignOfQuotient(a: real, b: real)
    requires b > 0.0
    ensures a / b <= 0.0 <==> a <= 0.0
    ensures a / b < 1.0 <==> a < b
  {
    var q := a / b;
    assert q * b == a;
    ProductSign(q, b);
    ProductSign(q - 1.0, b);
    assert (q - 1.0) * b == q * b - b;
  }

  lemma {:induction false} SumIsProfitMinusLoss(values: seq<real>)
    ensures Sum(values) == Profit(values) - Loss(values) && Profit(values) >= 0.0 && Loss(values) >= 0.0
  {
    if values != [] {
      SumIsProfitMinusLoss(values[..|values| - 1]);
    }
  }

  /** A profit factor below one never decides: such a list gained nothing. */
  lemma ProfitFactorAddsNothing(values: seq<real>)
    ensures BelowOne(FactorOf(Profit(values), Loss(values))) ==> Sum(values) <= 0.0
  {
    SumIsProfitMinusLoss(values);
    if Loss(values) != 0.0 {
      SignOfQuotient(Profit(values), Loss(values));
    }
  }

  /** The cast to 32 bits cuts off a streak of more than four billion losses. */
  method TradingRegressed(pnls: seq<real>, window: nat, maxLosses: u32, allowedDrawdown: real) returns (regressed: bool)
    ensures |pnls| <= U32_MAX ==> (regressed <==> Regressed(pnls, window, maxLosses, allowedDrawdown))
  {
    var streak := LossStreak(pnls);
    if streak % 0x1_0000_0000 >= maxLosses {
      return true;
    }
    if |pnls| < window {
      return false;
    }
    regressed := WindowRegressed(pnls[|pnls| - window..], allowedDrawdown);
  }

  method WindowRegressed(recent: seq<real>, allowedDrawdown: real) returns (regressed: bool)
    ensures regressed <==> LosesOver(recent, allowedDrawdown)
  {
    var mean := Mean(recent);
    var factor := ProfitFactor(recent);
    var drawdown := MaxDrawdown(recent);
    ProfitFactorAddsNothing(recent);
    LargestDropIsUnique(recent, drawdown, LargestDrop(recent));
    regressed := mean <= 0.0 || BelowOne(factor) || drawdown > allowedDrawdown;
  }

  /** A winning trade ends every streak; only the window can then send the stage back. */
  lemma WinEndsStreak(pnls: seq<real>, gain: real, window: nat, maxLosses: u32, allowedDrawdown: real)
    requires gain > 0.0 && maxLosses > 0
    ensures Regressed(pnls + [gain], window, maxLosses, allowedDrawdown)
            <==> window <= |pnls| + 1 && LosesOver((pnls + [gain])[|pnls| + 1 - window..], allowedDrawdown)
  {
    assert (pnls + [gain])[|pnls|] == gain;
  }
}
