/** How many contracts an entry orders (src/app.rs): the cash of the account,
    the configured limits of the stage and the loss allowed per trade. Numbers
    are reals. */
module Sizing {
  import opened Common
  import opened Journals

  datatype AccountFunds = AccountFunds(currency: string, status: string, available: real, immediate: real)

  datatype Limits = Limits(investment: real, lossPerTrade: real, positionSize: u32)

  datatype LimitConfig = LimitConfig(
    normal: Limits, canary: Limits, vixElevatedFactor: real, lunchFactor: real)

  datatype SizingError =
    | FundsUnverified
    | UnexpectedCurrency
    | AccountNotOperable
    | InvalidBalance
    | InvalidBudget

  /** `x.floor() as u32`, which saturates. */
  function FloorToU32(x: real): (n: u32)
    ensures 0.0 <= x < 4_294_967_296.0 ==> n as real <= x < n as real + 1.0
    ensures x < 0.0 ==> n == 0
    ensures x >= 4_294_967_296.0 ==> n == U32_MAX
  {
    if x < 0.0 then 0 else if x.Floor > U32_MAX then U32_MAX else x.Floor
  }

  // ----- limits of the stage -----

  function ConfiguredLimits(config: LimitConfig, stage: LiveStage): Limits {
    if stage == Canary then config.canary else config.normal
  }

  function CautionFactor(config: LimitConfig, elevatedVix: bool, lunch: bool): real {
    (if elevatedVix then config.vixElevatedFactor else 1.0) * (if lunch then config.lunchFactor else 1.0)
  }

  function ExecutionRiskLimits(config: LimitConfig, stage: LiveStage, elevatedVix: bool, lunch: bool): Limits {
    Scaled(ConfiguredLimits(config, stage), CautionFactor(config, elevatedVix, lunch))
  }

  function Scaled(limits: Limits, factor: real): Limits {
    if factor >= 1.0 then limits
    else
      Limits(Share(limits.investment, factor), Share(limits.lossPerTrade, factor), ScaledSize(limits.positionSize, factor))
  }

  function Share(x: real, factor: real): real {
    x * factor
  }

  function ScaledSize(size: u32, factor: real): u32 {
    var scaled := FloorToU32(Share(size as real, factor));
    if scaled >= 1 then scaled else 1
  }

  predicate LimitsAreValid(limits: Limits) {
    limits.investment >= 0.0 && limits.lossPerTrade >= 0.0 && limits.positionSize >= 1
  }

  lemma ProductShrinks(x: real, factor: real)
    requires x >= 0.0 && 0.0 <= factor < 1.0
    ensures 0.0 <= x * factor <= x
  {
    assert x * (1.0 - factor) >= 0.0;
  }

  lemma ShrinksBy(x: real, factor: real)
    requires x >= 0.0 && 0.0 <= factor < 1.0
    ensures 0.0 <= Share(x, factor) <= x
  {
    ProductShrinks(x, factor);
  }

  lemma FloorStaysBelow(x: real, n: u32)
    requires x <= n as real
    ensures FloorToU32(x) <= n
  {
    if x >= 0.0 {
      assert x.Floor as real <= n as real;
    }
  }

  lemma SizeShrinks(size: u32, factor: real)
    requires size >= 1 && 0.0 <= factor < 1.0
    ensures 1 <= ScaledSize(size, factor) <= size
  {
    ShrinksBy(size as real, factor);
    FloorStaysBelow(Share(size as real, factor), size);
  }

  lemma ScaledIsWithin(limits: Limits, factor: real)
    requires LimitsAreValid(limits) && factor >= 0.0
    ensures var scaled := Scaled(limits, factor);
            && 0.0 <= scaled.investment <= limits.investment
            && 0.0 <= scaled.lossPerTrade <= limits.lossPerTrade
            && 1 <= scaled.positionSize <= limits.positionSize
  {
    if factor < 1.0 {
      ShrinksBy(limits.investment, factor);
      ShrinksBy(limits.lossPerTrade, factor);
      SizeShrinks(limits.positionSize, factor);
    }
  }

  /** Caution never raises the limits of the stage, whatever the configured
      factors, and always leaves room for one contract. */
  lemma CautionNeverRaises(config: LimitConfig, stage: LiveStage, elevatedVix: bool, lunch: bool)
    requires LimitsAreValid(config.normal) && LimitsAreValid(config.canary)
    requires config.vixElevatedFactor >= 0.0 && config.lunchFactor >= 0.0
    ensures var configured := ConfiguredLimits(config, stage);
            var actual := ExecutionRiskLimits(config, stage, elevatedVix, lunch);
            && 0.0 <= actual.investment <= configured.investment
            && 0.0 <= actual.lossPerTrade <= configured.lossPerTrade
            && 1 <= actual.positionSize <= configured.positionSize
            && (!elevatedVix && !lunch ==> actual == configured)
  {
    FactorIsSound(config, elevatedVix, lunch);
    ScaledIsWithin(ConfiguredLimits(config, stage), CautionFactor(config, elevatedVix, lunch));
  }

  /** What caution does over the fields: the limits are those of the stage, Canary's own
      in Canary; each factor that applies scales both amounts, together they multiply,
      and a combined factor of one or more changes nothing. The size is scaled down to
      whole contracts, at least one. */
  lemma {:induction false} CautionScalesExactly(config: LimitConfig, stage: LiveStage, elevatedVix: bool, lunch: bool)
    requires config.vixElevatedFactor >= 0.0 && config.lunchFactor >= 0.0
    ensures var own := match stage case Canary => config.canary case _ => config.normal;
            var actual := ExecutionRiskLimits(config, stage, elevatedVix, lunch);
            var factor := match (elevatedVix, lunch)
                          case (false, false) => 1.0
                          case (true, false) => config.vixElevatedFactor
                          case (false, true) => config.lunchFactor
                          case (true, true) => config.vixElevatedFactor * config.lunchFactor;
            && (factor >= 1.0 ==> actual == own)
            && (factor < 1.0 ==>
                  && actual.investment == own.investment * factor && actual.lossPerTrade == own.lossPerTrade * factor
                  && actual.positionSize == ScaledSize(own.positionSize, factor))
  {
    hide ScaledSize;
    FactorIsSound(config, elevatedVix, lunch);
    match (elevatedVix, lunch)
    case (true, false) => assert CautionFactor(config, true, false) == config.vixElevatedFactor;
    case (false, true) => assert CautionFactor(config, false, true) == config.lunchFactor;
    case (true, true) => assert CautionFactor(config, true, true) == config.vixElevatedFactor * config.lunchFactor;
    case (false, false) =>
  }

  /** Whole contracts, and at least one. */
  lemma ScaledSizeExactly(size: u32, factor: real)
    requires 0.0 <= factor < 1.0
    ensures var n, scaled := ScaledSize(size, factor), size as real * factor;
            n >= 1 && scaled < n as real + 1.0 && (n == 1 || n as real <= scaled)
  {
    ProductShrinks(size as real, factor);
  }

  lemma FactorIsSound(config: LimitConfig, elevatedVix: bool, lunch: bool)
    requires config.vixElevatedFactor >= 0.0 && config.lunchFactor >= 0.0
    ensures CautionFactor(config, elevatedVix, lunch) >= 0.0
    ensures !elevatedVix && !lunch ==> CautionFactor(config, elevatedVix, lunch) == 1.0
  {
    ProductIsNonNegative(config.vixElevatedFactor, config.lunchFactor);
  }

  lemma ProductIsNonNegative(a: real, b: real)
    requires a >= 0.0 && b >= 0.0
    ensures a * b >= 0.0
  {
  }

  // ----- the budget -----

  function ValidateAccountFunds(funds: AccountFunds): Option<SizingError> {
    if funds.currency != "peso_Argentino" then Some(UnexpectedCurrency)
    else if funds.status != "operable" then Some(AccountNotOperable)
    else if funds.available < 0.0 || funds.immediate < 0.0 then Some(InvalidBalance)
    else None
  }

  function EffectiveInvestmentBudget(configured: real, funds: AccountFunds): Result<real, SizingError> {
    var invalid := ValidateAccountFunds(funds);
    if invalid.Some? then Err(invalid.value)
    else if configured <= 0.0 then Err(InvalidBudget)
    else Ok(Min(Min(configured, funds.available), funds.immediate))
  }

  function PurchaseCashRequired(price: real, contracts: u32, multiplier: u32, commission: real): real {
    price * contracts as real * multiplier as real * (1.0 + Max(commission, 0.0) / 100.0)
  }

  function AffordableContracts(budget: real, limitPrice: real, multiplier: u32, commission: real, maxPositionSize: u32): u32 {
    if budget <= 0.0 || limitPrice <= 0.0 || multiplier == 0 then 0
    else
      PricePerContract(limitPrice, multiplier, commission);
      var count := FloorToU32(budget / PurchaseCashRequired(limitPrice, 1, multiplier, commission));
      if count <= maxPositionSize then count else maxPositionSize
  }

  /** The budget is the least of the configured amount and the two balances, of an
      operable account in pesos without debt; anything else has no budget. */
  lemma BudgetIsLeast(configured: real, funds: AccountFunds)
    ensures var budget := EffectiveInvestmentBudget(configured, funds);
            && (budget.Ok? <==>
                  && funds.currency == "peso_Argentino" && funds.status == "operable"
                  && funds.available >= 0.0 && funds.immediate >= 0.0 && configured > 0.0)
            && (budget.Ok? ==>
                  && budget.value <= configured && budget.value <= funds.available && budget.value <= funds.immediate
                  && budget.value in {configured, funds.available, funds.immediate})
  {
  }

  /** Without commission the cash is price times contracts times multiplier, and a
      commission adds its percentage of that. */
  lemma CashInFields(price: real, contracts: u32, multiplier: u32, commission: real)
    ensures var cash := PurchaseCashRequired(price, contracts, multiplier, commission);
            var value := price * contracts as real * multiplier as real;
            && (commission <= 0.0 ==> cash == value)
            && (commission >= 0.0 ==> cash - value == value * (commission / 100.0))
  {
  }

  lemma PricePerContract(price: real, multiplier: u32, commission: real)
    requires price > 0.0 && multiplier > 0
    ensures PurchaseCashRequired(price, 1, multiplier, commission) > 0.0
  {
    var rate := 1.0 + Max(commission, 0.0) / 100.0;
    assert price * multiplier as real > 0.0;
    assert price * multiplier as real * rate > 0.0;
  }

  lemma CashIsLinear(price: real, contracts: u32, multiplier: u32, commission: real)
    ensures PurchaseCashRequired(price, contracts, multiplier, commission)
            == contracts as real * PurchaseCashRequired(price, 1, multiplier, commission)
  {
    var rate := 1.0 + Max(commission, 0.0) / 100.0;
    var m, n := multiplier as real, contracts as real;
    assert price * n * m * rate == n * (price * 1.0 * m * rate);
  }

  /** Floored division by a positive price counts exactly the affordable units. */
  lemma FloorCounts(budget: real, unit: real, n: u32)
    requires budget > 0.0 && unit > 0.0
    ensures n <= FloorToU32(budget / unit) <==> n as real * unit <= budget
  {
    var q := budget / unit;
    assert q * unit == budget;
    if n as real <= q {
      assert (q - n as real) * unit >= 0.0;
    } else {
      assert (n as real - q) * unit > 0.0;
    }
    assert n as real <= q <==> n <= q.Floor;
    assert q >= 0.0;
  }

  /** The affordable count is the largest that the position limit allows and
      whose cost with fees fits the budget. */
  lemma AffordableIsLargest(budget: real, limitPrice: real, multiplier: u32, commission: real, maxPositionSize: u32, n: u32)
    requires budget > 0.0 && limitPrice > 0.0 && multiplier > 0
    ensures n <= AffordableContracts(budget, limitPrice, multiplier, commission, maxPositionSize)
            <==> n <= maxPositionSize && PurchaseCashRequired(limitPrice, n, multiplier, commission) <= budget
  {
    PricePerContract(limitPrice, multiplier, commission);
    CashIsLinear(limitPrice, n, multiplier, commission);
    FloorCounts(budget, PurchaseCashRequired(limitPrice, 1, multiplier, commission), n);
  }

  // ----- the quantity -----

  /** `riskPerContract` is the worst net loss of one contract at the limit
      price, None when its economics do not exist. */
  function RiskQuantity(maxLoss: real, riskPerContract: Option<real>): u32 {
    if riskPerContract.Some? && riskPerContract.value > 0.0
    then FloorToU32(maxLoss / riskPerContract.value)
    else 0
  }

  datatype Entry = Entry(
    limits: Limits,
    realRoute: bool,              // the order goes to the real account
    funds: Option<AccountFunds>,  // the last verified statement
    limitPrice: real,
    multiplier: u32,
    commission: real,
    riskPerContract: Option<real>)

  function Budget(entry: Entry): Result<real, SizingError> {
    if !entry.realRoute then Ok(entry.limits.investment)
    else if entry.funds.None? then Err(FundsUnverified)
    else EffectiveInvestmentBudget(entry.limits.investment, entry.funds.value)
  }

  function EntryQuantity(entry: Entry): Result<u32, SizingError> {
    var budget := Budget(entry);
    if budget.Err? then Err(budget.error)
    else
      var cash := AffordableContracts(budget.value, entry.limitPrice, entry.multiplier, entry.commission, entry.limits.positionSize);
      var risk := RiskQuantity(entry.limits.lossPerTrade, entry.riskPerContract);
      Ok(if cash <= risk then cash else risk)
  }

  /** A paper order always has a quantity; a real one needs a verified statement of an
      account with a budget. */
  lemma QuantityExists(entry: Entry)
    ensures EntryQuantity(entry).Ok? <==>
              !entry.realRoute || (entry.funds.Some? && EffectiveInvestmentBudget(entry.limits.investment, entry.funds.value).Ok?)
    ensures entry.realRoute && entry.funds.None? ==> EntryQuantity(entry) == Err(FundsUnverified)
  {
  }

  /** Every bound on an order of `n` contracts, filled at its limit price. */
  predicate WithinEveryBound(entry: Entry, n: u32) {
    var cost := PurchaseCashRequired(entry.limitPrice, n, entry.multiplier, entry.commission);
    && n <= entry.limits.positionSize
    && cost <= entry.limits.investment
    && (entry.realRoute ==> entry.funds.Some? && cost <= entry.funds.value.available && cost <= entry.funds.value.immediate)
    && entry.riskPerContract.Some? && entry.riskPerContract.value > 0.0
    && n as real * entry.riskPerContract.value <= entry.limits.lossPerTrade
  }

  lemma CostIsPositive(price: real, n: u32, multiplier: u32, commission: real)
    requires price > 0.0 && multiplier > 0 && n > 0
    ensures PurchaseCashRequired(price, n, multiplier, commission) > 0.0
  {
    PricePerContract(price, multiplier, commission);
    CashIsLinear(price, n, multiplier, commission);
    assert n as real * PurchaseCashRequired(price, 1, multiplier, commission) > 0.0;
  }

  lemma CashBound(entry: Entry, n: u32)
    requires Budget(entry).Ok? && entry.limitPrice > 0.0 && entry.multiplier > 0 && n > 0
    ensures n <= AffordableContracts(Budget(entry).value, entry.limitPrice, entry.multiplier, entry.commission, entry.limits.positionSize)
            <==> n <= entry.limits.positionSize
                 && PurchaseCashRequired(entry.limitPrice, n, entry.multiplier, entry.commission) <= Budget(entry).value
  {
    CostIsPositive(entry.limitPrice, n, entry.multiplier, entry.commission);
    if Budget(entry).value > 0.0 {
      AffordableIsLargest(Budget(entry).value, entry.limitPrice, entry.multiplier, entry.commission, entry.limits.positionSize, n);
    }
  }

  lemma RiskBound(maxLoss: real, riskPerContract: Option<real>, n: u32)
    requires n > 0
    ensures n <= RiskQuantity(maxLoss, riskPerContract)
            <==> riskPerContract.Some? && riskPerContract.value > 0.0 && n as real * riskPerContract.value <= maxLoss
  {
    if riskPerContract.Some? && riskPerContract.value > 0.0 {
      var unit := riskPerContract.value;
      assert n as real * unit > 0.0;
      if maxLoss > 0.0 {
        FloorCounts(maxLoss, unit, n);
      } else {
        assert maxLoss / unit <= 0.0;
      }
    }
  }

  /** The ordered quantity is exactly the largest within every bound: the
      configured, available and immediate funds, the position size and the loss. */
  lemma QuantityIsLargest(entry: Entry, n: u32)
    requires EntryQuantity(entry).Ok? && entry.limitPrice > 0.0 && entry.multiplier > 0 && n > 0
    ensures n <= EntryQuantity(entry).value <==> WithinEveryBound(entry, n)
  {
    CashBound(entry, n);
    RiskBound(entry.limits.lossPerTrade, entry.riskPerContract, n);
  }

  /** So whatever part of the order fills, at or below its limit, costs no more
      than any of the funds and risks no more than the loss allowed. */
  lemma FillsAreCovered(entry: Entry, filled: u32, fillPrice: real)
    requires EntryQuantity(entry).Ok? && entry.multiplier > 0
    requires 0 < filled <= EntryQuantity(entry).value && 0.0 <= fillPrice <= entry.limitPrice
    ensures var cost := PurchaseCashRequired(fillPrice, filled, entry.multiplier, entry.commission);
            && cost <= entry.limits.investment
            && (entry.realRoute ==> cost <= entry.funds.value.available && cost <= entry.funds.value.immediate)
    ensures filled as real * entry.riskPerContract.value <= entry.limits.lossPerTrade
  {
    QuantityIsLargest(entry, filled);
    CheaperCostsLess(fillPrice, entry.limitPrice, filled, entry.multiplier, entry.commission);
  }

  lemma CheaperCostsLess(low: real, high: real, contracts: u32, multiplier: u32, commission: real)
    requires 0.0 <= low <= high
    ensures PurchaseCashRequired(low, contracts, multiplier, commission)
            <= PurchaseCashRequired(high, contracts, multiplier, commission)
  {
    var m, n, rate := multiplier as real, contracts as real, 1.0 + Max(commission, 0.0) / 100.0;
    assert low * n <= high * n;
    assert low * n * m <= high * n * m;
    assert low * n * m * rate <= high * n * m * rate;
  }
}
