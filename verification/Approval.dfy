/** The gate seen from outside: what a request must satisfy to be approved, and what an
    approval is worth, read off the request, the market and the configuration alone. */
module Approval {
  import opened Wrappers
  import opened Ticks
  import opened Positions
  import opened Conservation
  import opened RiskMonitor
  import Sizing
  import Fees

  /** A contract pays a dollar if its side wins, and nothing if it does not. */
  function Payout(bought: Side, winner: Side, n: int): int {
    if bought == winner then DOLLAR * n else 0
  }

  function Odds(price: int): real {
    price as real / 10000.0
  }

  /** What n contracts bring in on average, in ticks, less what they cost and their fees. */
  function ExpectedProfit(cfg: Config, req: Request, n: int): real {
    req.probability * Payout(req.side, Yes, n) as real
    + (1.0 - req.probability) * Payout(req.side, No, n) as real
    - (req.price * n) as real
    - (n * Fees.FeePerContract(req.price, cfg.assumeTaker, cfg.takerRate)) as real
  }

  /** Is the bought side more likely to win than its price says? */
  predicate Favourable(req: Request) {
    match req.side
    case Yes => Odds(req.price) < req.probability
    case No => Odds(req.price) < 1.0 - req.probability
  }

  /** Kelly's share of the bankroll: edge over what can be won, damped by the configured
      fraction and the confidence. */
  function DampedKelly(cfg: Config, req: Request): real
    requires req.price != DOLLAR
  {
    var chance := match req.side case Yes => req.probability case No => 1.0 - req.probability;
    (chance - Odds(req.price)) / (1.0 - Odds(req.price)) * cfg.kellyFraction * req.confidence
  }

  /** n contracts keep all five limits on an opening trade. */
  ghost predicate Affords(cfg: Config, view: View, req: Request, n: int)
    requires req.price != DOLLAR
  {
    var cost := (req.price * n) as real;
    var held := if req.ticker in view.book then view.book[req.ticker].avg * view.book[req.ticker].count else 0;
    && n <= cfg.perOrderMax
    && cost <= DampedKelly(cfg, req) * req.bankroll
    && cost <= cfg.maxKellyPct * req.bankroll
    && cost + held as real <= cfg.maxPerMarket
    && cost + Exposure(view.book) as real <= cfg.maxTotal
  }

  /** What every request must meet, opening or closing. */
  predicate Admitted(cfg: Config, view: View, req: Request) {
    && !view.engaged && Whitelisted(cfg, req)
    && view.ordersLastMinute < cfg.maxOrdersPerMinute
    && cfg.maxDailyLoss + view.dailyPnl as real > 0.0
    && 0 < req.price < DOLLAR
  }

  /** A buy against what is held. */
  predicate Closes(book: map<string, Position>, req: Request) {
    req.ticker in book && match book[req.ticker]
                          case Position(side, count, _, _) => count > 0 && side != req.side
  }

  lemma AdmittedIffScreened(cfg: Config, view: View, req: Request)
    ensures Admitted(cfg, view, req) <==> Screen(cfg, view, req) == None
  {
  }

  /** The gate's edge is the expected profit, on either side of the market. */
  lemma EdgeIsExpectedProfit(cfg: Config, req: Request, n: int)
    ensures EdgeAfterFees(cfg, n, req.SideProbability(), req.price) == ExpectedProfit(cfg, req, n)
  {
    var fee := Fees.FeePerContract(req.price, cfg.assumeTaker, cfg.takerRate);
    var p := req.SideProbability();
    assert p == match req.side case Yes => req.probability case No => 1.0 - req.probability;
    Sizing.EdgeIsLinear(cfg, n, p, req.price);
    hide Fees.FeePerContract;
    assert UnitEdge(cfg, p, req.price) == p - Odds(req.price) - fee as real / 10000.0;
    PerContract(p, req.price, fee, n);
    assert p * (DOLLAR * n) as real ==
           req.probability * Payout(req.side, Yes, n) as real + (1.0 - req.probability) * Payout(req.side, No, n) as real;
  }

  lemma PerContract(p: real, price: int, fee: int, n: int)
    ensures (p - Odds(price) - fee as real / 10000.0) * 10000.0 * n as real
            == p * (DOLLAR * n) as real - (price * n) as real - (n * fee) as real
  {
    var m := n as real;
    assert (p - Odds(price) - fee as real / 10000.0) * 10000.0 == p * 10000.0 - price as real - fee as real;
    assert (p * 10000.0 - price as real - fee as real) * m == p * 10000.0 * m - price as real * m - fee as real * m;
    assert (DOLLAR * n) as real == 10000.0 * m && (price * n) as real == price as real * m && (n * fee) as real == fee as real * m;
    assert p * (10000.0 * m) == p * 10000.0 * m;
  }

  lemma AffordsIsFits(cfg: Config, view: View, req: Request, n: int)
    requires 0 < req.price < DOLLAR
    ensures Affords(cfg, view, req, n) <==>
            Sizing.Fits(cfg, CostOn(view.book, req.ticker), Exposure(view.book), req.SideProbability(), req.price, req.confidence, req.bankroll, n)
  {
    hide Exposure;
    assert DampedKelly(cfg, req) == KellyShare(cfg, Kelly(req.SideProbability(), req.price), req.confidence);
  }

  /** A share of the price is a share of the stake. */
  lemma FloorMeans(floor: real, edge: real, cost: int)
    requires cost > 0
    ensures edge / cost as real * 10000.0 < floor <==> edge * 10000.0 < floor * cost as real
  {
    var q := edge / cost as real;
    assert q * cost as real == edge;
    if q * 10000.0 < floor {
      Strictly(q * 10000.0, floor, cost as real);
    }
    if edge * 10000.0 < floor * cost as real {
      if q * 10000.0 >= floor { Sizing.ScaleFloor(floor, q * 10000.0, cost as real); }
    }
  }

  lemma Strictly(a: real, b: real, c: real)
    requires a < b && c > 0.0
    ensures a * c < b * c
  {
  }

  /** An opening trade is approved if and only if nothing stands against trading at all, its
      side is underpriced, there is some confidence, one contract keeps all five limits, and
      its expected profit after fees meets the configured floor. Then it is for the greatest
      number of contracts that keeps them, and its edge is its expected profit. */
  lemma OpeningApprovedIff(cfg: Config, view: View, req: Request)
    requires cfg.Valid() && req.bankroll >= 0.0 && !Closes(view.book, req)
    ensures var d := Evaluate(cfg, view, req);
            && (d.Approved? <==>
                  && Admitted(cfg, view, req) && Favourable(req) && req.confidence > 0.0
                  && Affords(cfg, view, req, 1)
                  && cfg.minEdgeBps as real * req.price as real <= ExpectedProfit(cfg, req, 1) * 10000.0)
            && (d.Approved? ==>
                  && (forall n :: n >= 1 ==> (Affords(cfg, view, req, n) <==> n <= d.contracts))
                  && d.contracts >= 1
                  && d.edge == ExpectedProfit(cfg, req, d.contracts)
                  && d.fees == d.contracts * Fees.FeePerContract(req.price, cfg.assumeTaker, cfg.takerRate))
  {
    AdmittedIffScreened(cfg, view, req);
    if Admitted(cfg, view, req) {
      OpeningIff(cfg, view, req);
    }
    hide Exposure, Opening, Favourable, Affords, ExpectedProfit, Screen;
  }

  lemma OpeningIff(cfg: Config, view: View, req: Request)
    requires cfg.Valid() && req.bankroll >= 0.0 && 0 < req.price < DOLLAR
    ensures var d := Opening(cfg, view.book, req);
            && (d.Approved? <==>
                  && Favourable(req) && req.confidence > 0.0 && Affords(cfg, view, req, 1)
                  && cfg.minEdgeBps as real * req.price as real <= ExpectedProfit(cfg, req, 1) * 10000.0)
            && (d.Approved? ==>
                  && (forall n :: n >= 1 ==> (Affords(cfg, view, req, n) <==> n <= d.contracts))
                  && d.contracts >= 1
                  && d.edge == ExpectedProfit(cfg, req, d.contracts)
                  && d.fees == d.contracts * Fees.FeePerContract(req.price, cfg.assumeTaker, cfg.takerRate))
  {
    hide Exposure, Affords, ExpectedProfit, EdgeAfterFees, Sizing.Fits, Sizing.EdgeBps, Kelly, Stake, Contracts, Fees.FeePerContract;
    var used, total, p := CostOn(view.book, req.ticker), Exposure(view.book), req.SideProbability();
    var sized := Sized(cfg, used, total, p, req.price, req.confidence, req.bankroll);
    Sizing.SizeIsGreatestFit(cfg, used, total, p, req.price, req.confidence, req.bankroll);
    forall n | n >= 1
      ensures Affords(cfg, view, req, n) <==> Sizing.Fits(cfg, used, total, p, req.price, req.confidence, req.bankroll, n)
    {
      AffordsIsFits(cfg, view, req, n);
    }
    if sized.Approved? {
      EdgeIsExpectedProfit(cfg, req, sized.contracts);
      EdgeIsExpectedProfit(cfg, req, 1);
      Sizing.EdgeFloorIgnoresCount(cfg, sized.contracts, p, req.price);
      Sizing.EdgeFloorIgnoresCount(cfg, 1, p, req.price);
      FloorMeans(cfg.minEdgeBps as real, ExpectedProfit(cfg, req, 1), req.price * 1);
    }
  }

  /** A closing buy is approved whenever trading is allowed at all, for what is held up to the
      order limit, and its edge is what the ledger will realize if it fills at its price. */
  lemma ClosingApprovedIff(cfg: Config, view: View, req: Request)
    requires Closes(view.book, req)
    ensures var d := Evaluate(cfg, view, req);
            && (d.Approved? <==> Admitted(cfg, view, req))
            && (d.Approved? && cfg.perOrderMax >= 0 ==>
                  var held := view.book[req.ticker];
                  var fee := d.contracts * Fees.FeePerContract(req.price, cfg.assumeTaker, cfg.takerRate);
                  && d.contracts <= held.count && d.contracts <= cfg.perOrderMax
                  && (d.contracts == held.count || d.contracts == cfg.perOrderMax)
                  && d.contracts >= 0 && d.fees == fee
                  && d.edge == (Next(held, Trade(req.side, Buy, d.contracts, req.price, fee)).realized - held.realized) as real)
  {
    hide Fees.FeePerContract, Exposure, Opening;
    AdmittedIffScreened(cfg, view, req);
  }

  /** The kill switch is tripped by exactly two refusals of a whitelisted request: the minute is
      full, or the day's loss has reached its limit. */
  lemma TripsIff(cfg: Config, view: View, req: Request)
    ensures Trips(Evaluate(cfg, view, req)) <==>
            && !view.engaged && Whitelisted(cfg, req)
            && (view.ordersLastMinute >= cfg.maxOrdersPerMinute || cfg.maxDailyLoss + view.dailyPnl as real <= 0.0)
  {
    hide Exposure, Opening;
  }

  /** A refusal gives a true reason, which is what goes on record. */
  predicate Justified(cfg: Config, view: View, req: Request, reason: Reason) {
    match reason
    case KillSwitchEngaged => view.engaged
    case TickerNotWhitelisted => cfg.tickers != {} && req.ticker !in cfg.tickers
    case CategoryNotWhitelisted => cfg.categories != {} && req.category !in cfg.categories
    case MaxOrdersPerMinute => view.ordersLastMinute >= cfg.maxOrdersPerMinute
    case MaxDailyLoss => cfg.maxDailyLoss + view.dailyPnl as real <= 0.0
    case PriceAtExtremum => req.price <= 0 || DOLLAR <= req.price
    case _ => !Closes(view.book, req) && 0 < req.price < DOLLAR
  }

  /** The reasons of an opening trade, once trading is allowed at all. */
  ghost predicate OpeningJustified(cfg: Config, view: View, req: Request, reason: Reason)
    requires 0 < req.price < DOLLAR
  {
    match reason
    case MaxTotalExposure => Exposure(view.book) as real >= cfg.maxTotal
    case NoEdge => !Favourable(req)
    case KellyZeroOrNegative => Favourable(req) && req.confidence <= 0.0
    case PerMarketCapFull => Favourable(req) && CostOn(view.book, req.ticker) as real >= cfg.maxPerMarket
    case SizeBelowOneContract => Favourable(req) && req.confidence > 0.0 && !Affords(cfg, view, req, 1)
    case EdgeBelowMin(n, fees, edge) =>
      && Favourable(req) && n >= 1 && (forall m :: m >= 1 ==> (Affords(cfg, view, req, m) <==> m <= n))
      && fees == n * Fees.FeePerContract(req.price, cfg.assumeTaker, cfg.takerRate)
      && edge == ExpectedProfit(cfg, req, n)
      && ExpectedProfit(cfg, req, 1) * 10000.0 < cfg.minEdgeBps as real * req.price as real
    case _ => false
  }

  lemma RefusalIsJustified(cfg: Config, view: View, req: Request)
    requires cfg.Valid() && req.bankroll >= 0.0 && Evaluate(cfg, view, req).Rejected?
    ensures var reason := Evaluate(cfg, view, req).reason;
            && Justified(cfg, view, req, reason)
            && (Admitted(cfg, view, req) ==> OpeningJustified(cfg, view, req, reason))
  {
    hide Exposure, OpeningJustified, Opening, Favourable, CostOn;
    AdmittedIffScreened(cfg, view, req);
    if Admitted(cfg, view, req) {
      OpeningRefusal(cfg, view, req);
      OpeningReason(cfg, view.book, req);
    }
  }

  lemma OpeningReason(cfg: Config, book: map<string, Position>, req: Request)
    requires 0 < req.price < DOLLAR && Opening(cfg, book, req).Rejected?
    ensures match Opening(cfg, book, req).reason
            case KillSwitchEngaged => false case TickerNotWhitelisted => false case CategoryNotWhitelisted => false
            case MaxOrdersPerMinute => false case MaxDailyLoss => false case PriceAtExtremum => false
            case _ => true
  {
    hide Exposure, Stake, Contracts, EdgeAfterFees, EdgeTooSmall, Fees.TotalFee;
  }

  lemma OpeningRefusal(cfg: Config, view: View, req: Request)
    requires cfg.Valid() && req.bankroll >= 0.0 && 0 < req.price < DOLLAR && Opening(cfg, view.book, req).Rejected?
    ensures OpeningJustified(cfg, view, req, Opening(cfg, view.book, req).reason)
  {
    hide Exposure, Affords, ExpectedProfit, EdgeAfterFees, Sizing.Fits, Sizing.EdgeBps, Kelly, Stake, Contracts, Fees.FeePerContract;
    var used, total, p := CostOn(view.book, req.ticker), Exposure(view.book), req.SideProbability();
    var sized := Sized(cfg, used, total, p, req.price, req.confidence, req.bankroll);
    Sizing.SizeIsGreatestFit(cfg, used, total, p, req.price, req.confidence, req.bankroll);
    if p > Probability(req.price) {
      Sizing.StakePositiveIff(cfg, p, req.price, req.confidence);
    }
    forall n | n >= 1
      ensures Affords(cfg, view, req, n) <==> Sizing.Fits(cfg, used, total, p, req.price, req.confidence, req.bankroll, n)
    {
      AffordsIsFits(cfg, view, req, n);
    }
    if sized.Approved? {
      EdgeIsExpectedProfit(cfg, req, sized.contracts);
      EdgeIsExpectedProfit(cfg, req, 1);
      Sizing.EdgeFloorIgnoresCount(cfg, sized.contracts, p, req.price);
      Sizing.EdgeFloorIgnoresCount(cfg, 1, p, req.price);
      FloorMeans(cfg.minEdgeBps as real, ExpectedProfit(cfg, req, 1), req.price * 1);
    }
  }

  /** A full account is refused before anything else of an opening trade is looked at. */
  lemma FullAccountIff(cfg: Config, view: View, req: Request)
    requires Admitted(cfg, view, req) && !Closes(view.book, req)
    ensures Evaluate(cfg, view, req) == Rejected(MaxTotalExposure) <==> Exposure(view.book) as real >= cfg.maxTotal
  {
    hide Exposure, Stake, Contracts, EdgeAfterFees, EdgeTooSmall, Fees.TotalFee;
    AdmittedIffScreened(cfg, view, req);
  }
}
