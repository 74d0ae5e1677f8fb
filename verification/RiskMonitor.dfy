/** The pre-trade gate: kill switch, whitelists, order rate, daily loss, and fractional
    Kelly sizing under four clamps and an after-fee edge floor. Dollar amounts of the
    configuration and the bankroll are reals in ticks; probabilities are plain reals. */
module RiskMonitor {
  import opened Wrappers
  import opened Ticks
  import opened Positions
  import opened Conservation
  import opened SlidingWindow
  import opened Totals
  import opened KillSwitch
  import Fees
  import Pnl

  datatype Config = Config(
    maxPerMarket: real, maxTotal: real, maxDailyLoss: real, perOrderMax: int,
    maxOrdersPerMinute: int, minEdgeBps: int, kellyFraction: real, maxKellyPct: real,
    errorThreshold: int, errorWindow: real,
    assumeTaker: bool, takerRate: real, categories: set<string>, tickers: set<string>)
  {
    /** What the configuration's own validator demands. */
    predicate Valid() {
      0.0 < kellyFraction <= 1.0 && 0.0 < maxKellyPct <= 1.0
    }
  }

  /** A proposed buy; the category is lower-cased, empty when the market has none. */
  datatype Request = Request(
    ticker: string, side: Side, probability: real, price: int, confidence: real,
    bankroll: real, category: string)
  {
    /** Probability that the bought side pays. */
    function SideProbability(): real {
      if side == Yes then probability else 1.0 - probability
    }
  }

  /** What the gate reads besides the request. */
  datatype View = View(engaged: bool, ordersLastMinute: nat, dailyPnl: int, book: map<string, Position>)

  datatype Reason =
    | KillSwitchEngaged | TickerNotWhitelisted | CategoryNotWhitelisted | MaxOrdersPerMinute
    | MaxDailyLoss | PriceAtExtremum | MaxTotalExposure | NoEdge | KellyZeroOrNegative
    | PerMarketCapFull | SizeBelowOneContract
    | EdgeBelowMin(contracts: int, fees: int, edge: real)

  datatype Decision =
    | Rejected(reason: Reason)
    | Approved(contracts: int, fees: int, edge: real)

  function Probability(price: int): real {
    price as real / 10000.0
  }

  /** `int(x)`: truncation toward zero. */
  function Truncate(x: real): int {
    if x >= 0.0 then x.Floor else -((-x).Floor)
  }

  function Kelly(p: real, price: int): real
    requires price != DOLLAR
  {
    (p - Probability(price)) / (1.0 - Probability(price))
  }

  /** The fractional, confidence-weighted Kelly share. */
  function KellyShare(cfg: Config, kelly: real, confidence: real): real {
    kelly * cfg.kellyFraction * confidence
  }

  /** The stake before the market and global clamps. */
  function Stake(cfg: Config, p: real, price: int, confidence: real): real
    requires price != DOLLAR
  {
    RealMin(KellyShare(cfg, Kelly(p, price), confidence), cfg.maxKellyPct)
  }

  /** Expected profit per contract after fees, as a share of a dollar. */
  function UnitEdge(cfg: Config, p: real, price: int): real {
    p - Probability(price) - Fees.FeePerContract(price, cfg.assumeTaker, cfg.takerRate) as real / 10000.0
  }

  /** `edge_after_fees_dollars`, in ticks, for the bought side's probability. */
  function EdgeAfterFees(cfg: Config, contracts: int, p: real, price: int): real {
    (p * (1.0 - Probability(price)) - (1.0 - p) * Probability(price)) * contracts as real * 10000.0
      - Fees.TotalFee(contracts, price, cfg.assumeTaker, cfg.takerRate) as real
  }

  function CostOn(book: map<string, Position>, ticker: string): int {
    if ticker in book then book[ticker].Cost() else 0
  }

  predicate IsClosingBuy(book: map<string, Position>, req: Request) {
    req.ticker in book && book[req.ticker].count > 0 && book[req.ticker].side != req.side
  }

  /** The guards before sizing; None when all pass. */
  function Screen(cfg: Config, view: View, req: Request): Option<Reason> {
    if view.engaged then Some(KillSwitchEngaged)
    else if cfg.tickers != {} && req.ticker !in cfg.tickers then Some(TickerNotWhitelisted)
    else if cfg.categories != {} && req.category !in cfg.categories then Some(CategoryNotWhitelisted)
    else if view.ordersLastMinute >= cfg.maxOrdersPerMinute then Some(MaxOrdersPerMinute)
    else if view.dailyPnl as real <= -cfg.maxDailyLoss then Some(MaxDailyLoss)
    else if req.price <= 0 || req.price >= DOLLAR then Some(PriceAtExtremum)
    else None
  }

  function Portion(share: real, bankroll: real): real {
    share * bankroll
  }

  /** `int(size / price)`. */
  function Affordable(size: real, price: int): int
    requires price > 0
  {
    Truncate(size / price as real)
  }

  /** Whole contracts that a share of the bankroll buys, after the market, global and order
      clamps. */
  function Contracts(cfg: Config, used: int, total: int, stake: real, bankroll: real, price: int): (n: int)
    requires price > 0
    ensures n <= cfg.perOrderMax
  {
    var size := RealMin(RealMin(Portion(stake, bankroll), cfg.maxPerMarket - used as real), cfg.maxTotal - total as real);
    Min(Affordable(size, price), cfg.perOrderMax)
  }

  /** The contracts an opening buy may have, before the edge floor is looked at. */
  function Sized(cfg: Config, used: int, total: int, p: real, price: int, confidence: real, bankroll: real): (d: Decision)
    requires 0 < price < DOLLAR
    ensures d.Approved? ==> 0 < d.contracts <= cfg.perOrderMax
    ensures !Trips(d)
  {
    if total as real >= cfg.maxTotal then Rejected(MaxTotalExposure)
    else if p - Probability(price) <= 0.0 then Rejected(NoEdge)
    else
      var stake := Stake(cfg, p, price, confidence);
      if stake <= 0.0 then Rejected(KellyZeroOrNegative)
      else if cfg.maxPerMarket - used as real <= 0.0 then Rejected(PerMarketCapFull)
      else
        var contracts := Contracts(cfg, used, total, stake, bankroll, price);
        if contracts <= 0 then Rejected(SizeBelowOneContract)
        else Approved(contracts, Fees.TotalFee(contracts, price, cfg.assumeTaker, cfg.takerRate),
                      EdgeAfterFees(cfg, contracts, p, price))
  }

  predicate EdgeTooSmall(cfg: Config, edge: real, contracts: int, price: int)
    requires price > 0 && contracts > 0
  {
    edge / (price * contracts) as real * 10000.0 < cfg.minEdgeBps as real
  }

  ghost function Opening(cfg: Config, book: map<string, Position>, req: Request): (d: Decision)
    requires 0 < req.price < DOLLAR
    ensures !Trips(d)
  {
    var sized := Sized(cfg, CostOn(book, req.ticker), Exposure(book), req.SideProbability(),
                       req.price, req.confidence, req.bankroll);
    if sized.Approved? && EdgeTooSmall(cfg, sized.edge, sized.contracts, req.price) then
      Rejected(EdgeBelowMin(sized.contracts, sized.fees, sized.edge))
    else sized
  }

  ghost function Evaluate(cfg: Config, view: View, req: Request): Decision {
    match Screen(cfg, view, req)
    case Some(reason) => Rejected(reason)
    case None =>
      if IsClosingBuy(view.book, req) then
        var held := view.book[req.ticker];
        var contracts := Min(held.count, cfg.perOrderMax);
        var fees := Fees.TotalFee(contracts, req.price, cfg.assumeTaker, cfg.takerRate);
        Approved(contracts, fees, ((DOLLAR - held.avg - req.price) * contracts - fees) as real)
      else Opening(cfg, view.book, req)
  }

  ghost predicate ExposureBreached(cfg: Config, book: map<string, Position>) {
    Exposure(book) as real > cfg.maxTotal
  }

  /** The two refusals that also engage the kill switch. */
  predicate Trips(d: Decision) {
    d.Rejected? && (d.reason == MaxOrdersPerMinute || d.reason == MaxDailyLoss)
  }

  predicate Whitelisted(cfg: Config, req: Request) {
    (cfg.tickers == {} || req.ticker in cfg.tickers) && (cfg.categories == {} || req.category in cfg.categories)
  }

  /** The rate refusal comes at the limit itself, not above it: after as many attempts at one
      instant as the limit allows, the next check refuses and trips the kill switch; after one
      fewer it does not. */
  lemma LimitItselfTrips(cfg: Config, req: Request, dailyPnl: int, book: map<string, Position>)
    requires 0 < cfg.maxOrdersPerMinute <= MAXLEN && Whitelisted(cfg, req)
    ensures var limit := cfg.maxOrdersPerMinute;
            var full, last := Burst(limit), Burst(limit - 1);
            var d := Evaluate(cfg, View(false, CountSince(Recent(Log(full)), -60.0), dailyPnl, book), req);
            && Guarded(full, limit) && d == Rejected(MaxOrdersPerMinute) && Trips(d)
            && Evaluate(cfg, View(false, CountSince(Recent(Log(last)), -60.0), dailyPnl, book), req) != Rejected(MaxOrdersPerMinute)
  {
    hide Recent, CountSince, Log, Guarded, Burst, Sized, EdgeTooSmall;
    var limit := cfg.maxOrdersPerMinute;
    BurstPasses(limit, limit);
    BurstCounts(limit, -60.0);
    BurstCounts(limit - 1, -60.0);
    NotSizedOnRate(cfg, View(false, limit - 1, dailyPnl, book), req);
  }

  lemma NotSizedOnRate(cfg: Config, view: View, req: Request)
    ensures Evaluate(cfg, view, req) == Rejected(MaxOrdersPerMinute) <==> Screen(cfg, view, req) == Some(MaxOrdersPerMinute)
  {
  }

  /** So does the error spike: exactly as many errors as the threshold, within the window. */
  lemma ThresholdItselfTrips(cfg: Config)
    requires 0 < cfg.errorThreshold <= MAXLEN && cfg.errorWindow >= 0.0
    ensures var n := cfg.errorThreshold;
            && SpikeAt(cfg, Log(Burst(n)), 0.0)
            && !SpikeAt(cfg, Log(Burst(n - 1)), 0.0)
  {
    hide Recent, CountSince, Log, Burst;
    BurstCounts(cfg.errorThreshold, 0.0 - cfg.errorWindow);
    BurstCounts(cfg.errorThreshold - 1, 0.0 - cfg.errorWindow);
  }

  /** The log falls into errors older than the window, and errors within it. */
  predicate Splits(cfg: Config, log: seq<real>, older: seq<real>, recent: seq<real>, now: real) {
    && log == older + recent
    && (forall t :: t in older ==> t < now - cfg.errorWindow)
    && (forall t :: t in recent ==> t >= now - cfg.errorWindow)
  }

  /** Only the errors of the window count, however many there were before. */
  lemma SpikeCountsWindow(cfg: Config, log: seq<real>, older: seq<real>, recent: seq<real>, now: real)
    requires cfg.errorThreshold <= MAXLEN && Splits(cfg, log, older, recent, now)
    ensures SpikeAt(cfg, log, now) <==> |recent| >= cfg.errorThreshold
  {
    hide CountSince;
    assert forall i :: 0 <= i < |older| ==> older[i] in older;
    assert forall i :: 0 <= i < |recent| ==> recent[i] in recent;
    CountConcat(older, recent, now - cfg.errorWindow);
    CountNone(older, now - cfg.errorWindow);
    CountAll(recent, now - cfg.errorWindow);
  }

  /** Errors further apart than the window. */
  predicate Spaced(log: seq<real>, window: real) {
    forall i, j :: 0 <= i < j < |log| ==> log[i] + window < log[j]
  }

  /** Such errors never make a spike of two or more, in any number. */
  lemma SpacedErrorsMakeNoSpike(cfg: Config, log: seq<real>, now: real)
    requires cfg.errorThreshold > 1 && Spaced(log, cfg.errorWindow) && forall t :: t in log ==> t <= now
    ensures !SpikeAt(cfg, log, now)
  {
    hide CountSince;
    var cutoff := now - cfg.errorWindow;
    if log == [] {
      CountNone(log, cutoff);
    } else {
      var n := |log| - 1;
      assert log == log[..n] + [log[n]] && log[n] in log;
      CountConcat(log[..n], [log[n]], cutoff);
      CountNone(log[..n], cutoff);
      CountAtMostLength([log[n]], cutoff);
    }
  }

  /** The spike check at this time, on this log of errors. */
  predicate SpikeAt(cfg: Config, log: seq<real>, now: real) {
    Min(MAXLEN, CountSince(log, now - cfg.errorWindow)) >= cfg.errorThreshold
  }

  /** `current_total_exposure_dollars`: the sum over the position rows. */
  method TotalExposure(book: map<string, Position>) returns (total: int)
    ensures total == Exposure(book)
  {
    total := 0;
    var left := book;
    while left != map[]
      invariant total + Exposure(left) == Exposure(book)
      decreases |left|
    {
      var k :| k in left;
      total := total + left[k].avg * left[k].count;
      SumRemove(CostMap(left), k);
      assert CostMap(left - {k}) == CostMap(left) - {k};
      left := left - {k};
    }
    assert CostMap(left) == map[];
  }

  method CountNotBefore(stamps: seq<real>, cutoff: real) returns (n: nat)
    ensures n == CountSince(stamps, cutoff)
  {
    n := 0;
    for i := 0 to |stamps|
      invariant n == CountSince(stamps[..i], cutoff)
    {
      assert stamps[..i + 1][..i] == stamps[..i];
      if stamps[i] >= cutoff {
        n := n + 1;
      }
    }
    assert stamps[..|stamps|] == stamps;
  }

  class Monitor {
    const cfg: Config
    const kill: Switch
    const snapshots: Pnl.Snapshots
    var orderStamps: seq<real>
    var errorStamps: seq<real>
    ghost var orderLog: seq<real>
    ghost var errorLog: seq<real>

    /** The deques hold the newest 200 entries of the complete logs. */
    ghost predicate Valid()
      reads this
    {
      orderStamps == Recent(orderLog) && errorStamps == Recent(errorLog) && Sorted(orderLog) && Sorted(errorLog)
    }

    constructor (cfg: Config, kill: Switch, snapshots: Pnl.Snapshots)
      ensures Valid() && this.cfg == cfg && this.kill == kill && this.snapshots == snapshots
      ensures orderLog == [] && errorLog == []
    {
      this.cfg, this.kill, this.snapshots := cfg, kill, snapshots;
      orderStamps, errorStamps, orderLog, errorLog := [], [], [], [];
    }

    method RecordOrderAttempt(now: real)
      requires Valid() && forall t :: t in orderLog ==> t <= now
      modifies this`orderStamps, this`orderLog
      ensures Valid() && orderLog == old(orderLog) + [now]
    {
      PushIsRecent(orderLog, now);
      SortedPush(orderLog, now);
      orderStamps := Push(orderStamps, now);
      orderLog := orderLog + [now];
    }

    /** Records an error at `now`; the spike check then reads the clock again. */
    method RecordError(now: real, later: real)
      requires Valid() && now <= later && forall t :: t in errorLog ==> t <= now
      modifies this`errorStamps, this`errorLog, kill
      ensures Valid() && errorLog == old(errorLog) + [now]
      ensures kill.IsEngaged() <==>
              old(kill.IsEngaged()) || SpikeAt(cfg, errorLog, later)
      ensures cfg.errorThreshold <= MAXLEN ==>
                forall older, recent :: Splits(cfg, errorLog, older, recent, later) ==>
                  (kill.IsEngaged() <==> old(kill.IsEngaged()) || |recent| >= cfg.errorThreshold)
      ensures cfg.errorThreshold > 1 && Spaced(errorLog, cfg.errorWindow) ==> kill.IsEngaged() == old(kill.IsEngaged())
      ensures old(kill.IsEngaged()) ==> kill.file == old(kill.file)
    {
      hide Recent, CountSince, Sorted;
      PushIsRecent(errorLog, now);
      SortedPush(errorLog, now);
      errorStamps := Push(errorStamps, now);
      errorLog := errorLog + [now];
      DequeCountsTheLog(errorLog, later - cfg.errorWindow);
      var recent := CountNotBefore(errorStamps, later - cfg.errorWindow);
      if recent >= cfg.errorThreshold {
        kill.Engage("error_spike");
      }
      forall older, recent | cfg.errorThreshold <= MAXLEN && Splits(cfg, errorLog, older, recent, later)
        ensures SpikeAt(cfg, errorLog, later) <==> |recent| >= cfg.errorThreshold
      {
        SpikeCountsWindow(cfg, errorLog, older, recent, later);
      }
      if cfg.errorThreshold > 1 && Spaced(errorLog, cfg.errorWindow) {
        SpacedErrorsMakeNoSpike(cfg, errorLog, later);
      }
    }

    /** `daily_realized_pnl_dollars`, for the local day. */
    method DailyPnl(today: int, book: map<string, Position>) returns (profit: int)
      ensures profit == Pnl.Since(snapshots.days, today, book)
    {
      profit := snapshots.RealizedSince(today, book);
    }

    /** `check_trade`. The clock, the local day and the position table are given. */
    method CheckTrade(req: Request, now: real, today: int, book: map<string, Position>) returns (decision: Decision)
      requires Valid()
      modifies kill
      ensures Valid()
      ensures decision == Evaluate(cfg, View(old(kill.IsEngaged()), Min(MAXLEN, CountSince(orderLog, now - 60.0)),
                                            Pnl.Since(snapshots.days, today, book), book), req)
      ensures kill.IsEngaged() <==> old(kill.IsEngaged()) || Trips(decision)
      ensures old(kill.IsEngaged()) ==> kill.file == old(kill.file)
    {
      hide CountSince, Recent, Sorted, Opening, Fees.TotalFee, Pnl.Since;
      DequeCountsTheLog(orderLog, now - 60.0);
      if kill.IsEngaged() {
        return Rejected(KillSwitchEngaged);
      }
      if cfg.tickers != {} && req.ticker !in cfg.tickers {
        return Rejected(TickerNotWhitelisted);
      }
      if cfg.categories != {} && req.category !in cfg.categories {
        return Rejected(CategoryNotWhitelisted);
      }
      var orders := CountNotBefore(orderStamps, now - 60.0);
      if orders >= cfg.maxOrdersPerMinute {
        kill.Engage("runaway_order_rate");
        return Rejected(MaxOrdersPerMinute);
      }
      var dailyPnl := DailyPnl(today, book);
      if dailyPnl as real <= -cfg.maxDailyLoss {
        kill.Engage("daily_loss_breach");
        return Rejected(MaxDailyLoss);
      }
      var price := req.price;
      if price <= 0 || price >= DOLLAR {
        return Rejected(PriceAtExtremum);
      }
      if IsClosingBuy(book, req) {
        var held := book[req.ticker];
        var contracts := Min(held.count, cfg.perOrderMax);
        var fees := Fees.TotalFee(contracts, price, cfg.assumeTaker, cfg.takerRate);
        return Approved(contracts, fees, ((DOLLAR - held.avg - price) * contracts - fees) as real);
      }
      decision := SizeOpening(req, book);
    }

    /** One turn of `run_background`: the caps are looked at again after the fact. */
    method Recheck(today: int, book: map<string, Position>)
      modifies kill
      ensures kill.file ==
              if old(kill.IsEngaged()) then old(kill.file)
              else if ExposureBreached(cfg, book) then Some("post_hoc_exposure_breach")
              else if Pnl.Since(snapshots.days, today, book) as real <= -cfg.maxDailyLoss then Some("post_hoc_daily_loss")
              else None
    {
      if !kill.IsEngaged() {
        var total := TotalExposure(book);
        if total as real > cfg.maxTotal {
          kill.Engage("post_hoc_exposure_breach");
        }
        var dailyPnl := DailyPnl(today, book);
        if dailyPnl as real <= -cfg.maxDailyLoss {
          kill.Engage("post_hoc_daily_loss");
        }
      }
    }

    /** The opening branch: size, then the edge floor. */
    method SizeOpening(req: Request, book: map<string, Position>) returns (decision: Decision)
      requires 0 < req.price < DOLLAR
      ensures decision == Opening(cfg, book, req)
    {
      hide Kelly, Stake, RealMin, Portion, Affordable, EdgeAfterFees, Fees.TotalFee, Exposure, EdgeTooSmall;
      var price := req.price;
      var total := TotalExposure(book);
      if total as real >= cfg.maxTotal {
        return Rejected(MaxTotalExposure);
      }
      var p := req.SideProbability();
      if p - Probability(price) <= 0.0 {
        return Rejected(NoEdge);
      }
      var stake := Stake(cfg, p, price, req.confidence);
      if stake <= 0.0 {
        return Rejected(KellyZeroOrNegative);
      }
      var size := Portion(stake, req.bankroll);
      var room := cfg.maxPerMarket - CostOn(book, req.ticker) as real;
      if room <= 0.0 {
        return Rejected(PerMarketCapFull);
      }
      size := RealMin(size, room);
      size := RealMin(size, cfg.maxTotal - total as real);
      var contracts := Affordable(size, price);
      contracts := Min(contracts, cfg.perOrderMax);
      assert contracts == Contracts(cfg, CostOn(book, req.ticker), total, stake, req.bankroll, price);
      if contracts <= 0 {
        return Rejected(SizeBelowOneContract);
      }
      var fees := Fees.TotalFee(contracts, price, cfg.assumeTaker, cfg.takerRate);
      var edge := EdgeAfterFees(cfg, contracts, p, price);
      if EdgeTooSmall(cfg, edge, contracts, price) {
        return Rejected(EdgeBelowMin(contracts, fees, edge));
      }
      return Approved(contracts, fees, edge);
    }
  }
}
