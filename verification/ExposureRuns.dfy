/** The gate and the ledger together: rounds of one risk check, one order and the ingestion
    of its fills keep the exposure caps over whole runs, up to the average-price rounding of
    a single order; the excess does not build up. */
module ExposureRuns {
  import opened Wrappers
  import opened Ticks
  import opened Positions
  import opened Conservation
  import opened RiskMonitor
  import opened PositionRuns
  import Sizing
  import Fees

  /** One round: what the gate reads besides the positions, the request, and the fills the
      order got, ingested before the next check. */
  datatype Round = Round(engaged: bool, ordersLastMinute: nat, dailyPnl: int, req: Request, fills: seq<Trade>)

  function Bought(fills: seq<Trade>): nat {
    if fills == [] then 0 else Bought(fills[..|fills| - 1]) + fills[|fills| - 1].count
  }

  predicate BuysAtMost(fills: seq<Trade>, side: Side, price: int) {
    forall i :: 0 <= i < |fills| ==> fills[i].action == Buy && fills[i].side == side && 0 <= fills[i].price <= price
  }

  ghost function DecisionOn(cfg: Config, book: map<string, Position>, r: Round): Decision {
    Evaluate(cfg, View(r.engaged, r.ordersLastMinute, r.dailyPnl, book), r.req)
  }

  /** A limit order fills at or below its price, for at most its count; a refused request is
      not sent. */
  ghost predicate Fair(cfg: Config, book: map<string, Position>, r: Round) {
    match DecisionOn(cfg, book, r)
    case Rejected(_) => r.fills == []
    case Approved(n, _, _) => BuysAtMost(r.fills, r.req.side, r.req.price) && Bought(r.fills) <= Max(n, 0)
  }

  function Held(book: map<string, Position>, req: Request): Position {
    if req.ticker in book then book[req.ticker] else NoPosition(req.side)
  }

  function Settle(book: map<string, Position>, r: Round): map<string, Position> {
    if r.fills == [] then book else book[r.req.ticker := Run(Held(book, r.req), r.fills)]
  }

  predicate Answer(s: seq<Fill>, req: Request) {
    forall i :: 0 <= i < |s| ==> s[i].ticker == req.ticker && s[i].side == req.side
  }

  lemma SettleNothing(book: map<string, Position>, r: Round)
    requires r.fills == []
    ensures Settle(book, r) == book
  {
  }

  /** One execution more, on the row that the earlier ones left. */
  lemma SettleNext(e: Books, book: map<string, Position>, f: Fill, r: Round, rate: real)
    requires f.Price() != None && f.ticker == r.req.ticker && f.side == r.req.side && e.book == Settle(book, r)
    ensures var t := TradeOf(f, f.Price().value, rate);
            Post(e, f, f.Price().value, rate).book == Settle(book, r.(fills := r.fills + [t]))
  {
    hide Next, TradeOf;
    var t := TradeOf(f, f.Price().value, rate);
    assert (r.fills + [t])[..|r.fills|] == r.fills;
    assert e.At(f.ticker, f.side) == Run(Held(book, r.req), r.fills);
  }

  /** Settling is what the ledger does with the executions of one order, first seen. */
  lemma {:induction false} SettlingIsPosting(b: Books, s: seq<Fill>, r: Round, rate: real)
    requires Priced(s) && Answer(s, r.req) && r.fills == TradesOn(s, r.req.ticker, rate)
    ensures PostAll(b, s, rate).book == Settle(b.book, r) && |r.fills| == |s|
  {
    hide Next, TradeOf, Settle, Post;
    if s == [] {
      assert Settle(b.book, r) == b.book by { SettleNothing(b.book, r); }
    } else {
      var n := |s| - 1;
      var init := r.(fills := TradesOn(s[..n], r.req.ticker, rate));
      SettlingIsPosting(b, s[..n], init, rate);
      assert r.fills == init.fills + [TradeAt(s, n, rate)];
      assert r.fills[..n] == init.fills;
      SettleNext(PostAll(b, s[..n], rate), b.book, s[n], init, rate);
    }
  }

  /** Sum of the counts held after each averaging fill of this round's order. */
  function RoundSlack(book: map<string, Position>, r: Round): nat {
    RunSlack(Held(book, r.req), r.fills)
  }

  function SettleAll(book: map<string, Position>, rounds: seq<Round>): map<string, Position>
    decreases |rounds|
  {
    if rounds == [] then book else SettleAll(Settle(book, rounds[0]), rounds[1..])
  }

  /** Every round is fair in the state it meets, and rounds by at most `worst` half ticks. */
  ghost predicate FairRun(cfg: Config, book: map<string, Position>, rounds: seq<Round>, worst: nat)
    decreases |rounds|
  {
    rounds != [] ==>
      && Fair(cfg, book, rounds[0])
      && RoundSlack(book, rounds[0]) <= worst
      && FairRun(cfg, Settle(book, rounds[0]), rounds[1..], worst)
  }

  ghost predicate NoNegativeAverage(book: map<string, Position>) {
    forall k :: k in book ==> book[k].avg >= 0
  }

  /** Total and per-market exposure are within their caps but for `worst` half ticks. */
  ghost predicate WithinCaps(cfg: Config, book: map<string, Position>, worst: nat) {
    && (2 * Exposure(book)) as real <= 2.0 * cfg.maxTotal + worst as real
    && forall k :: k in book ==> (2 * book[k].Cost()) as real <= 2.0 * cfg.maxPerMarket + worst as real
  }

  // ---- One order -----------------------------------------------------------------------

  function Outlay(fills: seq<Trade>): int {
    if fills == [] then 0 else Outlay(fills[..|fills| - 1]) + CashPaid(fills[|fills| - 1])
  }

  lemma {:induction false} OutlayAtMost(fills: seq<Trade>, side: Side, price: int)
    requires BuysAtMost(fills, side, price)
    ensures Outlay(fills) <= price * Bought(fills)
  {
    if fills != [] {
      var n := |fills| - 1;
      OutlayAtMost(fills[..n], side, price);
      ScaleMonotone(fills[n].price, price, fills[n].count);
      Times(price, Bought(fills), fills[n].count);
    }
  }

  lemma AddingTrade(p: Position, t: Trade)
    requires t.action == Buy && 0 <= t.price && p.avg >= 0
    requires p.count == 0 || p.side == t.side
    ensures var q := Next(p, t);
            && q.side == t.side && q.count == p.count + t.count && q.avg >= 0
            && q.realized == p.realized - t.fee && NetCash(p, t) == -CashPaid(t) - t.fee
  {
    if p.count > 0 {
      ProductNonNegative(p.avg, p.count);
      ProductNonNegative(t.price, t.count);
      HalfEvenNonNegative(p.Cost() + t.price * t.count, p.count + t.count);
    }
  }

  lemma HalfEvenNonNegative(num: int, den: int)
    requires num >= 0 && den > 0
    ensures DivHalfEven(num, den) >= 0
  {
    if DivHalfEven(num, den) < 0 {
      ScaleMonotone(DivHalfEven(num, den), -1, den);
    }
  }

  /** Buying onto one's own side, or from flat. */
  lemma {:induction false} AddingRun(p: Position, fills: seq<Trade>, side: Side, price: int)
    requires BuysAtMost(fills, side, price) && p.avg >= 0
    requires p.count == 0 || p.side == side
    ensures var q := Run(p, fills);
            && (q.count == 0 || q.side == side) && q.avg >= 0
            && q.count == p.count + Bought(fills)
            && q.realized - RunCash(p, fills) == p.realized + Outlay(fills)
  {
    hide Next, NetCash, CashPaid;
    if fills != [] {
      var n := |fills| - 1;
      AddingRun(p, fills[..n], side, price);
      AddingTrade(Run(p, fills[..n]), fills[n]);
    }
  }

  /** An opening order costs what it pays, up to its rounding. */
  lemma OpeningCost(p: Position, fills: seq<Trade>, side: Side, price: int)
    requires BuysAtMost(fills, side, price) && p.avg >= 0
    requires p.count == 0 || p.side == side
    ensures 2 * Run(p, fills).Cost() <= 2 * (p.Cost() + price * Bought(fills)) + RunSlack(p, fills)
    ensures Run(p, fills).avg >= 0
  {
    hide Run, RunCash, RunSlack, Outlay, Bought, BuysAtMost;
    AddingRun(p, fills, side, price);
    OutlayAtMost(fills, side, price);
    RunConserves(p, fills);
  }

  lemma ClosingTrade(p: Position, t: Trade)
    requires t.action == Buy && t.count <= p.count && p.avg >= 0
    requires p.count == 0 || p.side != t.side
    requires 0 <= t.price
    ensures var q := Next(p, t);
            && q.count == p.count - t.count && q.avg >= 0 && Averaged(p, t) == 0
            && (q.count > 0 ==> q.side == p.side && q.avg == p.avg)
  {
  }

  /** A closing order lowers the position one for one and never turns it over. */
  lemma {:induction false} ClosingRun(p: Position, fills: seq<Trade>, side: Side, price: int)
    requires BuysAtMost(fills, side, price) && p.avg >= 0
    requires p.count == 0 || p.side != side
    requires Bought(fills) <= p.count
    ensures var q := Run(p, fills);
            && q.count == p.count - Bought(fills) && q.avg >= 0
            && (q.count > 0 ==> q.side == p.side && q.avg == p.avg)
            && q.Cost() <= p.Cost()
  {
    hide Next, Averaged;
    if fills != [] {
      var n := |fills| - 1;
      ClosingRun(p, fills[..n], side, price);
      ClosingTrade(Run(p, fills[..n]), fills[n]);
      ScaleMonotone(Run(p, fills).count, p.count, p.avg);
      ProductNonNegative(p.avg, p.count);
    }
  }

  // ---- One round -----------------------------------------------------------------------

  lemma UpdateWithinCaps(cfg: Config, book: map<string, Position>, ticker: string, q: Position, worst: nat)
    requires WithinCaps(cfg, book, worst)
    requires var p := if ticker in book then book[ticker] else NoPosition(q.side);
             (2 * (Exposure(book) - p.Cost() + q.Cost())) as real <= 2.0 * cfg.maxTotal + worst as real
    requires (2 * q.Cost()) as real <= 2.0 * cfg.maxPerMarket + worst as real
    ensures WithinCaps(cfg, book[ticker := q], worst)
  {
    BookUpdate(book, ticker, q);
    hide Exposure;
  }

  lemma OpeningFits(maxTotal: real, maxMarket: real, total: int, before: int, after: int, stake: int, worst: nat)
    requires 2 * after <= 2 * (before + stake) + worst
    requires stake as real <= maxMarket - before as real && stake as real <= maxTotal - total as real
    ensures (2 * (total - before + after)) as real <= 2.0 * maxTotal + worst as real
    ensures (2 * after) as real <= 2.0 * maxMarket + worst as real
  {
  }

  lemma OrderedCost(bought: int, contracts: int, price: int)
    requires bought <= contracts && price >= 0
    ensures price * bought <= price * contracts
  {
  }

  lemma OpeningRoundKeepsCaps(cfg: Config, book: map<string, Position>, r: Round, worst: nat)
    requires Fair(cfg, book, r) && RoundSlack(book, r) <= worst && NoNegativeAverage(book)
    requires WithinCaps(cfg, book, worst)
    requires r.fills != [] && !IsClosingBuy(book, r.req)
    ensures WithinCaps(cfg, Settle(book, r), worst) && Run(Held(book, r.req), r.fills).avg >= 0
  {
    hide Exposure, Evaluate, WithinCaps, RunSlack, Run;
    var p, d := Held(book, r.req), DecisionOn(cfg, book, r);
    Sizing.ApprovedWithinCaps(cfg, View(r.engaged, r.ordersLastMinute, r.dailyPnl, book), r.req);
    OpeningCost(p, r.fills, r.req.side, r.req.price);
    OrderedCost(Bought(r.fills), d.contracts, r.req.price);
    var q := Run(p, r.fills);
    assert CostOn(book, r.req.ticker) == p.Cost();
    OpeningFits(cfg.maxTotal, cfg.maxPerMarket, Exposure(book), p.Cost(), q.Cost(), r.req.price * d.contracts, worst);
    UpdateWithinCaps(cfg, book, r.req.ticker, q, worst);
  }

  lemma ClosingRoundKeepsCaps(cfg: Config, book: map<string, Position>, r: Round, worst: nat)
    requires Fair(cfg, book, r) && NoNegativeAverage(book)
    requires WithinCaps(cfg, book, worst)
    requires r.fills != [] && IsClosingBuy(book, r.req)
    ensures WithinCaps(cfg, Settle(book, r), worst) && Run(Held(book, r.req), r.fills).avg >= 0
    ensures Exposure(Settle(book, r)) <= Exposure(book)
    ensures var p, q := Held(book, r.req), Run(Held(book, r.req), r.fills);
            q.count <= p.count && (q.count > 0 ==> q.side == p.side)
  {
    hide Exposure, Run;
    var p := Held(book, r.req);
    ClosingRun(p, r.fills, r.req.side, r.req.price);
    BookUpdate(book, r.req.ticker, Run(p, r.fills));
    UpdateWithinCaps(cfg, book, r.req.ticker, Run(p, r.fills), worst);
  }

  // ---- Whole runs ----------------------------------------------------------------------

  /** In every run of fair rounds, of any length and over any markets, both caps hold at
      every moment up to the rounding of the worst single order. */
  lemma {:induction false} CapsHoldOverRuns(cfg: Config, book: map<string, Position>, rounds: seq<Round>, worst: nat)
    requires FairRun(cfg, book, rounds, worst) && NoNegativeAverage(book)
    requires WithinCaps(cfg, book, worst)
    ensures WithinCaps(cfg, SettleAll(book, rounds), worst) && NoNegativeAverage(SettleAll(book, rounds))
    decreases |rounds|
  {
    hide Fair, WithinCaps, RoundSlack, Run;
    if rounds != [] {
      var r := rounds[0];
      if r.fills != [] {
        if IsClosingBuy(book, r.req) {
          ClosingRoundKeepsCaps(cfg, book, r, worst);
        } else {
          OpeningRoundKeepsCaps(cfg, book, r, worst);
        }
      }
      CapsHoldOverRuns(cfg, Settle(book, r), rounds[1..], worst);
    }
  }

  /** From an empty ledger. */
  lemma CapsHoldFromEmpty(cfg: Config, rounds: seq<Round>, worst: nat)
    requires cfg.maxTotal >= 0.0 && FairRun(cfg, map[], rounds, worst)
    ensures WithinCaps(cfg, SettleAll(map[], rounds), worst)
  {
    var none: map<string, Position> := map[];
    assert CostMap(none) == map[];
    CapsHoldOverRuns(cfg, none, rounds, worst);
  }

  // ---- The rounding is real ------------------------------------------------------------

  /** A one-piece averaging fill raises the market's cost by more than it paid exactly when
      the exact average lies past the half-way mark, or on it above an odd tick. */
  lemma CostRisesByPaymentIffRoundsDown(p: Position, t: Trade)
    requires t.action == Buy && p.count > 0 && p.side == t.side
    ensures Next(p, t).Cost() <= p.Cost() + CashPaid(t) <==> RoundsDown(p, t)
  {
    var num, den := p.Cost() + t.price * t.count, p.count + t.count;
    assert num == num / den * den + num % den;
    assert (num / den + 1) * den == num / den * den + den;
  }

  /** So a cap that the payment would just meet can be passed: one contract at 0.5000 and two at
      0.5001 are stored as three at 0.5001, a tick more than was paid. */
  lemma AveragingCanCostMore()
    ensures var p := Position(Yes, 1, 5000, 0);
            var q := Next(p, Trade(Yes, Buy, 2, 5001, 0));
            q.Cost() == p.Cost() + 5001 * 2 + 1
  {
    HalfEvenUnique(15002, 3, 5001);
  }

  // ---- Exactly when the caps hold without any excess -----------------------------------

  /** The remainder of the exact average says that it is not rounded up. */
  predicate RoundsDown(p: Position, t: Trade)
    requires p.count + t.count > 0
  {
    var num, den := p.Cost() + t.price * t.count, p.count + t.count;
    2 * (num % den) < den || (2 * (num % den) == den && num / den % 2 == 0)
  }

  /** No averaging fill of the order rounds up, on the position it meets. */
  predicate NoneRoundsUp(p: Position, fills: seq<Trade>) {
    forall i :: 0 <= i < |fills| && Averaged(Run(p, fills[..i]), fills[i]) > 0 ==> RoundsDown(Run(p, fills[..i]), fills[i])
  }

  lemma AddingCostsNoMore(p: Position, t: Trade)
    requires t.action == Buy && (p.count == 0 || p.side == t.side)
    requires Averaged(p, t) > 0 ==> RoundsDown(p, t)
    ensures Next(p, t).Cost() <= p.Cost() + CashPaid(t)
  {
    if p.count > 0 { CostRisesByPaymentIffRoundsDown(p, t); }
  }

  /** An opening order none of whose fills rounds up costs the position no more than it paid. */
  lemma {:induction false} OpeningCostExact(p: Position, fills: seq<Trade>, side: Side, price: int)
    requires BuysAtMost(fills, side, price) && p.avg >= 0
    requires p.count == 0 || p.side == side
    requires NoneRoundsUp(p, fills)
    ensures Run(p, fills).Cost() <= p.Cost() + Outlay(fills)
  {
    hide Next, CashPaid, RoundsDown;
    if fills != [] {
      var n := |fills| - 1;
      var init := fills[..n];
      forall i | 0 <= i < n
        ensures init[..i] == fills[..i] && init[i] == fills[i]
      {
      }
      OpeningCostExact(p, init, side, price);
      AddingRun(p, init, side, price);
      AddingCostsNoMore(Run(p, init), fills[n]);
    }
  }

  lemma OpeningRoundExact(cfg: Config, book: map<string, Position>, r: Round)
    requires Fair(cfg, book, r) && NoneRoundsUp(Held(book, r.req), r.fills) && NoNegativeAverage(book)
    requires WithinCaps(cfg, book, 0)
    requires r.fills != [] && !IsClosingBuy(book, r.req)
    ensures WithinCaps(cfg, Settle(book, r), 0) && Run(Held(book, r.req), r.fills).avg >= 0
  {
    hide Exposure, Evaluate, WithinCaps, RunSlack, Run, NoneRoundsUp;
    var p, d := Held(book, r.req), DecisionOn(cfg, book, r);
    Sizing.ApprovedWithinCaps(cfg, View(r.engaged, r.ordersLastMinute, r.dailyPnl, book), r.req);
    OpeningCost(p, r.fills, r.req.side, r.req.price);
    OpeningCostExact(p, r.fills, r.req.side, r.req.price);
    OutlayAtMost(r.fills, r.req.side, r.req.price);
    OrderedCost(Bought(r.fills), d.contracts, r.req.price);
    var q := Run(p, r.fills);
    assert CostOn(book, r.req.ticker) == p.Cost();
    OpeningFits(cfg.maxTotal, cfg.maxPerMarket, Exposure(book), p.Cost(), q.Cost(), r.req.price * d.contracts, 0);
    UpdateWithinCaps(cfg, book, r.req.ticker, q, 0);
  }

  /** Every round is fair in the state it meets, and none of its fills rounds up. */
  ghost predicate ExactRun(cfg: Config, book: map<string, Position>, rounds: seq<Round>)
    decreases |rounds|
  {
    rounds != [] ==>
      && Fair(cfg, book, rounds[0])
      && NoneRoundsUp(Held(book, rounds[0].req), rounds[0].fills)
      && ExactRun(cfg, Settle(book, rounds[0]), rounds[1..])
  }

  /** Runs in which no averaging fill rounds up keep both caps exactly. */
  lemma {:induction false} CapsHoldExactly(cfg: Config, book: map<string, Position>, rounds: seq<Round>)
    requires ExactRun(cfg, book, rounds) && NoNegativeAverage(book)
    requires WithinCaps(cfg, book, 0)
    ensures WithinCaps(cfg, SettleAll(book, rounds), 0) && NoNegativeAverage(SettleAll(book, rounds))
    decreases |rounds|
  {
    hide Fair, WithinCaps, NoneRoundsUp, Run;
    if rounds != [] {
      var r := rounds[0];
      if r.fills != [] {
        if IsClosingBuy(book, r.req) {
          ClosingRoundKeepsCaps(cfg, book, r, 0);
        } else {
          OpeningRoundExact(cfg, book, r);
        }
      }
      CapsHoldExactly(cfg, Settle(book, r), rounds[1..]);
    }
  }

  /** So from an empty ledger they never trip the exposure test of the background loop. */
  lemma ExactRunsPassRecheck(cfg: Config, rounds: seq<Round>)
    requires cfg.maxTotal >= 0.0 && ExactRun(cfg, map[], rounds)
    ensures !ExposureBreached(cfg, SettleAll(map[], rounds))
  {
    hide SettleAll, ExactRun;
    var none: map<string, Position> := map[];
    assert CostMap(none) == map[];
    CapsHoldExactly(cfg, none, rounds);
  }

  /** Runs in which nothing averages at all are among them. */
  lemma {:induction false} NoAveragingIsExact(cfg: Config, book: map<string, Position>, rounds: seq<Round>)
    requires FairRun(cfg, book, rounds, 0)
    ensures ExactRun(cfg, book, rounds)
    decreases |rounds|
  {
    hide Fair, NoneRoundsUp, Settle;
    if rounds != [] {
      NoSlackRoundsNothing(Held(book, rounds[0].req), rounds[0].fills);
      NoAveragingIsExact(cfg, Settle(book, rounds[0]), rounds[1..]);
    }
  }

  lemma {:induction false} NoSlackRoundsNothing(p: Position, fills: seq<Trade>)
    requires RunSlack(p, fills) == 0
    ensures NoneRoundsUp(p, fills)
  {
    hide Run, Averaged, RoundsDown;
    if fills != [] {
      var n := |fills| - 1;
      NoSlackRoundsNothing(p, fills[..n]);
      forall i | 0 <= i < n
        ensures fills[..n][..i] == fills[..i] && fills[..n][i] == fills[i]
      {
      }
    }
  }

  /** A cap that the payment keeps is kept by the ledger. */
  ghost predicate PaymentSuffices(book: map<string, Position>, ticker: string, t: Trade, cap: int)
    requires ticker in book
  {
    Exposure(book) + CashPaid(t) <= cap ==> Exposure(book[ticker := Next(book[ticker], t)]) <= cap
  }

  /** An averaging buy keeps every cap its payment keeps, in every ledger that holds the
      position, if and only if the average is not rounded up. */
  lemma CapsKeptIffRoundsDown(p: Position, t: Trade)
    requires t.action == Buy && p.count > 0 && p.side == t.side
    ensures (forall book: map<string, Position>, ticker: string, cap: int ::
               ticker in book && book[ticker] == p ==> PaymentSuffices(book, ticker, t, cap))
            <==> RoundsDown(p, t)
  {
    hide Exposure, Next, RoundsDown;
    CostRisesByPaymentIffRoundsDown(p, t);
    if RoundsDown(p, t) {
      forall book: map<string, Position>, ticker: string, cap: int | ticker in book && book[ticker] == p
        ensures PaymentSuffices(book, ticker, t, cap)
      {
        BookUpdate(book, ticker, Next(p, t));
      }
    } else {
      var book := map["M" := p];
      BookUpdate(book, "M", Next(p, t));
      assert !PaymentSuffices(book, "M", t, Exposure(book) + CashPaid(t));
    }
  }

  /** A configuration with a total cap of `cap` ticks, one contract an order, and nothing else
      in the way. */
  function Tight(cap: int): Config {
    Config(cap as real, cap as real, 1.0, 1, 1, 0, 1.0, 1.0, 1, 60.0, true, 0.0, {}, {})
  }

  /** An order for one sure YES contract at this price, filled at it. */
  function SureRound(price: int): Round {
    Round(false, 0, 0, Request("M", Yes, 1.0, price, 1.0, 1000000.0, ""), [Trade(Yes, Buy, 1, price, 0)])
  }

  lemma SelfQuotient(d: real)
    requires d > 0.0
    ensures d / d == 1.0
  {
    var q := d / d;
    assert q * d == 1.0 * d;
    Sizing.CancelFactor(q, 1.0, d);
    Sizing.CancelFactor(1.0, q, d);
  }

  lemma SureFits(cap: int, used: int, price: int)
    requires 0 < price < DOLLAR && used + price <= cap
    ensures Sizing.Fits(Tight(cap), used, used, 1.0, price, 1.0, 1000000.0, 1)
  {
    SelfQuotient(1.0 - Probability(price));
  }

  lemma SureEdge(cap: int, price: int)
    requires 0 < price < DOLLAR
    ensures !EdgeTooSmall(Tight(cap), EdgeAfterFees(Tight(cap), 1, 1.0, price), 1, price)
  {
    SelfQuotient(price as real);
    Sizing.EdgeFloorIgnoresCount(Tight(cap), 1, 1.0, price);
    var u := UnitEdge(Tight(cap), 1.0, price) * 10000.0;
    assert u >= 0.0;
    Sizing.QuotientMonotone(0.0, u, price as real, price as real);
  }

  lemma SureSized(cap: int, used: int, price: int)
    requires 0 < price < DOLLAR && used + price <= cap
    ensures var d := Sized(Tight(cap), used, used, 1.0, price, 1.0, 1000000.0);
            d.Approved? && d.contracts == 1 && d.edge == EdgeAfterFees(Tight(cap), 1, 1.0, price)
  {
    hide Kelly, Contracts, Portion, Stake, Sizing.Fits, EdgeAfterFees, Fees.TotalFee;
    SureFits(cap, used, price);
    Sizing.SizeIsGreatestFit(Tight(cap), used, used, 1.0, price, 1.0, 1000000.0);
  }

  lemma SureRoundApproved(cap: int, book: map<string, Position>, price: int)
    requires 0 < price < DOLLAR && !IsClosingBuy(book, SureRound(price).req)
    requires CostOn(book, "M") == Exposure(book) && Exposure(book) + price <= cap
    ensures Fair(Tight(cap), book, SureRound(price))
  {
    hide Exposure, Sized, EdgeTooSmall, EdgeAfterFees, CostOn;
    SureSized(cap, Exposure(book), price);
    SureEdge(cap, price);
    var r, cfg := SureRound(price), Tight(cap);
    var view := View(false, 0, 0, book);
    assert Screen(cfg, view, r.req) == None;
    assert r.req.SideProbability() == 1.0;
    assert Evaluate(cfg, view, r.req) == Opening(cfg, book, r.req);
    assert DecisionOn(cfg, book, r).contracts == 1;
    assert r.fills[..0] == [];
    assert Bought(r.fills) == 1;
  }

  lemma SureRuns(p: Position, price: int)
    ensures var t := SureRound(price).fills; Run(p, t) == Next(p, t[0]) && RunSlack(p, t) == Averaged(p, t[0])
  {
    assert SureRound(price).fills[..0] == [];
  }

  const ONE_HELD := map["M" := Position(Yes, 1, 5001, 0)]
  const TWO_HELD := map["M" := Position(Yes, 2, 5002, 0)]

  lemma FirstSureRound()
    ensures var r := SureRound(5001);
            Fair(Tight(10003), map[], r) && RoundSlack(map[], r) == 0 && Settle(map[], r) == ONE_HELD
    ensures Exposure(ONE_HELD) == 5001
  {
    hide Fair, Run, RunSlack;
    var none: map<string, Position> := map[];
    assert Exposure(none) == 0 by { assert CostMap(none) == map[]; }
    SureRoundApproved(10003, none, 5001);
    SureRuns(NoPosition(Yes), 5001);
    BookUpdate(none, "M", Position(Yes, 1, 5001, 0));
    hide Exposure;
    assert none["M" := Position(Yes, 1, 5001, 0)] == ONE_HELD;
  }

  lemma SecondSureRound()
    ensures var r := SureRound(5002);
            Fair(Tight(10003), ONE_HELD, r) && RoundSlack(ONE_HELD, r) == 2 && Settle(ONE_HELD, r) == TWO_HELD
    ensures Exposure(TWO_HELD) == 10004
  {
    hide Fair, Run, RunSlack, Exposure;
    var p := Position(Yes, 1, 5001, 0);
    FirstSureRound();
    SureRoundApproved(10003, ONE_HELD, 5002);
    SureRuns(p, 5002);
    HalfEvenUnique(10003, 2, 5002);
    BookUpdate(ONE_HELD, "M", Position(Yes, 2, 5002, 0));
    assert ONE_HELD["M" := Position(Yes, 2, 5002, 0)] == TWO_HELD;
  }

  lemma TwoRounds(cfg: Config, book: map<string, Position>, a: Round, b: Round, worst: nat)
    requires Fair(cfg, book, a) && RoundSlack(book, a) <= worst
    requires var mid := Settle(book, a); Fair(cfg, mid, b) && RoundSlack(mid, b) <= worst
    ensures FairRun(cfg, book, [a, b], worst) && SettleAll(book, [a, b]) == Settle(Settle(book, a), b)
  {
    hide Fair, RoundSlack, Settle;
    var rounds := [a, b];
    assert rounds[1..] == [b] && rounds[1..][1..] == [];
    assert FairRun(cfg, Settle(Settle(book, a), b), [], worst);
    assert SettleAll(Settle(Settle(book, a), b), []) == Settle(Settle(book, a), b);
    assert SettleAll(Settle(book, a), [b]) == Settle(Settle(book, a), b);
  }

  /** The bound of CapsHoldOverRuns is reached: two approved orders of one contract, each
      filled at its price, leave the account a whole tick over the cap, which is all the
      rounding of the second order allows, and the background loop then halts trading. */
  lemma CapCanBePassed()
    ensures var cfg, rounds := Tight(10003), [SureRound(5001), SureRound(5002)];
            var end := SettleAll(map[], rounds);
            && FairRun(cfg, map[], rounds, 2)
            && (2 * Exposure(end)) as real == 2.0 * cfg.maxTotal + 2.0
            && ExposureBreached(cfg, end)
  {
    hide Fair, RoundSlack, Settle, Exposure, FairRun, SettleAll;
    FirstSureRound();
    SecondSureRound();
    TwoRounds(Tight(10003), map[], SureRound(5001), SureRound(5002), 2);
  }
}
