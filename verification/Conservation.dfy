/** Money is conserved by the ledger: what it reports as realized profit, less the cost of
    what is still held, is a dollar per closed pair less the net cash and fees paid. The
    re-quantized average makes this exact only up to half a tick per contract held after
    each averaging fill. */
module Conservation {
  import opened Wrappers
  import opened Ticks
  import opened Positions
  import opened Totals
  import Fees

  // ---- One trade -----------------------------------------------------------------------

  /** Contracts of the opposite side a buy pairs off, each worth a dollar. */
  function Paired(p: Position, t: Trade): nat {
    if t.action == Buy && p.count > 0 && p.side != t.side then Min(p.count, t.count) else 0
  }

  /** Contracts a sell really closes; an oversell is dropped by the program. */
  function Sold(p: Position, t: Trade): nat {
    if t.action == Sell && p.count > 0 && p.side == t.side then Min(p.count, t.count) else 0
  }

  /** The count after an averaging fill; zero for every other trade. */
  function Averaged(p: Position, t: Trade): nat {
    if t.action == Buy && p.count > 0 && p.side == t.side then p.count + t.count else 0
  }

  /** What a trade realizes before its fee: pairs and sales against the average cost. */
  function Gain(p: Position, t: Trade): int {
    if t.action == Buy then (DOLLAR - p.avg - t.price) * Paired(p, t) else (t.price - p.avg) * Sold(p, t)
  }

  function CashPaid(t: Trade): int {
    if t.action == Buy then t.price * t.count else 0
  }

  /** Cash and guaranteed payouts a trade brings in, net of what it costs. */
  function NetCash(p: Position, t: Trade): int {
    DOLLAR * Paired(p, t) + t.price * Sold(p, t) - CashPaid(t) - t.fee
  }

  /** Realized profit less the cost of what is held. */
  function Equity(p: Position): int {
    p.realized - p.Cost()
  }

  lemma PairingConserves(p: Position, t: Trade)
    requires t.action == Buy && p.count > 0 && p.side != t.side
    ensures Equity(Next(p, t)) == Equity(p) + NetCash(p, t)
  {
    var pairs := Min(p.count, t.count);
    TimesSum(DOLLAR - p.avg, t.price, pairs);
    TimesSum(DOLLAR, p.avg, pairs);
    Times(p.avg, p.count, pairs);
    Times(t.price, t.count, pairs);
  }

  lemma SellingConserves(p: Position, t: Trade)
    requires t.action == Sell
    ensures Equity(Next(p, t)) == Equity(p) + NetCash(p, t)
  {
    if p.count > 0 && p.side == t.side {
      var closed := Min(p.count, t.count);
      TimesSum(t.price, p.avg, closed);
      Times(p.avg, p.count, closed);
    }
  }

  lemma AveragingConserves(p: Position, t: Trade)
    requires t.action == Buy && p.count > 0 && p.side == t.side
    ensures Abs(2 * (Equity(Next(p, t)) - Equity(p) - NetCash(p, t))) <= p.count + t.count
  {
    var total := p.count + t.count;
    var num := p.Cost() + t.price * t.count;
    var q := DivHalfEven(num, total);
    assert Equity(Next(p, t)) - Equity(p) - NetCash(p, t) == num - q * total;
  }

  /** Opening, closing, flipping and selling are exact; averaging is off by at most half a
      tick per contract held afterwards. */
  lemma TradeConserves(p: Position, t: Trade)
    ensures Abs(2 * (Equity(Next(p, t)) - Equity(p) - NetCash(p, t))) <= Averaged(p, t)
  {
    if t.action == Sell {
      SellingConserves(p, t);
    } else if p.count > 0 && p.side != t.side {
      PairingConserves(p, t);
    } else if p.count > 0 {
      AveragingConserves(p, t);
    }
  }

  /** The bound on one averaging fill is attained: one contract at 0.5000 and one at 0.5001
      are stored as two at 0.5000, half a tick each below what was paid. */
  lemma TradeBoundAttained()
    ensures var p := Position(Yes, 1, 5000, 0);
            var t := Trade(Yes, Buy, 1, 5001, 0);
            2 * (Equity(Next(p, t)) - Equity(p) - NetCash(p, t)) == Averaged(p, t) == 2
  {
    HalfEvenUnique(10001, 2, 5000);
  }

  /** Selling takes what it closes off the count, leaves the side, and the average of what is
      left. */
  lemma SellingReduces(p: Position, t: Trade)
    requires t.action == Sell
    ensures var q := Next(p, t);
            q.count == p.count - Sold(p, t) && q.side == p.side && (q.count > 0 ==> q.avg == p.avg)
  {
  }

  /** An empty position carries no average, so exposure is the cost of what is held. */
  lemma {:induction false} FlatHasNoAverage(p: Position, s: seq<Trade>)
    requires p.count == 0 ==> p.avg == 0
    requires forall i :: 0 <= i < |s| ==> s[i].count > 0
    ensures Run(p, s).count == 0 ==> Run(p, s).avg == 0
  {
    if s != [] {
      FlatHasNoAverage(p, s[..|s| - 1]);
    }
  }

  // ---- Runs of trades on one market ----------------------------------------------------

  function Run(p: Position, s: seq<Trade>): Position {
    if s == [] then p else Next(Run(p, s[..|s| - 1]), s[|s| - 1])
  }

  function RunCash(p: Position, s: seq<Trade>): int {
    if s == [] then 0 else RunCash(p, s[..|s| - 1]) + NetCash(Run(p, s[..|s| - 1]), s[|s| - 1])
  }

  function RunSlack(p: Position, s: seq<Trade>): nat {
    if s == [] then 0 else RunSlack(p, s[..|s| - 1]) + Averaged(Run(p, s[..|s| - 1]), s[|s| - 1])
  }

  lemma {:induction false} RunConserves(p: Position, s: seq<Trade>)
    ensures Abs(2 * (Equity(Run(p, s)) - Equity(p) - RunCash(p, s))) <= RunSlack(p, s)
  {
    if s != [] {
      RunConserves(p, s[..|s| - 1]);
      TradeConserves(Run(p, s[..|s| - 1]), s[|s| - 1]);
    }
  }

  // ---- The whole ledger ----------------------------------------------------------------

  ghost function CostMap(book: map<string, Position>): map<string, int> {
    map k | k in book :: book[k].Cost()
  }

  ghost function RealizedMap(book: map<string, Position>): map<string, int> {
    map k | k in book :: book[k].realized
  }

  /** Cost of everything held. */
  ghost function Exposure(book: map<string, Position>): int {
    Sum(CostMap(book))
  }

  /** Cumulative realized profit over all markets. */
  ghost function Realized(book: map<string, Position>): int {
    Sum(RealizedMap(book))
  }

  lemma BookUpdate(book: map<string, Position>, ticker: string, q: Position)
    ensures var p := if ticker in book then book[ticker] else NoPosition(q.side);
            && Exposure(book[ticker := q]) == Exposure(book) - p.Cost() + q.Cost()
            && Realized(book[ticker := q]) == Realized(book) - p.realized + q.realized
  {
    assert CostMap(book[ticker := q]) == CostMap(book)[ticker := q.Cost()];
    assert RealizedMap(book[ticker := q]) == RealizedMap(book)[ticker := q.realized];
    SumUpdate(CostMap(book), ticker, q.Cost());
    SumUpdate(RealizedMap(book), ticker, q.realized);
  }

  predicate Priced(s: seq<Fill>) {
    forall i :: 0 <= i < |s| ==> s[i].Price() != None
  }

  /** First-seen executions posted one after the other, with no check for repeats. */
  function PostAll(b: Books, s: seq<Fill>, rate: real): Books
    requires Priced(s)
  {
    if s == [] then b
    else Post(PostAll(b, s[..|s| - 1], rate), s[|s| - 1], s[|s| - 1].Price().value, rate)
  }

  function TradeAt(s: seq<Fill>, i: nat, rate: real): Trade
    requires i < |s| && Priced(s)
  {
    TradeOf(s[i], s[i].Price().value, rate)
  }

  /** What the market of the last execution looked like just before it. */
  function Before(b: Books, s: seq<Fill>, rate: real): Position
    requires s != [] && Priced(s)
  {
    PostAll(b, s[..|s| - 1], rate).At(s[|s| - 1].ticker, s[|s| - 1].side)
  }

  /** The price on the execution's own side, as the exchange quotes it. */
  function Quote(f: Fill): int {
    match f.side
    case Yes => f.yesPrice.GetOr(0)
    case No => f.noPrice.GetOr(0)
  }

  /** The fee of all its contracts at that price. */
  function Charge(f: Fill, rate: real): int {
    f.count * Fees.FeePerContract(Quote(f), f.isTaker, rate)
  }

  /** Cash paid for buys: a sum over the executions alone. */
  function Paid(s: seq<Fill>): int {
    if s == [] then 0
    else
      var f := s[|s| - 1];
      Paid(s[..|s| - 1]) + if f.action == Buy then f.count * Quote(f) else 0
  }

  /** Fees: a sum over the executions alone. */
  function FeesPaid(s: seq<Fill>, rate: real): int {
    if s == [] then 0 else FeesPaid(s[..|s| - 1], rate) + Charge(s[|s| - 1], rate)
  }

  predicate Opposed(p: Position, f: Fill) {
    f.action == Buy && p.count > 0 && p.side != f.side
  }

  function PairsClosed(b: Books, s: seq<Fill>, rate: real): nat
    requires Priced(s)
  {
    if s == [] then 0
    else
      var p, f := Before(b, s, rate), s[|s| - 1];
      PairsClosed(b, s[..|s| - 1], rate) + if Opposed(p, f) then Min(p.count, f.count) else 0
  }

  /** Proceeds of the contracts that sells really closed. */
  function Proceeds(b: Books, s: seq<Fill>, rate: real): int
    requires Priced(s)
  {
    if s == [] then 0
    else
      var p, f := Before(b, s, rate), s[|s| - 1];
      Proceeds(b, s[..|s| - 1], rate)
      + if f.action == Sell && p.count > 0 && p.side == f.side then Quote(f) * Min(p.count, f.count) else 0
  }

  /** Sum of the counts held after each averaging execution. */
  function Slack(b: Books, s: seq<Fill>, rate: real): nat
    requires Priced(s)
  {
    if s == [] then 0
    else
      var p, f := Before(b, s, rate), s[|s| - 1];
      Slack(b, s[..|s| - 1], rate) + if f.action == Buy && p.count > 0 && p.side == f.side then p.count + f.count else 0
  }

  /** What the ledger takes an execution for is what the exchange says of it. */
  lemma TradeIsFill(f: Fill, rate: real)
    requires f.Price() != None
    ensures TradeOf(f, f.Price().value, rate) == Trade(f.side, f.action, f.count, Quote(f), Charge(f, rate))
  {
    hide Fees.FeePerContract;
  }

  lemma TradeCash(p: Position, f: Fill, rate: real)
    requires f.Price() != None
    ensures var t := TradeOf(f, f.Price().value, rate);
            && NetCash(p, t) == DOLLAR * (if Opposed(p, f) then Min(p.count, f.count) else 0)
                 + (if f.action == Sell && p.count > 0 && p.side == f.side then Quote(f) * Min(p.count, f.count) else 0)
                 - (if f.action == Buy then f.count * Quote(f) else 0) - Charge(f, rate)
            && Averaged(p, t) == if f.action == Buy && p.count > 0 && p.side == f.side then p.count + f.count else 0
  {
    hide Fees.FeePerContract, Quote, Charge, TradeOf;
    TradeIsFill(f, rate);
    Commute(f.count, Quote(f));
  }

  lemma Commute(a: int, b: int)
    ensures a * b == b * a
  {
  }

  function RowFees(rows: seq<FillRow>): int {
    if rows == [] then 0 else RowFees(rows[..|rows| - 1]) + rows[|rows| - 1].fee
  }

  /** Every posted execution is on record as the exchange reported it: its own side's quote, and
      the fee of all its contracts. Earlier rows stay. */
  lemma {:induction false} RowsRecordFills(b: Books, s: seq<Fill>, rate: real)
    requires Priced(s)
    ensures var rows := PostAll(b, s, rate).rows;
            && |rows| == |b.rows| + |s| && rows[..|b.rows|] == b.rows
            && forall i :: 0 <= i < |s| ==>
                 rows[|b.rows| + i] == FillRow(s[i].orderId, s[i].ticker, s[i].side, s[i].count, Quote(s[i]), Charge(s[i], rate), s[i].isTaker, s[i].created)
  {
    hide Next, Quote, Charge, TradeOf;
    if s != [] {
      var n := |s| - 1;
      RowsRecordFills(b, s[..n], rate);
      TradeIsFill(s[n], rate);
    }
  }

  /** The fees of the stream are the fees on record. */
  lemma {:induction false} FeesOnRecord(b: Books, s: seq<Fill>, rate: real)
    requires Priced(s)
    ensures RowFees(PostAll(b, s, rate).rows) == RowFees(b.rows) + FeesPaid(s, rate)
    ensures |PostAll(b, s, rate).rows| == |b.rows| + |s|
  {
    hide Next, Charge, TradeOf;
    if s != [] {
      var init := s[..|s| - 1];
      FeesOnRecord(b, init, rate);
      TradeIsFill(s[|s| - 1], rate);
      var before, rows := PostAll(b, init, rate).rows, PostAll(b, s, rate).rows;
      assert rows[..|rows| - 1] == before;
    }
  }

  /** One posted execution, on the ledger's totals. */
  lemma PostConserves(b: Books, f: Fill, price: int, rate: real)
    ensures var e := Post(b, f, price, rate);
            var p, t := b.At(f.ticker, f.side), TradeOf(f, price, rate);
            var gained := (Realized(e.book) - Exposure(e.book)) - (Realized(b.book) - Exposure(b.book));
            Abs(2 * (gained - NetCash(p, t))) <= Averaged(p, t)
  {
    hide Next, NetCash, Averaged, Exposure, Realized;
    var p, t := b.At(f.ticker, f.side), TradeOf(f, price, rate);
    TradeConserves(p, t);
    BookUpdate(b.book, f.ticker, Next(p, t));
  }

  /** Over every stream of executions on every market, from any ledger: realized profit less
      exposure moves by one dollar per closed pair, plus sale proceeds, less cash and fees
      paid, up to half a tick per unit of slack. */
  lemma {:induction false} LedgerConserves(b: Books, s: seq<Fill>, rate: real)
    requires Priced(s)
    ensures var e := PostAll(b, s, rate);
            var gained := (Realized(e.book) - Exposure(e.book)) - (Realized(b.book) - Exposure(b.book));
            var cash := DOLLAR * PairsClosed(b, s, rate) + Proceeds(b, s, rate) - Paid(s) - FeesPaid(s, rate);
            Abs(2 * (gained - cash)) <= Slack(b, s, rate)
  {
    hide Post, TradeOf, NetCash, Averaged, Exposure, Realized, Quote, Charge;
    if s != [] {
      LedgerConserves(b, s[..|s| - 1], rate);
      TradeCash(Before(b, s, rate), s[|s| - 1], rate);
      PostConserves(PostAll(b, s[..|s| - 1], rate), s[|s| - 1], s[|s| - 1].Price().value, rate);
    }
  }
}
