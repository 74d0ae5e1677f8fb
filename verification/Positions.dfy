/** The position ledger: executions of the account, folded into one row per market. */
module Positions {
  import opened Wrappers
  import opened Ticks
  import Fees

  datatype Side = Yes | No
  datatype Action = Buy | Sell

  /** An execution as the exchange reports it. Prices are in ticks, `created` is in
      microseconds; a price the exchange left out is None. */
  datatype Fill = Fill(
    orderId: string, ticker: string, side: Side, action: Action, count: nat,
    yesPrice: Option<int>, noPrice: Option<int>, isTaker: bool, created: nat)
  {
    function Price(): Option<int> {
      if side == Yes then yesPrice else noPrice
    }

    /** The four columns by which an execution is recognised. */
    function Identity(): Key {
      Key(orderId, ticker, created, count)
    }
  }

  datatype Key = Key(orderId: string, ticker: string, created: nat, count: nat)

  /** A persisted execution. */
  datatype FillRow = FillRow(
    orderId: string, ticker: string, side: Side, count: nat, price: int, fee: int,
    isTaker: bool, created: nat)
  {
    function Identity(): Key {
      Key(orderId, ticker, created, count)
    }
  }

  /** One market's holding: average cost and cumulative realized profit, both in ticks. */
  datatype Position = Position(side: Side, count: nat, avg: int, realized: int) {
    function Cost(): int {
      avg * count
    }
  }

  /** What an execution does to its market, once its price and fee are known. */
  datatype Trade = Trade(side: Side, action: Action, count: nat, price: int, fee: int)

  function NoPosition(side: Side): Position {
    Position(side, 0, 0, 0)
  }

  /** The position after a trade, its fee not yet charged. */
  function Filled(p: Position, t: Trade): Position {
    if t.action == Buy then
      if p.count == 0 then
        Position(t.side, t.count, t.price, p.realized)
      else if p.side == t.side then
        var total := p.count + t.count;
        Position(p.side, total, DivHalfEven(p.Cost() + t.price * t.count, total), p.realized)
      else
        var pairs := Min(p.count, t.count);
        var gain := (DOLLAR - p.avg - t.price) * pairs;
        if pairs < p.count then
          Position(p.side, p.count - pairs, p.avg, p.realized + gain)
        else if pairs < t.count then
          Position(t.side, t.count - pairs, t.price, p.realized + gain)
        else
          Position(p.side, 0, 0, p.realized + gain)
    else if p.side != t.side || p.count == 0 then
      p
    else
      var closed := Min(p.count, t.count);
      var rest := p.count - closed;
      Position(p.side, rest, if rest == 0 then 0 else p.avg, p.realized + (t.price - p.avg) * closed)
  }

  function Next(p: Position, t: Trade): Position {
    var q := Filled(p, t);
    q.(realized := q.realized - t.fee)
  }

  /** The ledger's two tables. */
  datatype Books = Books(rows: seq<FillRow>, book: map<string, Position>) {
    ghost function Keys(): set<Key> {
      set r | r in rows :: r.Identity()
    }

    function At(ticker: string, side: Side): Position {
      if ticker in book then book[ticker] else NoPosition(side)
    }
  }

  function TradeOf(f: Fill, price: int, rate: real): Trade {
    Trade(f.side, f.action, f.count, price, Fees.TotalFee(f.count, price, f.isTaker, rate))
  }

  function RowOf(f: Fill, t: Trade): FillRow {
    FillRow(f.orderId, f.ticker, f.side, f.count, t.price, t.fee, f.isTaker, f.created)
  }

  /** A first-seen execution with a price: one row is added and one position moves. */
  function Post(b: Books, f: Fill, price: int, rate: real): Books {
    var t := TradeOf(f, price, rate);
    Books(b.rows + [RowOf(f, t)], b.book[f.ticker := Next(b.At(f.ticker, f.side), t)])
  }

  /** What one call reports: a repeated execution, a missing price (the program raises),
      or the signed change of realized profit. */
  datatype Outcome = Duplicate | MissingPrice | Applied(delta: int)

  ghost function Apply(b: Books, f: Fill, rate: real): (Books, Outcome) {
    if f.Identity() in b.Keys() then (b, Duplicate)
    else match f.Price()
      case None => (b, MissingPrice)
      case Some(price) =>
        var b' := Post(b, f, price, rate);
        (b', Applied(b'.book[f.ticker].realized - b.At(f.ticker, f.side).realized))
  }

  class Ledger {
    const rate: real
    var rows: seq<FillRow>
    var book: map<string, Position>

    constructor (rate: real)
      ensures this.rate == rate && Contents() == Books([], map[])
    {
      this.rate := rate;
      rows, book := [], map[];
    }

    ghost function Contents(): Books
      reads this
    {
      Books(rows, book)
    }

    /** Is there a stored execution with this identity? */
    method Known(key: Key) returns (found: bool)
      ensures found <==> key in Contents().Keys()
    {
      found := false;
      var i := 0;
      while i < |rows| && !found
        invariant 0 <= i <= |rows|
        invariant found <==> exists j :: 0 <= j < i && rows[j].Identity() == key
      {
        found := rows[i].Identity() == key;
        i := i + 1;
      }
    }

    method ApplyFill(f: Fill) returns (outcome: Outcome)
      modifies this`rows, this`book
      ensures (Contents(), outcome) == Apply(old(Contents()), f, rate)
    {
      var seen := Known(f.Identity());
      if seen {
        return Duplicate;
      }
      var quote := f.Price();
      if quote == None {
        return MissingPrice;
      }
      var price := quote.value;
      var fee := Fees.TotalFee(f.count, price, f.isTaker, rate);
      rows := rows + [FillRow(f.orderId, f.ticker, f.side, f.count, price, fee, f.isTaker, f.created)];
      if f.ticker !in book {
        book := book[f.ticker := NoPosition(f.side)];
      }
      var pos := book[f.ticker];
      ghost var before := pos;
      ghost var trade := TradeOf(f, price, rate);
      var realized := 0;
      var n := f.count;
      if f.action == Buy {
        if pos.count == 0 {
          pos := pos.(side := f.side, count := n, avg := price);
        } else if pos.side == f.side {
          var newTotal := pos.avg * pos.count + price * n;
          var newCount := pos.count + n;
          pos := pos.(avg := DivHalfEven(newTotal, newCount));
          pos := pos.(count := newCount);
        } else {
          var pairCount := Min(pos.count, n);
          realized := realized + (DOLLAR - pos.avg - price) * pairCount;
          pos := pos.(count := pos.count - pairCount);
          var remainder := n - pairCount;
          if pos.count == 0 {
            pos := pos.(avg := 0);
            if remainder > 0 {
              pos := pos.(side := f.side, count := remainder, avg := price);
            }
          }
        }
      } else if pos.side == f.side && pos.count != 0 {
        var closing := Min(pos.count, n);
        realized := realized + (price - pos.avg) * closing;
        pos := pos.(count := pos.count - closing);
        if pos.count == 0 {
          pos := pos.(avg := 0);
        }
      }
      realized := realized - fee;
      pos := pos.(realized := pos.realized + realized);
      assert pos == Next(before, trade);
      book := book[f.ticker := pos];
      assert book == old(book)[f.ticker := pos];
      return Applied(realized);
    }
  }
}
