/** What a run of trades leaves in one market: how many contracts, at what average price,
    and what difference it makes that an order was filled in pieces. */
module PositionRuns {
  import opened Ticks
  import opened Positions
  import opened Conservation
  import Fees

  predicate BuysOnly(s: seq<Trade>) {
    forall i :: 0 <= i < |s| ==> s[i].action == Buy
  }

  // ---- Markets do not interfere --------------------------------------------------------

  function TradesOn(s: seq<Fill>, ticker: string, rate: real): seq<Trade>
    requires Priced(s)
  {
    if s == [] then []
    else
      var front := TradesOn(s[..|s| - 1], ticker, rate);
      if s[|s| - 1].ticker == ticker then front + [TradeAt(s, |s| - 1, rate)] else front
  }

  /** The position a market starts from: its row, or a flat one made by its first execution. */
  function Start(b: Books, trades: seq<Trade>, ticker: string): Position
    requires trades != []
  {
    b.At(ticker, trades[0].side)
  }

  /** A market's row is the run of its own executions; untouched markets keep theirs. */
  lemma {:induction false} MarketIsItsOwnRun(b: Books, s: seq<Fill>, ticker: string, rate: real)
    requires Priced(s)
    ensures var own := TradesOn(s, ticker, rate);
            var e := PostAll(b, s, rate);
            if own == [] then
              (ticker in e.book <==> ticker in b.book) && (ticker in b.book ==> e.book[ticker] == b.book[ticker])
            else
              ticker in e.book && e.book[ticker] == Run(Start(b, own, ticker), own)
  {
    hide Next;
    if s != [] {
      var init := s[..|s| - 1];
      MarketIsItsOwnRun(b, init, ticker, rate);
      if s[|s| - 1].ticker == ticker {
        var own := TradesOn(s, ticker, rate);
        assert own[..|own| - 1] == TradesOn(init, ticker, rate);
      }
    }
  }

  // ---- Net count -----------------------------------------------------------------------

  function SignedCount(side: Side, count: nat): int {
    var c: int := count;
    if side == Yes then c else -c
  }

  function Signed(p: Position): int {
    SignedCount(p.side, p.count)
  }

  function Net(s: seq<Trade>): int {
    if s == [] then 0 else Net(s[..|s| - 1]) + SignedCount(s[|s| - 1].side, s[|s| - 1].count)
  }

  /** Pairing, averaging and flipping amount to adding signed counts. */
  lemma {:induction false} NetCount(p: Position, s: seq<Trade>)
    requires BuysOnly(s)
    ensures Signed(Run(p, s)) == Signed(p) + Net(s)
  {
    if s != [] {
      NetCount(p, s[..|s| - 1]);
    }
  }

  lemma {:induction false} NetWithout(s: seq<Trade>, i: nat)
    requires i < |s|
    ensures Net(s) == Net(s[..i] + s[i + 1..]) + SignedCount(s[i].side, s[i].count)
  {
    if i == |s| - 1 {
      assert s[..i] + s[i + 1..] == s[..i];
    } else {
      var init := s[..|s| - 1];
      NetWithout(init, i);
      var without := s[..i] + s[i + 1..];
      assert without[..|without| - 1] == init[..i] + init[i + 1..];
    }
  }

  lemma {:induction false} NetPermuted(s: seq<Trade>, t: seq<Trade>)
    requires multiset(s) == multiset(t)
    ensures Net(s) == Net(t)
    decreases |s|
  {
    if s == [] {
      assert |t| == |multiset(t)| == 0;
    } else {
      var last := s[|s| - 1];
      assert last in multiset(t);
      var i :| 0 <= i < |t| && t[i] == last;
      var rest := t[..i] + t[i + 1..];
      assert s == s[..|s| - 1] + [last];
      assert t == t[..i] + [last] + t[i + 1..];
      assert multiset(s[..|s| - 1]) == multiset(s) - multiset{last};
      assert multiset(rest) == multiset(t) - multiset{last};
      NetPermuted(s[..|s| - 1], rest);
      NetWithout(t, i);
    }
  }

  /** The number and side of contracts held do not depend on the order of the buys. */
  lemma NetCountIgnoresOrder(p: Position, s: seq<Trade>, t: seq<Trade>)
    requires BuysOnly(s) && multiset(s) == multiset(t)
    ensures Signed(Run(p, s)) == Signed(Run(p, t))
  {
    forall i | 0 <= i < |t|
      ensures t[i].action == Buy
    {
      assert t[i] in multiset(s);
    }
    NetCount(p, s);
    NetCount(p, t);
    NetPermuted(s, t);
  }

  // ---- The average price ---------------------------------------------------------------

  /** Does this trade open the position anew, from flat or by flipping it? */
  predicate Opens(p: Position, t: Trade) {
    t.action == Buy && (p.count == 0 || (p.side != t.side && p.count < t.count))
  }

  /** Index of the trade that opened the present position. */
  function OpenedAt(p: Position, s: seq<Trade>): nat {
    if s == [] then 0
    else if Opens(Run(p, s[..|s| - 1]), s[|s| - 1]) then |s| - 1
    else OpenedAt(p, s[..|s| - 1])
  }

  /** OpenedAt is what its name says: since that trade the position has been held on its
      present side without a break, and before it there was none on that side. */
  lemma {:induction false} OpenedAtIsLatest(p: Position, s: seq<Trade>)
    requires p.count == 0 && Run(p, s).count > 0
    ensures OpenedAt(p, s) < |s|
    ensures forall k :: OpenedAt(p, s) < k <= |s| ==> Run(p, s[..k]).count > 0 && Run(p, s[..k]).side == Run(p, s).side
    ensures var q := Run(p, s[..OpenedAt(p, s)]); q.count == 0 || q.side != Run(p, s).side
  {
    assert s[..|s|] == s;
    var init := s[..|s| - 1];
    var q := Run(p, init);
    if !Opens(q, s[|s| - 1]) {
      assert q.count > 0;
      OpenedAtIsLatest(p, init);
      forall k | OpenedAt(p, s) < k <= |s|
        ensures Run(p, s[..k]).count > 0 && Run(p, s[..k]).side == Run(p, s).side
      {
        if k < |s| { assert s[..k] == init[..k]; }
      }
      assert s[..OpenedAt(p, s)] == init[..OpenedAt(p, s)];
    }
  }

  ghost predicate IsHullPoint(p: Position, s: seq<Trade>, i: nat) {
    OpenedAt(p, s) <= i < |s| && s[i].action == Buy && s[i].side == Run(p, s).side
  }

  lemma AveragingStaysInHull(q: Position, t: Trade, lo: int, hi: int)
    requires t.action == Buy && q.count > 0 && t.side == q.side
    requires lo <= q.avg <= hi
    ensures Min(lo, t.price) <= Next(q, t).avg <= Max(hi, t.price)
    ensures Next(q, t).side == q.side
  {
    var bottom, top, total := Min(lo, t.price), Max(hi, t.price), q.count + t.count;
    Spread(bottom, q.avg, q.count, t.price, t.count);
    Spread(-top, -q.avg, q.count, -t.price, t.count);
    HalfEvenInHull(q.Cost() + t.price * t.count, total, bottom, top);
  }

  /** A weighted sum of two numbers is at least the weight times a lower bound of both. */
  lemma Spread(bottom: int, x: int, m: nat, y: int, n: nat)
    requires bottom <= x && bottom <= y
    ensures bottom * (m + n) <= x * m + y * n
  {
    ScaleMonotone(bottom, x, m);
    ScaleMonotone(bottom, y, n);
  }

  lemma OpeningKeepsPrice(q: Position, t: Trade)
    ensures Opens(q, t) && Next(q, t).count > 0 ==> Next(q, t).avg == t.price && Next(q, t).side == t.side
    ensures !Opens(q, t) && Next(q, t).count > 0 ==> q.count > 0
  {
  }

  /** A trade that neither opens nor averages leaves a surviving position's average alone. */
  lemma RestKeepsAverage(q: Position, t: Trade)
    requires !Opens(q, t) && Next(q, t).count > 0
    requires t.action == Sell || t.side != q.side
    ensures Next(q, t).avg == q.avg && Next(q, t).side == q.side
  {
  }

  /** However often it was re-rounded, the stored average lies between the prices of two buys
      made on the present side since the position was opened. */
  lemma {:induction false} AverageInHull(p: Position, s: seq<Trade>) returns (lo: nat, hi: nat)
    requires p.count == 0 && Run(p, s).count > 0
    ensures IsHullPoint(p, s, lo) && IsHullPoint(p, s, hi)
    ensures s[lo].price <= Run(p, s).avg <= s[hi].price
  {
    hide Next;
    var n := |s| - 1;
    var init, t := s[..n], s[n];
    var q := Run(p, init);
    OpeningKeepsPrice(q, t);
    if Opens(q, t) {
      return n, n;
    }
    lo, hi := AverageInHull(p, init);
    assert init[lo] == s[lo] && init[hi] == s[hi];
    if t.action == Buy && t.side == q.side {
      AveragingStaysInHull(q, t, s[lo].price, s[hi].price);
      if t.price < s[lo].price { lo := n; }
      if t.price > s[hi].price { hi := n; }
    } else {
      RestKeepsAverage(q, t);
    }
  }

  // ---- Partial fills -------------------------------------------------------------------

  /** A buy of `count` contracts at one price. */
  function Buying(side: Side, count: nat, price: int, isTaker: bool, rate: real): Trade {
    Trade(side, Buy, count, price, Fees.TotalFee(count, price, isTaker, rate))
  }

  function Whole(pieces: seq<nat>): nat {
    if pieces == [] then 0 else Whole(pieces[..|pieces| - 1]) + pieces[|pieces| - 1]
  }

  function InPieces(side: Side, pieces: seq<nat>, price: int, isTaker: bool, rate: real): (s: seq<Trade>)
    ensures |s| == |pieces|
  {
    if pieces == [] then []
    else InPieces(side, pieces[..|pieces| - 1], price, isTaker, rate) + [Buying(side, pieces[|pieces| - 1], price, isTaker, rate)]
  }

  lemma TwoOpening(p: Position, side: Side, a: nat, b: nat, price: int, isTaker: bool, rate: real)
    requires a > 0 && p.count == 0
    ensures Next(Next(p, Buying(side, a, price, isTaker, rate)), Buying(side, b, price, isTaker, rate)) ==
            Next(p, Buying(side, a + b, price, isTaker, rate))
  {
    Fees.FeeLinear(a, b, price, isTaker, rate);
    Times(price, a + b, b);
    HalfEvenExact(price, a + b);
  }

  lemma TwoAgainst(p: Position, side: Side, a: nat, b: nat, price: int, isTaker: bool, rate: real)
    requires b > 0 && p.count > 0 && p.side != side
    ensures Next(Next(p, Buying(side, a, price, isTaker, rate)), Buying(side, b, price, isTaker, rate)) ==
            Next(p, Buying(side, a + b, price, isTaker, rate))
  {
    Fees.FeeLinear(a, b, price, isTaker, rate);
    var gain, paired := DOLLAR - p.avg - price, Min(p.count, a);
    Times(gain, Min(p.count, a + b), paired);
    if a > p.count {
      Times(price, a - paired + b, b);
      HalfEvenExact(price, a - paired + b);
    }
  }

  lemma TwoAdding(p: Position, side: Side, a: nat, b: nat, price: int, isTaker: bool, rate: real)
    requires p.count > 0 && p.side == side
    ensures var inTwo := Next(Next(p, Buying(side, a, price, isTaker, rate)), Buying(side, b, price, isTaker, rate));
            inTwo == Next(p, Buying(side, a + b, price, isTaker, rate)).(avg := inTwo.avg)
  {
    Fees.FeeLinear(a, b, price, isTaker, rate);
  }

  /** A buy onto its own side does not look at the stored average to move the rest. */
  lemma AveragingIgnoresAverage(p: Position, q: Position, t: Trade)
    requires q == p.(avg := q.avg) && p.count > 0 && p.side == t.side && t.action == Buy
    ensures Next(q, t) == Next(p, t).(avg := Next(q, t).avg)
    ensures Next(p, t).side == t.side && Next(p, t).count > 0
  {
  }

  /** Side, count and realized profit do not depend on how a buy was split, and neither does
      the average when the buy started flat or against the position. */
  lemma {:induction false} SplitAgrees(p: Position, side: Side, pieces: seq<nat>, price: int, isTaker: bool, rate: real)
    requires pieces != [] && forall i :: 0 <= i < |pieces| ==> pieces[i] > 0
    ensures Whole(pieces) > 0
    ensures var split := Run(p, InPieces(side, pieces, price, isTaker, rate));
            var whole := Next(p, Buying(side, Whole(pieces), price, isTaker, rate));
            && split == whole.(avg := split.avg)
            && (p.count == 0 || p.side != side ==> split == whole)
  {
    hide Next, Fees.TotalFee;
    var init, last := pieces[..|pieces| - 1], pieces[|pieces| - 1];
    var s := InPieces(side, pieces, price, isTaker, rate);
    assert s[..|s| - 1] == InPieces(side, init, price, isTaker, rate);
    if init != [] {
      SplitAgrees(p, side, init, price, isTaker, rate);
      if p.count == 0 {
        TwoOpening(p, side, Whole(init), last, price, isTaker, rate);
      } else if p.side != side {
        TwoAgainst(p, side, Whole(init), last, price, isTaker, rate);
      } else {
        TwoAdding(p, side, Whole(init), last, price, isTaker, rate);
        var first := Buying(side, Whole(init), price, isTaker, rate);
        AveragingIgnoresAverage(p, p, first);
        AveragingIgnoresAverage(Next(p, first), Run(p, s[..|s| - 1]), Buying(side, last, price, isTaker, rate));
      }
    } else {
      assert Run(p, []) == p && Whole([]) == 0;
    }
  }

  lemma OnePieceMore(p: Position, q: Position, side: Side, done: nat, last: nat, price: int, isTaker: bool, rate: real)
    requires q.count == p.count + done && q.count > 0 && q.side == side
    ensures var t := Buying(side, last, price, isTaker, rate);
            && Next(q, t).side == side
            && Next(q, t).count == p.count + done + last
            && NetCash(q, t) == -price * last - Fees.TotalFee(last, price, isTaker, rate)
            && Averaged(q, t) == p.count + done + last
  {
  }

  /** Cash of a buy in pieces onto a position of the same side. */
  lemma {:induction false} SplitCash(p: Position, side: Side, pieces: seq<nat>, price: int, isTaker: bool, rate: real)
    requires p.count > 0 && p.side == side
    ensures var s := InPieces(side, pieces, price, isTaker, rate);
            && Run(p, s).side == side
            && Run(p, s).count == p.count + Whole(pieces)
            && RunCash(p, s) == -price * Whole(pieces) - Fees.TotalFee(Whole(pieces), price, isTaker, rate)
  {
    hide Next, NetCash, Averaged, Fees.TotalFee;
    if pieces != [] {
      var init, last := pieces[..|pieces| - 1], pieces[|pieces| - 1];
      var s := InPieces(side, pieces, price, isTaker, rate);
      assert s[..|s| - 1] == InPieces(side, init, price, isTaker, rate);
      SplitCash(p, side, init, price, isTaker, rate);
      OnePieceMore(p, Run(p, s[..|s| - 1]), side, Whole(init), last, price, isTaker, rate);
      Fees.FeeLinear(Whole(init), last, price, isTaker, rate);
      Times(price, Whole(pieces), last);
    } else {
      Fees.FeeLinear(0, 0, price, isTaker, rate);
    }
  }

  /** Each of the k pieces leaves at most the final count. */
  lemma {:induction false} SplitSlack(p: Position, side: Side, pieces: seq<nat>, price: int, isTaker: bool, rate: real)
    requires p.count > 0 && p.side == side
    ensures RunSlack(p, InPieces(side, pieces, price, isTaker, rate)) <= |pieces| * (p.count + Whole(pieces))
  {
    hide Next, NetCash, Averaged, Fees.TotalFee;
    if pieces != [] {
      var init, last := pieces[..|pieces| - 1], pieces[|pieces| - 1];
      var s := InPieces(side, pieces, price, isTaker, rate);
      assert s[..|s| - 1] == InPieces(side, init, price, isTaker, rate);
      SplitCash(p, side, init, price, isTaker, rate);
      SplitSlack(p, side, init, price, isTaker, rate);
      OnePieceMore(p, Run(p, s[..|s| - 1]), side, Whole(init), last, price, isTaker, rate);
      SlackGrows(|init|, p.count + Whole(init), p.count + Whole(pieces));
    }
  }

  lemma SlackGrows(k: nat, less: nat, more: nat)
    requires less <= more
    ensures k * less + more <= (k + 1) * more
  {
    ScaleMonotone(less, more, k);
  }

  /** Averaging in k pieces instead of one moves the stored average by at most (k + 1) / 2
      ticks: one tick for a fill in two parts. */
  lemma SplitAverageDrift(p: Position, side: Side, pieces: seq<nat>, price: int, isTaker: bool, rate: real)
    requires p.count > 0 && p.side == side
    requires pieces != [] && forall i :: 0 <= i < |pieces| ==> pieces[i] > 0
    ensures var split := Run(p, InPieces(side, pieces, price, isTaker, rate));
            var whole := Next(p, Buying(side, Whole(pieces), price, isTaker, rate));
            2 * Abs(split.avg - whole.avg) <= |pieces| + 1
  {
    hide Next, Fees.TotalFee;
    var s := InPieces(side, pieces, price, isTaker, rate);
    var one := Buying(side, Whole(pieces), price, isTaker, rate);
    SplitAgrees(p, side, pieces, price, isTaker, rate);
    SplitCash(p, side, pieces, price, isTaker, rate);
    SplitSlack(p, side, pieces, price, isTaker, rate);
    RunConserves(p, s);
    TradeConserves(p, one);
    BuyingAverages(p, one);
    hide Abs;
    assert RunCash(p, s) == NetCash(p, one);
    assert Run(p, s).realized == Next(p, one).realized && Run(p, s).count == Next(p, one).count;
    CloseAverages(Run(p, s).avg, Next(p, one).avg, p.count + Whole(pieces), |pieces|,
                  RunSlack(p, s), Next(p, one).realized - Equity(p) - RunCash(p, s));
  }

  lemma BuyingAverages(p: Position, t: Trade)
    requires t.action == Buy && p.count > 0 && p.side == t.side
    ensures NetCash(p, t) == -t.price * t.count - t.fee
    ensures Averaged(p, t) == p.count + t.count == Next(p, t).count
    ensures Next(p, t).realized == p.realized - t.fee
  {
  }

  /** Two averages of c contracts whose costs both lie near one target, one within k * c half
      ticks and one within c, are at most (k + 1) / 2 ticks apart. */
  lemma CloseAverages(x: int, y: int, c: int, k: nat, slack: nat, target: int)
    requires c > 0 && slack <= k * c
    requires Abs(2 * (target - x * c)) <= slack
    requires Abs(2 * (target - y * c)) <= c
    ensures 2 * Abs(x - y) <= k + 1
  {
    assert (k + 1) * c == k * c + c;
    Cancel(x, y, k + 1, c);
  }

  lemma Cancel(x: int, y: int, k: int, c: int)
    requires c > 0 && 2 * Abs(x * c - y * c) <= k * c
    ensures 2 * Abs(x - y) <= k
  {
    var d := Abs(x - y);
    assert x * c - y * c == (x - y) * c;
    assert Abs((x - y) * c) == d * c;
    if 2 * d > k {
      ScaleMonotone(k + 1, 2 * d, c);
    }
  }
}
