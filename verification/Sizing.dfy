/** What an approval of the risk gate is worth, and how it moves with its inputs. */
module Sizing {
  import opened Ticks
  import opened Conservation
  import opened RiskMonitor
  import Fees

  // ---- Arithmetic of the reals ---------------------------------------------------------

  lemma ProductMonotone(a: real, b: real, c: real, d: real)
    requires 0.0 <= a <= b && 0.0 <= c <= d
    ensures 0.0 <= a * c <= b * d
  {
    assert a * c <= b * c;
    assert b * c <= b * d;
  }

  lemma PositiveFactor(a: real, b: real)
    requires a > 0.0 && a * b > 0.0
    ensures b > 0.0
  {
  }

  lemma QuotientMonotone(x: real, y: real, m: real, n: real)
    requires 0.0 <= x <= y && 0.0 < n <= m
    ensures 0.0 <= x / m <= y / n
  {
    var a, b := x / m, y / n;
    assert a * m == x && b * n == y;
    assert a * n <= a * m;
    CancelFactor(a, b, n);
  }

  lemma CancelFactor(a: real, b: real, n: real)
    requires n > 0.0 && a * n <= b * n
    ensures a <= b
  {
  }

  lemma TruncateMonotone(x: real, y: real)
    requires x <= y
    ensures Truncate(x) <= Truncate(y)
  {
  }

  lemma AffordableCost(size: real, price: int)
    requires price > 0 && Affordable(size, price) > 0
    ensures size > 0.0
    ensures forall n: int :: n <= Affordable(size, price) ==> (price * n) as real <= size
  {
    var q := size / price as real;
    assert q * price as real == size;
    forall n: int | n <= Affordable(size, price)
      ensures (price * n) as real <= size
    {
      assert n as real <= q;
      assert n as real * price as real <= q * price as real;
      assert (price * n) as real == n as real * price as real;
    }
    assert q >= 1.0;
    assert q * price as real >= price as real;
  }

  // ---- Caps of an approved trade -------------------------------------------------------

  lemma ContractsWithin(cfg: Config, used: int, total: int, stake: real, bankroll: real, price: int)
    requires price > 0 && stake > 0.0
    requires Contracts(cfg, used, total, stake, bankroll, price) > 0
    ensures var cost := (price * Contracts(cfg, used, total, stake, bankroll, price)) as real;
            && cost <= Portion(stake, bankroll)
            && cost <= cfg.maxPerMarket - used as real
            && cost <= cfg.maxTotal - total as real
    ensures bankroll > 0.0
  {
    var size := RealMin(RealMin(Portion(stake, bankroll), cfg.maxPerMarket - used as real), cfg.maxTotal - total as real);
    AffordableCost(size, price);
    PositiveFactor(stake, bankroll);
  }

  /** An approved opening trade stays inside the order limit, the Kelly stake, the share of
      the bankroll, and what its market and the account have left. */
  lemma ApprovedWithinCaps(cfg: Config, view: View, req: Request)
    requires Evaluate(cfg, view, req).Approved? && !IsClosingBuy(view.book, req)
    ensures var d := Evaluate(cfg, view, req);
            var cost := (req.price * d.contracts) as real;
            && 0 < req.price < DOLLAR
            && 1 <= d.contracts <= cfg.perOrderMax
            && cost <= cfg.maxKellyPct * req.bankroll
            && cost <= KellyShare(cfg, Kelly(req.SideProbability(), req.price), req.confidence) * req.bankroll
            && cost <= cfg.maxPerMarket - CostOn(view.book, req.ticker) as real
            && cost <= cfg.maxTotal - Exposure(view.book) as real
  {
    hide Exposure, Kelly, KellyShare, Contracts, Portion, Fees.TotalFee, EdgeAfterFees, EdgeTooSmall;
    var p, used, total := req.SideProbability(), CostOn(view.book, req.ticker), Exposure(view.book);
    var stake := Stake(cfg, p, req.price, req.confidence);
    assert Evaluate(cfg, view, req) == Sized(cfg, used, total, p, req.price, req.confidence, req.bankroll);
    ContractsWithin(cfg, used, total, stake, req.bankroll, req.price);
    ScaleBankroll(stake, cfg.maxKellyPct, req.bankroll);
    ScaleBankroll(stake, KellyShare(cfg, Kelly(p, req.price), req.confidence), req.bankroll);
  }

  lemma ScaleBankroll(a: real, b: real, bankroll: real)
    requires a <= b && bankroll > 0.0
    ensures Portion(a, bankroll) <= b * bankroll
  {
  }

  /** n contracts cost no more than any of the five limits on an opening trade. */
  predicate Fits(cfg: Config, used: int, total: int, p: real, price: int, confidence: real, bankroll: real, n: int)
    requires 0 < price < DOLLAR
  {
    var cost := (price * n) as real;
    && n <= cfg.perOrderMax
    && cost <= KellyShare(cfg, Kelly(p, price), confidence) * bankroll
    && cost <= cfg.maxKellyPct * bankroll
    && cost <= cfg.maxPerMarket - used as real
    && cost <= cfg.maxTotal - total as real
  }

  lemma AffordableIsGreatest(size: real, price: int, n: int)
    requires price > 0 && n >= 1
    ensures n <= Affordable(size, price) <==> (price * n) as real <= size
  {
    var q := size / price as real;
    assert q * price as real == size;
    assert (price * n) as real == n as real * price as real;
    if (price * n) as real <= size {
      CancelFactor(n as real, q, price as real);
    }
    if n <= Affordable(size, price) {
      AffordableCost(size, price);
    }
  }

  lemma SmallerShare(a: real, b: real, bankroll: real)
    requires bankroll >= 0.0
    ensures Portion(RealMin(a, b), bankroll) == RealMin(a * bankroll, b * bankroll)
  {
    if a <= b { assert a * bankroll <= b * bankroll; } else { assert b * bankroll <= a * bankroll; }
  }

  lemma ContractsFit(cfg: Config, used: int, total: int, p: real, price: int, confidence: real, bankroll: real, n: int)
    requires 0 < price < DOLLAR && bankroll >= 0.0 && n >= 1
    ensures n <= Contracts(cfg, used, total, Stake(cfg, p, price, confidence), bankroll, price)
            <==> Fits(cfg, used, total, p, price, confidence, bankroll, n)
  {
    hide Kelly, KellyShare, Affordable;
    SmallerShare(KellyShare(cfg, Kelly(p, price), confidence), cfg.maxKellyPct, bankroll);
    var size := RealMin(RealMin(Portion(Stake(cfg, p, price, confidence), bankroll), cfg.maxPerMarket - used as real), cfg.maxTotal - total as real);
    AffordableIsGreatest(size, price, n);
  }

  lemma StakePositiveIff(cfg: Config, p: real, price: int, confidence: real)
    requires cfg.Valid() && 0 < price < DOLLAR && p > Probability(price)
    ensures Stake(cfg, p, price, confidence) > 0.0 <==> confidence > 0.0
  {
    KellyMonotone(p, p, price);
    var k := Kelly(p, price) * cfg.kellyFraction;
    ProductPositive(Kelly(p, price), cfg.kellyFraction);
    if confidence > 0.0 {
      ProductPositive(k, confidence);
    } else {
      assert k * confidence <= 0.0;
    }
  }

  lemma ProductPositive(a: real, b: real)
    requires a > 0.0 && b > 0.0
    ensures a * b > 0.0
  {
  }

  /** The clamps, the minimums and the truncation amount to this: an opening trade is sized
      exactly when there is an edge, some confidence, and one contract fits every limit, and
      then with the greatest number of contracts that fits every limit. */
  lemma SizeIsGreatestFit(cfg: Config, used: int, total: int, p: real, price: int, confidence: real, bankroll: real)
    requires cfg.Valid() && 0 < price < DOLLAR && bankroll >= 0.0
    ensures var d := Sized(cfg, used, total, p, price, confidence, bankroll);
            && (d.Approved? <==> p > Probability(price) && confidence > 0.0 && Fits(cfg, used, total, p, price, confidence, bankroll, 1))
            && (d.Approved? ==> forall n :: n >= 1 ==> (Fits(cfg, used, total, p, price, confidence, bankroll, n) <==> n <= d.contracts))
  {
    hide Kelly, Stake, Contracts, Fees.TotalFee, EdgeAfterFees, Portion;
    if p > Probability(price) {
      StakePositiveIff(cfg, p, price, confidence);
      forall n | n >= 1
        ensures n <= Contracts(cfg, used, total, Stake(cfg, p, price, confidence), bankroll, price)
                <==> Fits(cfg, used, total, p, price, confidence, bankroll, n)
      {
        ContractsFit(cfg, used, total, p, price, confidence, bankroll, n);
      }
      assert (price * 1) as real > 0.0;
    }
  }

  // ---- The edge floor ------------------------------------------------------------------

  /** Edge per ticks staked, in basis points: no count appears. */
  function EdgeBps(cfg: Config, p: real, price: int): real
    requires price > 0
  {
    UnitEdge(cfg, p, price) * 10000.0 / price as real * 10000.0
  }

  lemma EdgeIsLinear(cfg: Config, n: int, p: real, price: int)
    ensures EdgeAfterFees(cfg, n, p, price) == UnitEdge(cfg, p, price) * 10000.0 * n as real
  {
    var P := Probability(price);
    var fee := Fees.FeePerContract(price, cfg.assumeTaker, cfg.takerRate);
    assert p * (1.0 - P) - (1.0 - p) * P == p - P;
    assert (fee * n) as real == fee as real * n as real;
    Distribute(p - P, fee as real / 10000.0, n as real);
  }

  lemma Distribute(a: real, b: real, n: real)
    ensures (a - b) * 10000.0 * n == a * n * 10000.0 - b * 10000.0 * n
  {
    assert (a - b) * (10000.0 * n) == a * (10000.0 * n) - b * (10000.0 * n);
  }

  lemma CancelCount(e: real, price: int, n: int)
    requires price > 0 && n > 0
    ensures (e * n as real) / (price * n) as real == e / price as real
  {
    var q := e / price as real;
    assert q * price as real == e;
    assert (price * n) as real == price as real * n as real;
    assert q * (price * n) as real == e * n as real;
  }

  /** Whether a trade clears the edge floor does not depend on how many contracts it has. */
  lemma EdgeFloorIgnoresCount(cfg: Config, n: int, p: real, price: int)
    requires price > 0 && n > 0
    ensures EdgeTooSmall(cfg, EdgeAfterFees(cfg, n, p, price), n, price) <==> EdgeBps(cfg, p, price) < cfg.minEdgeBps as real
  {
    EdgeIsLinear(cfg, n, p, price);
    CancelCount(UnitEdge(cfg, p, price) * 10000.0, price, n);
  }

  /** An approved opening trade expects at least the configured edge on every tick staked. */
  lemma ApprovedPaysFloor(cfg: Config, view: View, req: Request)
    requires Evaluate(cfg, view, req).Approved? && !IsClosingBuy(view.book, req)
    ensures var d := Evaluate(cfg, view, req);
            cfg.minEdgeBps as real * (req.price * d.contracts) as real <= d.edge * 10000.0
  {
    hide Exposure, Stake, Contracts, Fees.TotalFee, EdgeAfterFees;
    var d := Evaluate(cfg, view, req);
    var cost := req.price * d.contracts;
    assert !EdgeTooSmall(cfg, d.edge, d.contracts, req.price);
    var q := d.edge / cost as real;
    assert q * cost as real == d.edge;
    ScaleFloor(cfg.minEdgeBps as real, q * 10000.0, cost as real);
  }

  lemma ScaleFloor(a: real, b: real, c: real)
    requires a <= b && c > 0.0
    ensures a * c <= b * c
  {
  }

  lemma EdgeBpsMonotone(cfg: Config, p: real, p': real, price: int)
    requires price > 0 && p <= p'
    ensures EdgeBps(cfg, p, price) <= EdgeBps(cfg, p', price)
  {
    var u, v := UnitEdge(cfg, p, price) * 10000.0, UnitEdge(cfg, p', price) * 10000.0;
    assert u <= v;
    var a, b := u / price as real, v / price as real;
    assert a * price as real == u && b * price as real == v;
    CancelFactor(a, b, price as real);
  }

  // ---- Monotonicity --------------------------------------------------------------------

  lemma KellyMonotone(p: real, p': real, price: int)
    requires 0 < price < DOLLAR && Probability(price) < p <= p'
    ensures 0.0 < Kelly(p, price) <= Kelly(p', price)
  {
    var d := 1.0 - Probability(price);
    assert d > 0.0;
    QuotientMonotone(p - Probability(price), p' - Probability(price), d, d);
    assert Kelly(p, price) * d == p - Probability(price);
  }

  /** Buying the same side dearer never raises the Kelly fraction. */
  lemma KellyAntitone(p: real, low: int, high: int)
    requires 0 < low <= high < DOLLAR && Probability(high) < p <= 1.0
    ensures 0.0 < Kelly(p, high) <= Kelly(p, low)
  {
    var x, y := 1.0 - Probability(high), 1.0 - Probability(low);
    assert 0.0 < x <= y;
    var rest := 1.0 - p;
    // (p - P) / (1 - P) is 1 - (1 - p) / (1 - P)
    QuotientMonotone(rest, rest, y, x);
    KellyAsRest(p, high);
    KellyAsRest(p, low);
    assert Kelly(p, high) * x == p - Probability(high);
  }

  lemma KellyAsRest(p: real, price: int)
    requires 0 < price < DOLLAR
    ensures Kelly(p, price) == 1.0 - (1.0 - p) / (1.0 - Probability(price))
  {
    var d := 1.0 - Probability(price);
    var q, k := (1.0 - p) / d, (p - Probability(price)) / d;
    assert q * d == 1.0 - p && k * d == p - Probability(price);
    assert (1.0 - q) * d == d - q * d;
    CancelFactor(1.0 - q, k, d);
    CancelFactor(k, 1.0 - q, d);
  }

  lemma ShareMonotone(cfg: Config, k: real, k': real, c: real, c': real)
    requires cfg.Valid() && 0.0 < k <= k' && c <= c' && KellyShare(cfg, k, c) > 0.0
    ensures KellyShare(cfg, k, c) <= KellyShare(cfg, k', c')
  {
    var f := cfg.kellyFraction;
    ProductMonotone(k, k', f, f);
    assert k * f > 0.0;
    PositiveFactor(k * f, c);
    ProductMonotone(k * f, k' * f, c, c');
  }

  lemma StakeMonotone(cfg: Config, p: real, price: int, c: real, p': real, price': int, c': real)
    requires cfg.Valid() && price != DOLLAR && price' != DOLLAR
    requires 0.0 < Kelly(p, price) <= Kelly(p', price') && c <= c'
    requires Stake(cfg, p, price, c) > 0.0
    ensures Stake(cfg, p, price, c) <= Stake(cfg, p', price', c')
  {
    hide Kelly, KellyShare;
    ShareMonotone(cfg, Kelly(p, price), Kelly(p', price'), c, c');
  }

  lemma ContractsMonotone(cfg: Config, used: int, total: int, stake: real, stake': real, bankroll: real, bankroll': real, low: int, high: int)
    requires 0 < low <= high && 0.0 < stake <= stake' && bankroll <= bankroll'
    requires Contracts(cfg, used, total, stake, bankroll, high) > 0
    ensures Contracts(cfg, used, total, stake, bankroll, high) <= Contracts(cfg, used, total, stake', bankroll', low)
  {
    ContractsWithin(cfg, used, total, stake, bankroll, high);
    ProductMonotone(stake, stake', bankroll, bankroll');
    var room := RealMin(cfg.maxPerMarket - used as real, cfg.maxTotal - total as real);
    var size := RealMin(RealMin(Portion(stake, bankroll), cfg.maxPerMarket - used as real), cfg.maxTotal - total as real);
    var size' := RealMin(RealMin(Portion(stake', bankroll'), cfg.maxPerMarket - used as real), cfg.maxTotal - total as real);
    AffordableCost(size, high);
    QuotientMonotone(size, size', high as real, low as real);
    TruncateMonotone(size / high as real, size' / low as real);
  }

  /** At least as likely, as confident and as well funded, otherwise the same. */
  predicate AtLeastAsGood(req: Request, better: Request) {
    && better == req.(probability := better.probability, confidence := better.confidence, bankroll := better.bankroll)
    && req.SideProbability() <= better.SideProbability()
    && req.confidence <= better.confidence
    && req.bankroll <= better.bankroll
  }

  lemma SizedMonotone(cfg: Config, used: int, total: int, p: real, p': real, price: int, c: real, c': real, b: real, b': real)
    requires cfg.Valid() && 0 < price < DOLLAR && p <= p' && c <= c' && b <= b'
    requires Sized(cfg, used, total, p, price, c, b).Approved?
    ensures var d, d' := Sized(cfg, used, total, p, price, c, b), Sized(cfg, used, total, p', price, c', b');
            d'.Approved? && d.contracts <= d'.contracts
  {
    hide Kelly, Stake, Fees.TotalFee, EdgeAfterFees, Contracts;
    KellyMonotone(p, p', price);
    StakeMonotone(cfg, p, price, c, p', price, c');
    ContractsMonotone(cfg, used, total, Stake(cfg, p, price, c), Stake(cfg, p', price, c'), b, b', price, price);
  }

  /** Raising the side's probability, the confidence or the bankroll keeps an approved trade
      approved, with at least as many contracts. */
  lemma ApprovalMonotone(cfg: Config, view: View, req: Request, better: Request)
    requires cfg.Valid() && AtLeastAsGood(req, better)
    requires Evaluate(cfg, view, req).Approved?
    ensures var d, d' := Evaluate(cfg, view, req), Evaluate(cfg, view, better);
            d'.Approved? && d.contracts <= d'.contracts
  {
    hide Exposure, Fees.TotalFee, EdgeAfterFees, EdgeTooSmall, EdgeBps, Stake, Contracts;
    if !IsClosingBuy(view.book, req) {
      var used, total, p, p' := CostOn(view.book, req.ticker), Exposure(view.book), req.SideProbability(), better.SideProbability();
      var d := Sized(cfg, used, total, p, req.price, req.confidence, req.bankroll);
      var d' := Sized(cfg, used, total, p', req.price, better.confidence, better.bankroll);
      SizedMonotone(cfg, used, total, p, p', req.price, req.confidence, better.confidence, req.bankroll, better.bankroll);
      EdgeFloorIgnoresCount(cfg, d.contracts, p, req.price);
      EdgeFloorIgnoresCount(cfg, d'.contracts, p', req.price);
      EdgeBpsMonotone(cfg, p, p', req.price);
    }
  }

  /** Contracts before the edge floor; none when a guard refuses. */
  function SizedCount(d: Decision): int {
    match d
    case Approved(n, _, _) => n
    case Rejected(_) => 0
  }

  /** A dearer contract never gets a larger order, before the edge floor. */
  lemma SizeAntitoneInPrice(cfg: Config, used: int, total: int, p: real, low: int, high: int, confidence: real, bankroll: real)
    requires cfg.Valid() && 0 < low <= high < DOLLAR && p <= 1.0
    ensures SizedCount(Sized(cfg, used, total, p, high, confidence, bankroll)) <= SizedCount(Sized(cfg, used, total, p, low, confidence, bankroll))
  {
    hide Kelly, Stake, Fees.TotalFee, EdgeAfterFees, Contracts;
    if Sized(cfg, used, total, p, high, confidence, bankroll).Approved? {
      KellyAntitone(p, low, high);
      StakeMonotone(cfg, p, high, confidence, p, low, confidence);
      ContractsMonotone(cfg, used, total, Stake(cfg, p, high, confidence), Stake(cfg, p, low, confidence), bankroll, bankroll, low, high);
    }
  }
}
