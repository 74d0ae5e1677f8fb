/** Reconciliation: the exchange's positions overwrite the local mirror, and every market
    whose side, count or presence differed is reported. */
module Reconciliation {
  import opened Wrappers
  import opened Ticks
  import opened Positions
  import opened Conservation
  import opened PositionRuns
  import opened Dedup
  import opened Totals

  /** A signed position: positive for YES, negative for NO. */
  datatype Remote = Remote(ticker: string, position: int, realized: Option<int>)
  {
    function Side(): Side {
      if position >= 0 then Yes else No
    }
  }

  datatype Discrepancy =
    | MissingLocal(ticker: string, count: nat)
    | Mismatch(ticker: string, localSide: Side, localCount: nat, side: Side, count: nat)
    | MissingRemote(ticker: string, localSide: Side, localCount: nat)

  /** The exchange's word on a market: the last entry of its list. */
  function Reported(remote: seq<Remote>, ticker: string): Option<Remote> {
    if remote == [] then None
    else if remote[|remote| - 1].ticker == ticker then Some(remote[|remote| - 1])
    else Reported(remote[..|remote| - 1], ticker)
  }

  function Row(book: map<string, Position>, ticker: string): Option<Position> {
    if ticker in book then Some(book[ticker]) else None
  }

  /** A row after the pass. Its average price is never touched. */
  function Mirrored(row: Option<Position>, r: Option<Remote>): Option<Position> {
    match (row, r)
    case (None, None) => None
    case (Some(p), None) => Some(p.(count := 0))
    case (None, Some(m)) => Some(Position(m.Side(), Abs(m.position), 0, m.realized.GetOr(0)))
    case (Some(p), Some(m)) =>
      if p.count != Abs(m.position) || p.side != m.Side() then
        Some(p.(side := m.Side(), count := Abs(m.position), realized := m.realized.GetOr(p.realized)))
      else Some(p)
  }

  function Flag(ticker: string, row: Option<Position>, r: Option<Remote>): Option<Discrepancy> {
    match (row, r)
    case (None, None) => None
    case (Some(p), None) => if p.count != 0 then Some(MissingRemote(ticker, p.side, p.count)) else None
    case (None, Some(m)) => Some(MissingLocal(ticker, Abs(m.position)))
    case (Some(p), Some(m)) =>
      if p.count != Abs(m.position) || p.side != m.Side() then
        Some(Mismatch(ticker, p.side, p.count, m.Side(), Abs(m.position)))
      else None
  }

  method IndexRemote(remote: seq<Remote>) returns (index: map<string, Remote>)
    ensures forall t :: t in index <==> Reported(remote, t) != None
    ensures forall t :: t in index ==> Some(index[t]) == Reported(remote, t)
  {
    index := map[];
    for i := 0 to |remote|
      invariant forall t :: t in index <==> Reported(remote[..i], t) != None
      invariant forall t :: t in index ==> Some(index[t]) == Reported(remote[..i], t)
    {
      assert remote[..i + 1][..i] == remote[..i];
      index := index[remote[i].ticker := remote[i]];
    }
    assert remote[..|remote|] == remote;
  }

  /** The report names exactly the markets of `done` whose rows differed, each once. */
  ghost predicate Reports(found: seq<Discrepancy>, done: set<string>, book: map<string, Position>, index: map<string, Remote>) {
    && (forall t :: t in done ==> Flag(t, Row(book, t), Entry(index, t)) != None ==> Flag(t, Row(book, t), Entry(index, t)).value in found)
    && (forall d :: d in found ==> d.ticker in done && Flag(d.ticker, Row(book, d.ticker), Entry(index, d.ticker)) == Some(d))
    && (forall i, j :: 0 <= i < j < |found| ==> found[i].ticker != found[j].ticker)
  }

  function Entry(index: map<string, Remote>, t: string): Option<Remote> {
    if t in index then Some(index[t]) else None
  }

  /** Rows in `done` have been mirrored, the others are as they were. */
  ghost predicate MirroredOn(done: set<string>, was: map<string, Position>, now: map<string, Position>, index: map<string, Remote>) {
    forall t :: Row(now, t) == if t in done then Mirrored(Row(was, t), Entry(index, t)) else Row(was, t)
  }

  method MirrorMarket(ledger: Ledger, t: string, r: Option<Remote>) returns (found: Option<Discrepancy>)
    requires t in ledger.book || r != None
    modifies ledger`book
    ensures Row(ledger.book, t) == Mirrored(old(Row(ledger.book, t)), r)
    ensures forall u :: u != t ==> Row(ledger.book, u) == old(Row(ledger.book, u))
    ensures found == Flag(t, old(Row(ledger.book, t)), r)
  {
    found := None;
    match r {
      case Some(m) =>
        var side, count := if m.position == 0 then Yes else if m.position > 0 then Yes else No, Abs(m.position);
        if t !in ledger.book {
          ledger.book := ledger.book[t := Position(side, count, 0, m.realized.GetOr(0))];
          found := Some(MissingLocal(t, count));
        } else {
          var p := ledger.book[t];
          if p.count != count || p.side != side {
            found := Some(Mismatch(t, p.side, p.count, side, count));
            p := p.(side := side, count := count);
            if m.realized != None {
              p := p.(realized := m.realized.value);
            }
            ledger.book := ledger.book[t := p];
          }
        }
      case None =>
        var p := ledger.book[t];
        if p.count != 0 {
          found := Some(MissingRemote(t, p.side, p.count));
          ledger.book := ledger.book[t := p.(count := 0)];
        }
    }
  }

  lemma OneMoreMarket(done: set<string>, t: string, was: map<string, Position>, now: map<string, Position>, after: map<string, Position>,
                      index: map<string, Remote>, found: seq<Discrepancy>, flag: Option<Discrepancy>)
    requires MirroredOn(done, was, now, index) && Reports(found, done, was, index) && t !in done
    requires Row(after, t) == Mirrored(Row(now, t), Entry(index, t)) && flag == Flag(t, Row(now, t), Entry(index, t))
    requires forall u :: u != t ==> Row(after, u) == Row(now, u)
    ensures MirroredOn(done + {t}, was, after, index)
    ensures Reports(if flag == None then found else found + [flag.value], done + {t}, was, index)
  {
    hide Mirrored;
    var longer := if flag == None then found else found + [flag.value];
    assert Row(now, t) == Row(was, t);
    FlagNamesMarket(t, Row(was, t), Entry(index, t));
    hide Flag, Row;
    forall u | u in done + {t} && Flag(u, Row(was, u), Entry(index, u)) != None
      ensures Flag(u, Row(was, u), Entry(index, u)).value in longer
    {
      if u != t {
        assert Flag(u, Row(was, u), Entry(index, u)).value in found;
      }
    }
  }

  lemma NotYetMirrored(done: set<string>, t: string, was: map<string, Position>, now: map<string, Position>, index: map<string, Remote>)
    requires MirroredOn(done, was, now, index) && t !in done
    ensures Row(now, t) == Row(was, t) && (t in now <==> t in was)
  {
    hide Mirrored;
    assert Row(now, t) == Row(was, t);
  }

  lemma FlagNamesMarket(t: string, row: Option<Position>, r: Option<Remote>)
    ensures Flag(t, row, r) != None ==> Flag(t, row, r).value.ticker == t
  {
  }

  method MirrorOne(ledger: Ledger, t: string, index: map<string, Remote>, ghost done: set<string>,
                   ghost was: map<string, Position>, found: seq<Discrepancy>) returns (report: seq<Discrepancy>)
    requires MirroredOn(done, was, ledger.book, index) && Reports(found, done, was, index)
    requires t !in done && (t in index || t in was)
    modifies ledger`book
    ensures MirroredOn(done + {t}, was, ledger.book, index)
    ensures Reports(report, done + {t}, was, index)
  {
    hide Mirrored, Flag, Reports, MirroredOn;
    ghost var now := ledger.book;
    NotYetMirrored(done, t, was, now, index);
    var flag := MirrorMarket(ledger, t, Entry(index, t));
    OneMoreMarket(done, t, was, now, ledger.book, index, found, flag);
    report := if flag == None then found else found + [flag.value];
  }

  /** Visits the given markets in some order. */
  method MirrorEach(ledger: Ledger, markets: set<string>, index: map<string, Remote>, ghost done: set<string>,
                    ghost was: map<string, Position>, found: seq<Discrepancy>) returns (report: seq<Discrepancy>)
    requires MirroredOn(done, was, ledger.book, index) && Reports(found, done, was, index)
    requires markets !! done && forall t :: t in markets ==> t in index || t in was
    modifies ledger`book
    ensures MirroredOn(done + markets, was, ledger.book, index)
    ensures Reports(report, done + markets, was, index)
  {
    hide Mirrored, Flag, Reports, MirroredOn;
    report := found;
    var left := markets;
    assert done + (markets - left) == done;
    while left != {}
      invariant left <= markets
      invariant MirroredOn(done + (markets - left), was, ledger.book, index)
      invariant Reports(report, done + (markets - left), was, index)
      decreases |left|
    {
      var t :| t in left;
      ghost var sofar := done + (markets - left);
      report := MirrorOne(ledger, t, index, sofar, was, report);
      left := left - {t};
      assert done + (markets - left) == sofar + {t};
    }
    assert done + (markets - left) == done + markets;
  }

  /** `_reconcile_inner`: None when the exchange could not be read, and then nothing changes. */
  method Reconcile(ledger: Ledger, answer: Option<seq<Remote>>) returns (report: Option<seq<Discrepancy>>)
    modifies ledger`book
    ensures report == None <==> answer == None
    ensures answer == None ==> ledger.book == old(ledger.book)
    ensures answer != None ==> Passed(old(ledger.book), answer.value, ledger.book, report.value)
  {
    if answer == None {
      return None;
    }
    var remote := answer.value;
    ghost var was := ledger.book;
    var local := ledger.book;
    var index := IndexRemote(remote);
    var found := MirrorEach(ledger, index.Keys, index, {}, was, []);
    found := MirrorEach(ledger, local.Keys - index.Keys, index, index.Keys, was, found);
    PassCovers(was, remote, index, ledger.book, found);
    return Some(found);
  }

  /** What a successful pass does: every market mirrored, and the report exact. */
  ghost predicate Passed(was: map<string, Position>, remote: seq<Remote>, now: map<string, Position>, report: seq<Discrepancy>) {
    && (forall t :: Row(now, t) == Mirrored(Row(was, t), Reported(remote, t)))
    && (forall t :: Flag(t, Row(was, t), Reported(remote, t)) != None ==> Flag(t, Row(was, t), Reported(remote, t)).value in report)
    && (forall d :: d in report ==> Flag(d.ticker, Row(was, d.ticker), Reported(remote, d.ticker)) == Some(d))
    && (forall i, j :: 0 <= i < j < |report| ==> report[i].ticker != report[j].ticker)
  }

  lemma PassCovers(was: map<string, Position>, remote: seq<Remote>, index: map<string, Remote>, now: map<string, Position>, found: seq<Discrepancy>)
    requires forall t :: t in index <==> Reported(remote, t) != None
    requires forall t :: t in index ==> Some(index[t]) == Reported(remote, t)
    requires var all := index.Keys + (was.Keys - index.Keys); MirroredOn(all, was, now, index) && Reports(found, all, was, index)
    ensures Passed(was, remote, now, found)
  {
    var all := index.Keys + (was.Keys - index.Keys);
    forall t
      ensures Entry(index, t) == Reported(remote, t)
      ensures t !in all ==> Row(was, t) == None && Reported(remote, t) == None
    {
    }
  }

  // ---- What a pass achieves ------------------------------------------------------------

  /** The exchange's signed position; zero when it names none. */
  function RemoteSigned(remote: seq<Remote>, ticker: string): int {
    match Reported(remote, ticker)
    case None => 0
    case Some(m) => m.position
  }

  function LocalSigned(book: map<string, Position>, ticker: string): int {
    if ticker in book then Signed(book[ticker]) else 0
  }

  lemma MirroredIsSigned(row: Option<Position>, r: Option<Remote>)
    ensures (match Mirrored(row, r) case None => 0 case Some(p) => Signed(p)) == (match r case None => 0 case Some(m) => m.position)
  {
  }

  /** Afterwards every market's local signed position is the exchange's. */
  lemma PassMirrors(was: map<string, Position>, remote: seq<Remote>, now: map<string, Position>, report: seq<Discrepancy>, ticker: string)
    requires Passed(was, remote, now, report)
    ensures LocalSigned(now, ticker) == RemoteSigned(remote, ticker)
  {
    MirroredIsSigned(Row(was, ticker), Reported(remote, ticker));
    assert Row(now, ticker) == Mirrored(Row(was, ticker), Reported(remote, ticker));
  }

  /** A pass rewrites sides and counts but no average: kept rows keep theirs, and a row it
      inserts has none, so it carries no exposure however many contracts it shows. */
  lemma PassKeepsAverages(was: map<string, Position>, remote: seq<Remote>, now: map<string, Position>, report: seq<Discrepancy>, ticker: string)
    requires Passed(was, remote, now, report) && ticker in now
    ensures if ticker in was then now[ticker].avg == was[ticker].avg else now[ticker].Cost() == 0
  {
    assert Row(now, ticker) == Mirrored(Row(was, ticker), Reported(remote, ticker));
  }

  lemma MirrorTwice(t: string, row: Option<Position>, r: Option<Remote>)
    ensures Mirrored(Mirrored(row, r), r) == Mirrored(row, r)
    ensures Flag(t, Mirrored(row, r), r) == None
    ensures Flag(t, row, r) == None <==> Mirrored(row, r) == row
  {
  }

  lemma BooksEqual(a: map<string, Position>, b: map<string, Position>)
    requires forall t :: Row(a, t) == Row(b, t)
    ensures a == b
  {
    forall t
      ensures t in a <==> t in b
      ensures t in a ==> a[t] == b[t]
    {
      assert Row(a, t) == Row(b, t);
    }
  }

  /** A pass reports nothing exactly when it leaves the whole table as it was. */
  lemma CleanIffUnchanged(was: map<string, Position>, remote: seq<Remote>, now: map<string, Position>, report: seq<Discrepancy>)
    requires Passed(was, remote, now, report)
    ensures report == [] <==> now == was
  {
    forall t
      ensures Flag(t, Row(was, t), Reported(remote, t)) == None <==> Row(now, t) == Row(was, t)
    {
      MirrorTwice(t, Row(was, t), Reported(remote, t));
      assert Row(now, t) == Mirrored(Row(was, t), Reported(remote, t));
    }
    if report == [] {
      forall t
        ensures Row(now, t) == Row(was, t)
      {
      }
      BooksEqual(now, was);
    } else {
      assert report[0] in report;
    }
  }

  /** A second pass against the same answer changes nothing and reports nothing. */
  lemma PassIsIdempotent(was: map<string, Position>, remote: seq<Remote>, now: map<string, Position>, first: seq<Discrepancy>,
                         again: map<string, Position>, second: seq<Discrepancy>)
    requires Passed(was, remote, now, first) && Passed(now, remote, again, second)
    ensures again == now && second == []
  {
    forall t
      ensures Row(again, t) == Row(now, t)
    {
      MirrorTwice(t, Row(was, t), Reported(remote, t));
      assert Row(now, t) == Mirrored(Row(was, t), Reported(remote, t));
    }
    BooksEqual(again, now);
    CleanIffUnchanged(now, remote, again, second);
  }

  // ---- Realized profit -----------------------------------------------------------------

  /** The local row shows the position the exchange does, side included. */
  predicate Agrees(p: Position, m: Remote) {
    p.count == Abs(m.position) && (p.side == Yes <==> m.position >= 0)
  }

  /** What a pass leaves of a row. One the exchange does not list keeps all but its count. A
      listed one shows the exchange's position at its own average, and takes the quoted
      realized profit if there is a quote and the position differed. A new one takes the
      quote, or zero. */
  lemma PassRow(was: map<string, Position>, remote: seq<Remote>, now: map<string, Position>, report: seq<Discrepancy>, t: string)
    requires Passed(was, remote, now, report)
    ensures t in now <==> t in was || Reported(remote, t) != None
    ensures t in was && Reported(remote, t) == None ==> now[t] == Position(was[t].side, 0, was[t].avg, was[t].realized)
    ensures t in was && Reported(remote, t) != None ==>
              var m := Reported(remote, t).value;
              && Agrees(now[t], m) && now[t].avg == was[t].avg
              && now[t].realized == if Agrees(was[t], m) || m.realized == None then was[t].realized else m.realized.value
    ensures t !in was && Reported(remote, t) != None ==>
              var m := Reported(remote, t).value;
              Agrees(now[t], m) && now[t].avg == 0 && now[t].realized == if m.realized == None then 0 else m.realized.value
  {
    assert Row(now, t) == Mirrored(Row(was, t), Reported(remote, t));
  }

  /** How far the exchange's quotes move a market's realized profit. */
  function Restated(was: map<string, Position>, remote: seq<Remote>, t: string): int {
    match Reported(remote, t)
    case None => 0
    case Some(m) =>
      if m.realized == None then 0
      else if t !in was then m.realized.value
      else if Agrees(was[t], m) then 0
      else m.realized.value - was[t].realized
  }

  /** A pass moves the account's realized profit by the sum of these. */
  lemma PassMovesRealized(was: map<string, Position>, remote: seq<Remote>, now: map<string, Position>, report: seq<Discrepancy>)
    requires Passed(was, remote, now, report)
    ensures Realized(now) == Realized(was) + Sum(map t | t in now :: Restated(was, remote, t))
  {
    hide Passed, Agrees;
    var moves := map t | t in now :: Restated(was, remote, t);
    forall t
      ensures t in was ==> t in now
      ensures t in now ==> now[t].realized == moves[t] + if t in was then was[t].realized else 0
    {
      PassRow(was, remote, now, report, t);
    }
    SumMoved(RealizedMap(was), RealizedMap(now), moves);
  }

  /** What a report says: which side is missing, and the positions of both. */
  lemma ReportTells(was: map<string, Position>, remote: seq<Remote>, now: map<string, Position>, report: seq<Discrepancy>, d: Discrepancy)
    requires Passed(was, remote, now, report) && d in report
    ensures d.MissingLocal? ==> d.ticker !in was && Reported(remote, d.ticker) != None && d.count == Abs(RemoteSigned(remote, d.ticker))
    ensures d.Mismatch? ==>
              && d.ticker in was && Reported(remote, d.ticker) != None
              && SignedCount(d.localSide, d.localCount) == LocalSigned(was, d.ticker) && d.localSide == was[d.ticker].side
              && SignedCount(d.side, d.count) == RemoteSigned(remote, d.ticker) && (d.side == Yes <==> RemoteSigned(remote, d.ticker) >= 0)
    ensures d.MissingRemote? ==>
              && d.ticker in was && Reported(remote, d.ticker) == None
              && SignedCount(d.localSide, d.localCount) == LocalSigned(was, d.ticker) != 0
  {
    var t := d.ticker;
    assert Flag(t, Row(was, t), Reported(remote, t)) == Some(d);
  }

  /** The exchange's word on a market is the last entry for it. */
  lemma {:induction false} ReportedIsLast(remote: seq<Remote>, t: string, i: nat)
    requires i < |remote| && remote[i].ticker == t && forall j :: i < j < |remote| ==> remote[j].ticker != t
    ensures Reported(remote, t) == Some(remote[i])
  {
    if i < |remote| - 1 { ReportedIsLast(remote[..|remote| - 1], t, i); }
  }

  // ---- What a pass reports, and what it does to exposure -------------------------------

  function SignedRow(row: Option<Position>): int {
    match row
    case None => 0
    case Some(p) => Signed(p)
  }

  /** A market is reported if and only if the signed positions differ, or both are flat and the
      exchange still lists a market that has no row or a flat row on the NO side. */
  lemma ReportedIff(t: string, row: Option<Position>, r: Option<Remote>)
    ensures var far := match r case None => 0 case Some(m) => m.position;
            Flag(t, row, r) != None <==>
            SignedRow(row) != far || (far == 0 && r != None && (row == None || row.value.side == No))
  {
  }

  /** How far a pass moves each row's cost: its average times the change of its count. */
  function Shift(was: map<string, Position>, remote: seq<Remote>): map<string, int> {
    map t | t in was :: was[t].avg * (Abs(RemoteSigned(remote, t)) - was[t].count)
  }

  /** A pass moves total exposure by the sum of these; inserted rows add nothing. */
  lemma PassMovesExposure(was: map<string, Position>, remote: seq<Remote>, now: map<string, Position>, report: seq<Discrepancy>)
    requires Passed(was, remote, now, report)
    ensures Exposure(now) == Exposure(was) + Sum(Shift(was, remote))
  {
    hide Signed, Passed;
    forall t
      ensures t in was ==> t in now && CostMap(now)[t] == CostMap(was)[t] + Shift(was, remote)[t]
      ensures t in now && t !in was ==> CostMap(now)[t] == 0
    {
      RowMoves(was, remote, now, report, t);
    }
    SumShifted(CostMap(was), CostMap(now), Shift(was, remote));
  }

  lemma RowMoves(was: map<string, Position>, remote: seq<Remote>, now: map<string, Position>, report: seq<Discrepancy>, t: string)
    requires Passed(was, remote, now, report)
    ensures t in was ==> t in now && now[t].Cost() == was[t].Cost() + was[t].avg * (Abs(RemoteSigned(remote, t)) - was[t].count)
    ensures t in now && t !in was ==> now[t].Cost() == 0
  {
    assert Row(now, t) == Mirrored(Row(was, t), Reported(remote, t));
    if t in was {
      Times(was[t].avg, Abs(RemoteSigned(remote, t)), was[t].count);
    }
  }

  ghost predicate StaysUnder(was: map<string, Position>, now: map<string, Position>, cap: int) {
    Exposure(was) <= cap ==> Exposure(now) <= cap
  }

  /** A pass keeps every cap on exposure if and only if those moves sum to nothing above zero:
      for instance when the exchange shows no market larger than the ledger does. */
  lemma PassKeepsCapsIff(was: map<string, Position>, remote: seq<Remote>, now: map<string, Position>, report: seq<Discrepancy>)
    requires Passed(was, remote, now, report)
    ensures (forall cap: int :: StaysUnder(was, now, cap)) <==> Sum(Shift(was, remote)) <= 0
    ensures (forall t :: t in was ==> was[t].avg >= 0 && Abs(RemoteSigned(remote, t)) <= was[t].count) ==>
              forall cap: int :: StaysUnder(was, now, cap)
  {
    hide Exposure, Passed;
    PassMovesExposure(was, remote, now, report);
    assert StaysUnder(was, now, Exposure(was)) <==> Sum(Shift(was, remote)) <= 0;
    if forall t :: t in was ==> was[t].avg >= 0 && Abs(RemoteSigned(remote, t)) <= was[t].count {
      forall t | t in was
        ensures Shift(was, remote)[t] <= 0
      {
        ProductNonNegative(was[t].avg, was[t].count - Abs(RemoteSigned(remote, t)));
        Times(was[t].avg, Abs(RemoteSigned(remote, t)), was[t].count);
        Times(was[t].avg, was[t].count, Abs(RemoteSigned(remote, t)));
      }
      SumNotPositive(Shift(was, remote));
    }
  }

  // ---- Reconciling, then catching up ---------------------------------------------------

  /** The scheduled job reconciles and then ingests. Executions not yet stored are posted on
      top of a position that may already contain them, so a market ends at the exchange's
      position plus the net of what was new: at the exchange's position exactly when the new
      executions net to nothing. */
  lemma CatchUpAddsToMirror(b: Books, remote: seq<Remote>, s: seq<Fill>, ticker: string, rate: real)
    requires LocalSigned(b.book, ticker) == RemoteSigned(remote, ticker)
    requires BuysOnly(TradesOn(Distinct(b.Keys(), s), ticker, rate))
    ensures var newTrades := TradesOn(Distinct(b.Keys(), s), ticker, rate);
            var after := LocalSigned(ApplyAll(b, s, rate).book, ticker);
            && after == RemoteSigned(remote, ticker) + Net(newTrades)
            && (after == RemoteSigned(remote, ticker) <==> Net(newTrades) == 0)
  {
    hide Run, ApplyAll, PostAll, Distinct, TradesOn;
    var posted := Distinct(b.Keys(), s);
    var own := TradesOn(posted, ticker, rate);
    AppliesEachOnce(b, s, rate);
    MarketIsItsOwnRun(b, posted, ticker, rate);
    if own != [] {
      NetCount(Start(b, own, ticker), own);
    }
  }

  /** The double count is real: ten contracts the exchange already shows, mirrored and then
      ingested from their execution, are held twice. */
  lemma DoubleCount()
    ensures var f := Fill("o", "M", Yes, Buy, 10, Some(5000), None, true, 1);
            var mirror := Books([], map["M" := Position(Yes, 10, 0, 0)]);
            LocalSigned(mirror.book, "M") == 10 && LocalSigned(ApplyAll(mirror, [f], 0.0).book, "M") == 20
  {
    var f := Fill("o", "M", Yes, Buy, 10, Some(5000), None, true, 1);
    var mirror := Books([], map["M" := Position(Yes, 10, 0, 0)]);
    assert mirror.Keys() == {};
    assert ApplyAll(mirror, [], 0.0) == mirror;
    assert [f][..0] == [];
  }
}
