/** Period profit: the ledger keeps only a running total per market, and a day's figure is
    that total less the latest snapshot at or before the day. */
module Pnl {
  import opened Positions
  import opened Conservation
  import opened Totals
  import opened Wrappers
  import Fees

  /** A snapshot: the running total, and the fees and number of the day's executions. */
  datatype Daily = Daily(realized: int, fees: int, trades: nat)

  /** Snapshots by local day; days are ordered integers. */
  type Days = map<int, Daily>

  ghost predicate IsLatestDay(days: Days, cutoff: int, d: int) {
    d in days && d <= cutoff && forall e :: e in days && e <= cutoff ==> e <= d
  }

  /** `b` is the snapshot of the latest day not after the cutoff, or zero if there is none. */
  ghost predicate IsBaseline(days: Days, cutoff: int, b: int) {
    if exists d :: d in days && d <= cutoff
    then exists d :: IsLatestDay(days, cutoff, d) && b == days[d].realized
    else b == 0
  }

  lemma HasDay(days: Days)
    requires days != map[]
    ensures exists d :: d in days
  {
    if forall d :: d !in days {
      assert false;
    }
  }

  /** The realized profit of the latest snapshot at or before the cutoff. */
  ghost function Baseline(days: Days, cutoff: int): (b: int)
    ensures IsBaseline(days, cutoff, b)
  {
    if d :| d in days && d <= cutoff then
      HasLatest(days, cutoff, d);
      var d :| IsLatestDay(days, cutoff, d);
      days[d].realized
    else 0
  }

  /** What is reported for the period since the cutoff. */
  ghost function Since(days: Days, cutoff: int, book: map<string, Position>): int {
    Realized(book) - Baseline(days, cutoff)
  }

  lemma {:induction false} HasLatest(days: Days, cutoff: int, d: int)
    requires d in days && d <= cutoff
    ensures exists e :: IsLatestDay(days, cutoff, e)
    decreases cutoff - d
  {
    if e :| e in days && d < e <= cutoff {
      HasLatest(days, cutoff, e);
    } else {
      assert IsLatestDay(days, cutoff, d);
    }
  }

  // ---- A day's fees and executions -----------------------------------------------------

  predicate IsWithin(r: FillRow, from: int, to: int) {
    from <= r.created < to
  }

  function FeesWithin(rows: seq<FillRow>, from: int, to: int): int {
    if rows == [] then 0
    else FeesWithin(rows[..|rows| - 1], from, to) + if IsWithin(rows[|rows| - 1], from, to) then rows[|rows| - 1].fee else 0
  }

  function TradesWithin(rows: seq<FillRow>, from: int, to: int): nat {
    if rows == [] then 0
    else TradesWithin(rows[..|rows| - 1], from, to) + if IsWithin(rows[|rows| - 1], from, to) then 1 else 0
  }

  /** `daily_realized_pnl`, for the instants at which the day and the next begin. */
  method DailyFees(rows: seq<FillRow>, from: int, to: int) returns (fees: int, trades: nat)
    ensures fees == FeesWithin(rows, from, to) && trades == TradesWithin(rows, from, to)
  {
    fees, trades := 0, 0;
    for i := 0 to |rows|
      invariant fees == FeesWithin(rows[..i], from, to) && trades == TradesWithin(rows[..i], from, to)
    {
      assert rows[..i + 1][..i] == rows[..i];
      if from <= rows[i].created < to {
        fees, trades := fees + rows[i].fee, trades + 1;
      }
    }
    assert rows[..|rows|] == rows;
  }

  /** Days that follow one another share out the fees and the executions. */
  lemma {:induction false} DaysShareOut(rows: seq<FillRow>, from: int, mid: int, to: int)
    requires from <= mid <= to
    ensures FeesWithin(rows, from, mid) + FeesWithin(rows, mid, to) == FeesWithin(rows, from, to)
    ensures TradesWithin(rows, from, mid) + TradesWithin(rows, mid, to) == TradesWithin(rows, from, to)
  {
    if rows != [] { DaysShareOut(rows[..|rows| - 1], from, mid, to); }
  }

  /** Over a time that holds them all these are the fees and executions on record. */
  lemma {:induction false} AllTimeFees(rows: seq<FillRow>, from: int, to: int)
    requires forall i :: 0 <= i < |rows| ==> IsWithin(rows[i], from, to)
    ensures FeesWithin(rows, from, to) == RowFees(rows) && TradesWithin(rows, from, to) == |rows|
  {
    if rows != [] { AllTimeFees(rows[..|rows| - 1], from, to); }
  }

  predicate NoneWithin(rows: seq<FillRow>, from: int, to: int) {
    forall i :: 0 <= i < |rows| ==> !(from <= rows[i].created < to)
  }

  /** A snapshot's trade column is that of the finished day if and only if no execution of the
      day is stored after it. */
  lemma {:induction false} TradesFinalIff(rows: seq<FillRow>, later: seq<FillRow>, from: int, to: int)
    ensures TradesWithin(rows, from, to) <= TradesWithin(rows + later, from, to)
    ensures TradesWithin(rows + later, from, to) == TradesWithin(rows, from, to) <==> NoneWithin(later, from, to)
  {
    if later == [] {
      assert rows + later == rows;
    } else {
      var n := |later| - 1;
      assert (rows + later)[..|rows + later| - 1] == rows + later[..n];
      TradesFinalIff(rows, later[..n], from, to);
    }
  }

  /** Its fee column likewise, when every execution has a fee; with none of the day stored
      later it is final in any case. */
  lemma {:induction false} FeesFinalIff(rows: seq<FillRow>, later: seq<FillRow>, from: int, to: int)
    ensures NoneWithin(later, from, to) ==> FeesWithin(rows + later, from, to) == FeesWithin(rows, from, to)
    ensures (forall r :: r in later ==> r.fee > 0) ==>
              FeesWithin(rows, from, to) <= FeesWithin(rows + later, from, to)
              && (FeesWithin(rows + later, from, to) == FeesWithin(rows, from, to) <==> NoneWithin(later, from, to))
  {
    if later == [] {
      assert rows + later == rows;
    } else {
      var n := |later| - 1;
      assert (rows + later)[..|rows + later| - 1] == rows + later[..n];
      assert later[n] in later && forall r :: r in later[..n] ==> r in later;
      FeesFinalIff(rows, later[..n], from, to);
    }
  }

  /** The midnight job stamps its snapshot with the day that is just beginning. No execution
      of that day being stored yet, its columns are zero; and zero they stay, so they are
      right if and only if the day passes without any execution. */
  lemma MidnightColumnsFinalIff(rows: seq<FillRow>, later: seq<FillRow>, midnight: int, next: int)
    requires forall i :: 0 <= i < |rows| ==> rows[i].created < midnight
    ensures FeesWithin(rows, midnight, next) == 0 && TradesWithin(rows, midnight, next) == 0
    ensures TradesWithin(rows + later, midnight, next) == 0 <==> NoneWithin(later, midnight, next)
  {
    NothingYet(rows, midnight, next);
    TradesFinalIff(rows, later, midnight, next);
  }

  lemma {:induction false} NothingYet(rows: seq<FillRow>, midnight: int, next: int)
    requires forall i :: 0 <= i < |rows| ==> rows[i].created < midnight
    ensures FeesWithin(rows, midnight, next) == 0 && TradesWithin(rows, midnight, next) == 0
  {
    if rows != [] { NothingYet(rows[..|rows| - 1], midnight, next); }
  }

  // ---- The running total ---------------------------------------------------------------

  /** The total over all position rows. */
  method CumulativeRealized(book: map<string, Position>) returns (total: int)
    ensures total == Realized(book)
  {
    total := 0;
    var left := book;
    while left != map[]
      invariant total + Realized(left) == Realized(book)
      decreases |left|
    {
      var k :| k in left;
      total := total + left[k].realized;
      SumRemove(RealizedMap(left), k);
      assert RealizedMap(left - {k}) == RealizedMap(left) - {k};
      left := left - {k};
    }
    assert RealizedMap(left) == map[];
  }

  ghost function DailyOf(books: Books, from: int, to: int): Daily {
    Daily(Realized(books.book), FeesWithin(books.rows, from, to), TradesWithin(books.rows, from, to))
  }

  class Snapshots {
    var days: Days

    constructor ()
      ensures days == map[]
    {
      days := map[];
    }

    /** `snapshot_daily_pnl`: a later snapshot of the same day replaces the earlier. */
    method Take(day: int, from: int, to: int, books: Books)
      modifies this
      ensures days == old(days)[day := DailyOf(books, from, to)]
    {
      var fees, trades := DailyFees(books.rows, from, to);
      var total := CumulativeRealized(books.book);
      days := days[day := Daily(total, fees, trades)];
    }

    method BaselineAtOrBefore(cutoff: int) returns (baseline: int)
      ensures baseline == Baseline(days, cutoff)
    {
      baseline := 0;
      var left, found, newest := days, false, 0;
      while left != map[]
        invariant forall d :: d in left ==> d in days
        invariant found ==> newest in days && newest <= cutoff && baseline == days[newest].realized
        invariant forall d :: d in days && d !in left && d <= cutoff ==> found && d <= newest
        invariant !found ==> baseline == 0
        decreases |left|
      {
        HasDay(left);
        var d :| d in left;
        if d <= cutoff && (!found || newest <= d) {
          found, newest, baseline := true, d, days[d].realized;
        }
        left := left - {d};
      }
      if found {
        assert IsLatestDay(days, cutoff, newest);
      }
      BaselineUnique(days, cutoff, baseline, Baseline(days, cutoff));
    }

    /** `realized_pnl_since`. */
    method RealizedSince(cutoff: int, book: map<string, Position>) returns (profit: int)
      ensures profit == Since(days, cutoff, book)
    {
      var total := CumulativeRealized(book);
      var baseline := BaselineAtOrBefore(cutoff);
      profit := total - baseline;
    }
  }

  // ---- Runs of executions and snapshots ------------------------------------------------

  datatype Event = Execution(fill: Fill) | Snapshot(day: int, from: int, to: int)

  datatype State = State(books: Books, days: Days)

  /** What `apply_fill` returns for an execution; nothing for a snapshot. */
  ghost function Delta(s: State, e: Event, rate: real): int {
    match e
    case Snapshot(_, _, _) => 0
    case Execution(f) =>
      var outcome := Apply(s.books, f, rate).1;
      if outcome.Applied? then outcome.delta else 0
  }

  ghost function Happen(s: State, e: Event, rate: real): State {
    match e
    case Execution(f) => s.(books := Apply(s.books, f, rate).0)
    case Snapshot(day, from, to) => s.(days := s.days[day := DailyOf(s.books, from, to)])
  }

  ghost function HappenAll(s: State, es: seq<Event>, rate: real): State {
    if es == [] then s else Happen(HappenAll(s, es[..|es| - 1], rate), es[|es| - 1], rate)
  }

  /** The sum of what the executions returned. */
  ghost function Deltas(s: State, es: seq<Event>, rate: real): int {
    if es == [] then 0
    else Deltas(s, es[..|es| - 1], rate) + Delta(HappenAll(s, es[..|es| - 1], rate), es[|es| - 1], rate)
  }

  predicate IsSnapshotUpTo(e: Event, cutoff: int) {
    e.Snapshot? && e.day <= cutoff
  }

  /** The sum of what the executions returned since the last snapshot not after the cutoff,
      or since the start. */
  ghost function DeltasSince(s: State, es: seq<Event>, cutoff: int, rate: real): int {
    if es == [] then 0
    else if IsSnapshotUpTo(es[|es| - 1], cutoff) then 0
    else DeltasSince(s, es[..|es| - 1], cutoff, rate) + Delta(HappenAll(s, es[..|es| - 1], rate), es[|es| - 1], rate)
  }

  predicate Snapshotted(es: seq<Event>, cutoff: int) {
    es != [] && (IsSnapshotUpTo(es[|es| - 1], cutoff) || Snapshotted(es[..|es| - 1], cutoff))
  }

  /** Snapshots are taken on days that do not run back. */
  ghost predicate DaysInOrder(es: seq<Event>) {
    forall i, j :: 0 <= i < j < |es| && es[i].Snapshot? && es[j].Snapshot? ==> es[i].day <= es[j].day
  }

  /** One execution moves the account's total by exactly what it returns. */
  lemma DeltaMovesTotal(s: State, e: Event, rate: real)
    ensures Realized(Happen(s, e, rate).books.book) == Realized(s.books.book) + Delta(s, e, rate)
  {
    hide Realized;
    if e.Execution? && Apply(s.books, e.fill, rate).1.Applied? {
      var f := e.fill;
      var q := Post(s.books, f, f.Price().value, rate).book[f.ticker];
      BookUpdate(s.books.book, f.ticker, q);
    }
  }

  lemma {:induction false} TotalTelescopes(s: State, es: seq<Event>, rate: real)
    ensures Realized(HappenAll(s, es, rate).books.book) == Realized(s.books.book) + Deltas(s, es, rate)
  {
    hide Realized, Delta;
    if es != [] {
      TotalTelescopes(s, es[..|es| - 1], rate);
      DeltaMovesTotal(HappenAll(s, es[..|es| - 1], rate), es[|es| - 1], rate);
    }
  }

  predicate IsSnapshotOf(e: Event, d: int) {
    e.Snapshot? && e.day == d
  }

  lemma {:induction false} SnapshotDays(s: State, es: seq<Event>, rate: real)
    requires s.days == map[]
    ensures forall d :: d in HappenAll(s, es, rate).days <==> exists i :: 0 <= i < |es| && IsSnapshotOf(es[i], d)
  {
    if es != [] {
      var init, last := es[..|es| - 1], es[|es| - 1];
      SnapshotDays(s, init, rate);
      forall d
        ensures d in HappenAll(s, es, rate).days <==> exists i :: 0 <= i < |es| && IsSnapshotOf(es[i], d)
      {
        if d in HappenAll(s, init, rate).days {
          var i :| 0 <= i < |init| && IsSnapshotOf(init[i], d);
          assert IsSnapshotOf(es[i], d);
        }
        if i :| 0 <= i < |es| && IsSnapshotOf(es[i], d) {
          if i < |es| - 1 { assert IsSnapshotOf(init[i], d); }
        }
      }
    }
  }

  lemma BaselineUnique(days: Days, cutoff: int, a: int, b: int)
    requires IsBaseline(days, cutoff, a) && IsBaseline(days, cutoff, b)
    ensures a == b
  {
  }

  /** The period figure is the sum of what the executions of the period returned: for every
      run, every cutoff, and whatever snapshots were taken or missed in between. With no
      snapshot at or before the cutoff it is the whole running total. */
  lemma PeriodProfitIsSumOfDeltas(s: State, es: seq<Event>, cutoff: int, rate: real)
    requires s.days == map[] && DaysInOrder(es)
    ensures var e := HappenAll(s, es, rate);
            Since(e.days, cutoff, e.books.book) ==
            (if Snapshotted(es, cutoff) then 0 else Realized(s.books.book)) + DeltasSince(s, es, cutoff, rate)
  {
    hide Realized, HappenAll, DeltasSince, Snapshotted, DaysInOrder, Baseline;
    var e := HappenAll(s, es, rate);
    var opening := if Snapshotted(es, cutoff) then 0 else Realized(s.books.book);
    DeltasLeaveBaseline(s, es, cutoff, rate);
    BaselineUnique(e.days, cutoff, Realized(e.books.book) - opening - DeltasSince(s, es, cutoff, rate), Baseline(e.days, cutoff));
  }

  lemma {:induction false} DeltasLeaveBaseline(s: State, es: seq<Event>, cutoff: int, rate: real)
    requires s.days == map[] && DaysInOrder(es)
    ensures var e := HappenAll(s, es, rate);
            var opening := if Snapshotted(es, cutoff) then 0 else Realized(s.books.book);
            IsBaseline(e.days, cutoff, Realized(e.books.book) - opening - DeltasSince(s, es, cutoff, rate))
  {
    hide Realized, Delta, IsBaseline, DaysInOrder, FeesWithin, TradesWithin;
    if es != [] {
      var n := |es| - 1;
      var init, last := es[..n], es[n];
      InOrderBefore(es);
      DeltasLeaveBaseline(s, init, cutoff, rate);
      var before := HappenAll(s, init, rate);
      DeltaMovesTotal(before, last, rate);
      if last.Snapshot? {
        var v := DailyOf(before.books, last.from, last.to);
        if last.day <= cutoff {
          SnapshotDaysUpTo(s, es, rate);
          NewestDayIsBaseline(before.days, cutoff, last.day, v);
        } else {
          LaterDayIgnored(before.days, cutoff, last.day, v);
        }
      }
    } else {
      NoDayIsBaseline(cutoff);
    }
  }

  lemma NoDayIsBaseline(cutoff: int)
    ensures IsBaseline(map[], cutoff, 0)
  {
  }

  lemma InOrderBefore(es: seq<Event>)
    requires DaysInOrder(es) && es != []
    ensures DaysInOrder(es[..|es| - 1])
  {
  }

  lemma SnapshotDaysUpTo(s: State, es: seq<Event>, rate: real)
    requires s.days == map[] && DaysInOrder(es) && es != [] && es[|es| - 1].Snapshot?
    ensures var days := HappenAll(s, es[..|es| - 1], rate).days;
            forall d :: d in days ==> d <= es[|es| - 1].day
  {
    var init := es[..|es| - 1];
    SnapshotDays(s, init, rate);
    forall d | d in HappenAll(s, init, rate).days
      ensures d <= es[|es| - 1].day
    {
      var i :| 0 <= i < |init| && IsSnapshotOf(init[i], d);
      assert IsSnapshotOf(es[i], d);
    }
  }

  lemma NewestDayIsBaseline(days: Days, cutoff: int, day: int, v: Daily)
    requires day <= cutoff && forall d :: d in days ==> d <= day
    ensures IsBaseline(days[day := v], cutoff, v.realized)
  {
    assert IsLatestDay(days[day := v], cutoff, day);
  }

  lemma LaterDayIgnored(days: Days, cutoff: int, day: int, v: Daily)
    requires day > cutoff
    ensures forall b :: IsBaseline(days, cutoff, b) ==> IsBaseline(days[day := v], cutoff, b)
  {
    var after := days[day := v];
    forall b | IsBaseline(days, cutoff, b)
      ensures IsBaseline(after, cutoff, b)
    {
      if exists d :: d in days && d <= cutoff {
        var d :| IsLatestDay(days, cutoff, d) && b == days[d].realized;
        assert IsLatestDay(after, cutoff, d);
      }
    }
  }

  /** Two snapshots differ by what the executions between them returned. */
  lemma SnapshotsDifferByDeltas(s: State, first: Event, es: seq<Event>, second: Event, rate: real)
    requires first.Snapshot? && second.Snapshot? && first.day != second.day
    requires forall i :: 0 <= i < |es| ==> es[i].Execution?
    ensures var midnight := Happen(s, first, rate);
            var following := Happen(HappenAll(midnight, es, rate), second, rate);
            && first.day in following.days
            && following.days[second.day].realized - following.days[first.day].realized == Deltas(midnight, es, rate)
  {
    hide Realized, FeesWithin, TradesWithin;
    var midnight := Happen(s, first, rate);
    TotalTelescopes(midnight, es, rate);
    ExecutionsKeepDays(midnight, es, rate);
  }

  lemma {:induction false} ExecutionsKeepDays(s: State, es: seq<Event>, rate: real)
    requires forall i :: 0 <= i < |es| ==> es[i].Execution?
    ensures HappenAll(s, es, rate).days == s.days
  {
    if es != [] {
      ExecutionsKeepDays(s, es[..|es| - 1], rate);
    }
  }

  /** One second into its day. */
  const DAYS_FILL := Fill("o", "M", Yes, Buy, 1, Some(5000), None, true, 87400000000)

  lemma DaysFillPosts()
    ensures var b := Apply(Books([], map[]), DAYS_FILL, 0.07).0;
            |b.rows| == 1 && b.rows[0].fee == 200 && b.rows[0].created == DAYS_FILL.created
  {
    Fees.TwoCentFees(5000);
    assert Books([], map[]).Keys() == {};
  }

  lemma ThreeEvents(s: State, a: Event, b: Event, c: Event, rate: real)
    ensures HappenAll(s, [a, b, c], rate) == Happen(Happen(Happen(s, a, rate), b, rate), c, rate)
  {
    hide Happen;
    var es := [a, b, c];
    assert es[..2] == [a, b] && [a, b][..1] == [a] && [a][..0] == [];
    assert HappenAll(s, [a], rate) == Happen(s, a, rate);
    assert HappenAll(s, [a, b], rate) == Happen(Happen(s, a, rate), b, rate);
  }

  lemma OneRow(row: FillRow, from: int, to: int)
    requires IsWithin(row, from, to)
    ensures FeesWithin([row], from, to) == row.fee && TradesWithin([row], from, to) == 1
  {
    assert [row][..0] == [];
  }

  /** For instance a day that has one execution, two cents of fees, and a snapshot of neither:
      no later job writes that day's row again. */
  lemma MidnightMissesTheDay()
    ensures var from, to := 86400000000, 172800000000;
            var es := [Snapshot(1, from, to), Execution(DAYS_FILL), Snapshot(2, to, 259200000000)];
            var end := HappenAll(State(Books([], map[]), map[]), es, 0.07);
            && FeesWithin(end.books.rows, from, to) == 200 && TradesWithin(end.books.rows, from, to) == 1
            && 1 in end.days && end.days[1].fees == 0 && end.days[1].trades == 0
  {
    hide Apply, HappenAll, Realized;
    var s, from, to := State(Books([], map[]), map[]), 86400000000, 172800000000;
    ThreeEvents(s, Snapshot(1, from, to), Execution(DAYS_FILL), Snapshot(2, to, 259200000000), 0.07);
    DaysFillPosts();
    var rows := Apply(s.books, DAYS_FILL, 0.07).0.rows;
    assert rows == [rows[0]];
    OneRow(rows[0], from, to);
  }
}
