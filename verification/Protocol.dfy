/** The order protocol as a state machine. The executor handles one signal at a time under
    the reconciler's lock; between any two of its steps the HALT file may appear or go, the
    halt sweep, fill ingestion and recovery may rewrite order statuses, and the process may
    crash. Tables survive a crash, the executor's place in its work does not. */
module Protocol {
  import opened Wrappers
  import opened Positions
  import opened RiskMonitor

  datatype Signal = Signal(ticker: string, side: Side, probability: real, confidence: real)

  datatype DecisionRow = DecisionRow(ticker: string, side: Side, accepted: bool, orderId: Option<string>)

  datatype OrderRow = OrderRow(
    clientId: string, exchangeId: Option<string>, ticker: string, side: Side, count: int, price: int,
    status: string, decision: nat)

  /** The orders table, shared by the executor, the halt sweep and recovery. */
  class OrderTable {
    var rows: seq<OrderRow>

    constructor ()
      ensures rows == []
    {
      rows := [];
    }
  }

  /** A create-order request as it goes over the wire. */
  datatype Sent = Sent(clientId: string, ticker: string, side: Side, count: int, price: int)

  /** Where the executor stands. From Passed on, the risk check lies behind it. */
  datatype Phase =
    | Idle
    | Fetching(signal: Signal)
    | Passed(signal: Signal, price: int, contracts: int)
    | Decided(signal: Signal, price: int, contracts: int, clientId: string, decision: nat)
    | Sending(request: Sent, attempts: nat)

  datatype World = World(
    halted: bool, decisions: seq<DecisionRow>, orders: seq<OrderRow>, sent: seq<Sent>, phase: Phase)

  const MAX_ATTEMPTS: nat := 3

  /** Abandon is an exception the handler does not catch: the signal is dropped where it
      stands. The sweep may come after the file is gone again, since it first waits for the
      exchange. Restate is any other writer of the orders table. */
  datatype Step =
    | Begin(signal: Signal)
    | Refuse(errorSpike: bool)
    | Check(view: View, request: Request)
    | ExpirePreflight
    | PersistDecision(clientId: string)
    | PersistOrder
    | Post
    | Respond(exchangeId: string, status: string)
    | SendFailed(errorSpike: bool)
    | Abandon
    | Crash
    | HaltAppears
    | Disengage
    | Sweep
    | Restate(row: nat, newId: Option<string>, status: string)

  function Rejection(s: Signal): DecisionRow {
    DecisionRow(s.ticker, s.side, false, None)
  }

  predicate IsOpen(status: string) {
    status == "pending" || status == "resting" || status == "open"
  }

  /** The halt sweep's rewriting of one row. */
  function Swept(o: OrderRow): OrderRow {
    if IsOpen(o.status) then o.(status := "cancelled_by_halt") else o
  }

  function SweptAll(orders: seq<OrderRow>): (r: seq<OrderRow>)
    ensures |r| == |orders|
    ensures forall i :: 0 <= i < |orders| ==> r[i] == Swept(orders[i])
  {
    seq(|orders|, i requires 0 <= i < |orders| => Swept(orders[i]))
  }

  /** Rows are looked up by client order id. */
  function Updated(orders: seq<OrderRow>, clientId: string, exchangeId: Option<string>, status: string): (r: seq<OrderRow>)
    ensures |r| == |orders|
    ensures forall i :: 0 <= i < |orders| ==> r[i] == UpdatedRow(orders[i], clientId, exchangeId, status)
  {
    seq(|orders|, i requires 0 <= i < |orders| => UpdatedRow(orders[i], clientId, exchangeId, status))
  }

  function UpdatedRow(o: OrderRow, clientId: string, exchangeId: Option<string>, status: string): OrderRow {
    if o.clientId != clientId then o
    else o.(status := status, exchangeId := if exchangeId == None then o.exchangeId else exchangeId)
  }

  /** The id is a new UUID. */
  predicate Unused(w: World, clientId: string) {
    && (forall i :: 0 <= i < |w.decisions| ==> w.decisions[i].orderId != Some(clientId))
    && (forall i :: 0 <= i < |w.orders| ==> w.orders[i].clientId != clientId)
  }

  predicate Enabled(cfg: Config, w: World, step: Step) {
    match step
    case Begin(_) => w.phase.Idle?
    case Refuse(_) => w.phase.Fetching?
    case Check(view, request) =>
      w.phase.Fetching? && view.engaged == w.halted &&
      request.ticker == w.phase.signal.ticker && request.side == w.phase.signal.side &&
      request.probability == w.phase.signal.probability && request.confidence == w.phase.signal.confidence
    case ExpirePreflight => w.phase.Passed?
    case PersistDecision(clientId) => w.phase.Passed? && Unused(w, clientId)
    case PersistOrder => w.phase.Decided?
    case Post => w.phase.Sending? && w.phase.attempts < MAX_ATTEMPTS
    case Respond(_, _) => w.phase.Sending? && w.phase.attempts > 0
    case SendFailed(_) => w.phase.Sending?
    case Abandon => !w.phase.Idle?
    case Restate(row, _, _) => row < |w.orders|
    case Crash => true
    case HaltAppears => true
    case Disengage => true
    case Sweep => true
  }

  ghost function Take(cfg: Config, w: World, step: Step): World
    requires Enabled(cfg, w, step)
  {
    match step
    case Begin(signal) => w.(phase := Fetching(signal))
    case Refuse(errorSpike) =>
      w.(decisions := w.decisions + [Rejection(w.phase.signal)], phase := Idle, halted := w.halted || errorSpike)
    case Check(view, request) =>
      var d := Evaluate(cfg, view, request);
      if d.Approved? then w.(phase := Passed(w.phase.signal, request.price, d.contracts))
      else w.(decisions := w.decisions + [Rejection(w.phase.signal)], phase := Idle, halted := w.halted || Trips(d))
    case ExpirePreflight => w.(decisions := w.decisions + [Rejection(w.phase.signal)], phase := Idle)
    case PersistDecision(clientId) =>
      var s := w.phase.signal;
      w.(decisions := w.decisions + [DecisionRow(s.ticker, s.side, true, Some(clientId))],
         phase := Decided(s, w.phase.price, w.phase.contracts, clientId, |w.decisions|))
    case PersistOrder =>
      var p := w.phase;
      w.(orders := w.orders + [OrderRow(p.clientId, None, p.signal.ticker, p.signal.side, p.contracts, p.price, "pending", p.decision)],
         phase := Sending(Sent(p.clientId, p.signal.ticker, p.signal.side, p.contracts, p.price), 0))
    case Post => w.(sent := w.sent + [w.phase.request], phase := w.phase.(attempts := w.phase.attempts + 1))
    case Respond(exchangeId, status) =>
      w.(orders := Updated(w.orders, w.phase.request.clientId, Some(exchangeId), status), phase := Idle)
    case SendFailed(errorSpike) =>
      w.(orders := Updated(w.orders, w.phase.request.clientId, None, "send_failed"), phase := Idle, halted := w.halted || errorSpike)
    case Abandon => w.(phase := Idle)
    case Crash => w.(phase := Idle)
    case HaltAppears => w.(halted := true)
    case Disengage => w.(halted := false)
    case Sweep => w.(orders := SweptAll(w.orders))
    case Restate(row, exchangeId, status) =>
      w.(orders := w.orders[row := w.orders[row].(exchangeId := exchangeId, status := status)])
  }

  ghost predicate IsRun(cfg: Config, w: World, steps: seq<Step>)
    decreases |steps|
  {
    steps != [] ==> Enabled(cfg, w, steps[0]) && IsRun(cfg, Take(cfg, w, steps[0]), steps[1..])
  }

  ghost function TakeAll(cfg: Config, w: World, steps: seq<Step>): World
    requires IsRun(cfg, w, steps)
    decreases |steps|
  {
    if steps == [] then w else TakeAll(cfg, Take(cfg, w, steps[0]), steps[1..])
  }

  // ---- Write-ahead ---------------------------------------------------------------------

  function RequestOf(o: OrderRow): Sent {
    Sent(o.clientId, o.ticker, o.side, o.count, o.price)
  }

  /** The row's decision accepted this very order. */
  predicate Backed(w: World, o: OrderRow) {
    && o.decision < |w.decisions|
    && w.decisions[o.decision] == DecisionRow(o.ticker, o.side, true, Some(o.clientId))
  }

  predicate DistinctIds(w: World) {
    && (forall i, j :: 0 <= i < j < |w.orders| ==> w.orders[i].clientId != w.orders[j].clientId)
    && (forall i, j :: 0 <= i < j < |w.decisions| && w.decisions[i].orderId != None ==> w.decisions[i].orderId != w.decisions[j].orderId)
  }

  ghost predicate HasRow(w: World, s: Sent) {
    exists i :: 0 <= i < |w.orders| && RequestOf(w.orders[i]) == s
  }

  ghost predicate PhaseFits(w: World) {
    match w.phase
    case Idle => true
    case Fetching(_) => true
    case Passed(_, _, _) => true
    case Decided(s, price, n, id, d) =>
      && d < |w.decisions| && w.decisions[d] == DecisionRow(s.ticker, s.side, true, Some(id))
      && forall i :: 0 <= i < |w.orders| ==> w.orders[i].clientId != id
    case Sending(request, _) => HasRow(w, request)
  }

  ghost predicate WriteAhead(w: World) {
    && (forall i :: 0 <= i < |w.orders| ==> Backed(w, w.orders[i]))
    && DistinctIds(w)
    && (forall k :: 0 <= k < |w.sent| ==> HasRow(w, w.sent[k]))
    && PhaseFits(w)
  }

  /** An approval never exceeds the per-order limit, and comes only with the kill switch off
      and the minute's orders under their limit. */
  lemma ApprovedWithinLimits(cfg: Config, view: View, req: Request)
    requires Evaluate(cfg, view, req).Approved?
    ensures Evaluate(cfg, view, req).contracts <= cfg.perOrderMax
    ensures !view.engaged && view.ordersLastMinute < cfg.maxOrdersPerMinute
  {
    hide Sized, EdgeTooSmall;
  }

  /** Same rows up to status and exchange id. */
  ghost predicate SameRows(a: World, b: World) {
    && |a.orders| == |b.orders|
    && (forall i :: 0 <= i < |a.orders| ==>
          RequestOf(a.orders[i]) == RequestOf(b.orders[i]) && a.orders[i].decision == b.orders[i].decision)
  }

  lemma SameRowsKeepHasRow(a: World, b: World, s: Sent)
    requires SameRows(a, b) && HasRow(a, s)
    ensures HasRow(b, s)
  {
    var i :| 0 <= i < |a.orders| && RequestOf(a.orders[i]) == s;
    assert RequestOf(b.orders[i]) == s;
  }

  /** Steps that leave the order rows' identities alone and only add rejections. */
  lemma StatusStepKeepsWriteAhead(w: World, w': World)
    requires WriteAhead(w) && SameRows(w, w') && w'.sent == w.sent && PhaseFits(w')
    requires w'.decisions == w.decisions
    ensures WriteAhead(w')
  {
    forall i | 0 <= i < |w'.orders|
      ensures Backed(w', w'.orders[i])
    {
      assert Backed(w, w.orders[i]);
    }
    forall i, j | 0 <= i < j < |w'.orders|
      ensures w'.orders[i].clientId != w'.orders[j].clientId
    {
      assert w.orders[i].clientId != w.orders[j].clientId;
    }
    forall k | 0 <= k < |w'.sent|
      ensures HasRow(w', w'.sent[k])
    {
      SameRowsKeepHasRow(w, w', w.sent[k]);
    }
  }

  lemma RejectionKeepsWriteAhead(w: World, w': World)
    requires WriteAhead(w) && w'.orders == w.orders && w'.sent == w.sent && w'.phase == Idle
    requires exists s :: w'.decisions == w.decisions + [Rejection(s)]
    ensures WriteAhead(w')
  {
    forall i | 0 <= i < |w'.orders|
      ensures Backed(w', w'.orders[i])
    {
      assert Backed(w, w.orders[i]);
    }
    forall k | 0 <= k < |w'.sent|
      ensures HasRow(w', w'.sent[k])
    {
      assert HasRow(w, w.sent[k]);
    }
  }

  lemma DecisionKeepsWriteAhead(cfg: Config, w: World, clientId: string)
    requires WriteAhead(w) && Enabled(cfg, w, PersistDecision(clientId))
    ensures WriteAhead(Take(cfg, w, PersistDecision(clientId)))
  {
    var w' := Take(cfg, w, PersistDecision(clientId));
    forall i | 0 <= i < |w'.orders|
      ensures Backed(w', w'.orders[i])
    {
      assert Backed(w, w.orders[i]);
    }
    forall k | 0 <= k < |w'.sent|
      ensures HasRow(w', w'.sent[k])
    {
      assert HasRow(w, w.sent[k]);
    }
  }

  lemma OrderKeepsWriteAhead(cfg: Config, w: World)
    requires WriteAhead(w) && Enabled(cfg, w, PersistOrder)
    ensures WriteAhead(Take(cfg, w, PersistOrder))
  {
    var w' := Take(cfg, w, PersistOrder);
    var n := |w.orders|;
    assert RequestOf(w'.orders[n]) == w'.phase.request;
    forall i | 0 <= i < |w'.orders|
      ensures Backed(w', w'.orders[i])
    {
      if i < n { assert Backed(w, w.orders[i]); }
    }
    forall k | 0 <= k < |w'.sent|
      ensures HasRow(w', w'.sent[k])
    {
      var i :| 0 <= i < |w.orders| && RequestOf(w.orders[i]) == w.sent[k];
      assert RequestOf(w'.orders[i]) == w.sent[k];
    }
  }

  /** Every step, crashes and outside rewriting included, keeps the invariant. */
  lemma StepKeepsWriteAhead(cfg: Config, w: World, step: Step)
    requires WriteAhead(w) && Enabled(cfg, w, step)
    ensures WriteAhead(Take(cfg, w, step))
  {
    hide WriteAhead, Evaluate;
    var w' := Take(cfg, w, step);
    match step {
      case PersistDecision(clientId) => DecisionKeepsWriteAhead(cfg, w, clientId);
      case PersistOrder => OrderKeepsWriteAhead(cfg, w);
      case Post => PostKeepsWriteAhead(cfg, w);
      case Refuse(_) => RejectionKeepsWriteAhead(w, w');
      case ExpirePreflight => RejectionKeepsWriteAhead(w, w');
      case Check(view, request) =>
        if Evaluate(cfg, view, request).Approved? {
          StatusStepKeepsWriteAhead(w, w');
        } else {
          RejectionKeepsWriteAhead(w, w');
        }
      case Begin(_) => StatusStepKeepsWriteAhead(w, w');
      case Respond(_, _) => StatusStepKeepsWriteAhead(w, w');
      case SendFailed(_) => StatusStepKeepsWriteAhead(w, w');
      case Abandon => StatusStepKeepsWriteAhead(w, w');
      case Crash => StatusStepKeepsWriteAhead(w, w');
      case HaltAppears => OutsideStepFits(w, w'); StatusStepKeepsWriteAhead(w, w');
      case Disengage => OutsideStepFits(w, w'); StatusStepKeepsWriteAhead(w, w');
      case Sweep => OutsideStepFits(w, w'); StatusStepKeepsWriteAhead(w, w');
      case Restate(_, _, _) => OutsideStepFits(w, w'); StatusStepKeepsWriteAhead(w, w');
    }
  }

  lemma PostKeepsWriteAhead(cfg: Config, w: World)
    requires WriteAhead(w) && Enabled(cfg, w, Post)
    ensures WriteAhead(Take(cfg, w, Post))
  {
    var w' := Take(cfg, w, Post);
    SameRowsKeepHasRow(w, w', w.phase.request);
    forall i | 0 <= i < |w'.orders|
      ensures Backed(w', w'.orders[i])
    {
      assert Backed(w, w.orders[i]);
    }
    forall k | 0 <= k < |w'.sent|
      ensures HasRow(w', w'.sent[k])
    {
      if k < |w.sent| { SameRowsKeepHasRow(w, w', w.sent[k]); }
    }
  }

  /** A step from outside the executor leaves its place consistent with the tables. */
  lemma OutsideStepFits(w: World, w': World)
    requires WriteAhead(w) && SameRows(w, w') && w'.phase == w.phase && w'.decisions == w.decisions
    ensures PhaseFits(w')
  {
    match w.phase {
      case Sending(request, _) => SameRowsKeepHasRow(w, w', request);
      case Decided(_, _, _, id, _) =>
        forall i | 0 <= i < |w'.orders|
          ensures w'.orders[i].clientId != id
        {
          assert w.orders[i].clientId != id;
          assert RequestOf(w.orders[i]) == RequestOf(w'.orders[i]);
        }
      case _ =>
    }
  }

  /** Safety over whole runs of any length and interleaving. */
  lemma {:induction false} RunsKeepWriteAhead(cfg: Config, w: World, steps: seq<Step>)
    requires WriteAhead(w) && IsRun(cfg, w, steps)
    ensures WriteAhead(TakeAll(cfg, w, steps))
    decreases |steps|
  {
    hide WriteAhead, Take, Enabled;
    if steps != [] {
      StepKeepsWriteAhead(cfg, w, steps[0]);
      RunsKeepWriteAhead(cfg, Take(cfg, w, steps[0]), steps[1..]);
    }
  }

  const START := World(false, [], [], [], Idle)

  // ---- Approvals -----------------------------------------------------------------------

  /** What the gate is asked for, and an order row carries. */
  datatype Ask = Ask(ticker: string, side: Side, count: int, price: int)

  function AskOf(o: OrderRow): Ask {
    Ask(o.ticker, o.side, o.count, o.price)
  }

  /** The approved signal that has no order row yet. */
  function Awaiting(p: Phase): seq<Ask> {
    match p
    case Passed(s, price, n) => [Ask(s.ticker, s.side, n, price)]
    case Decided(s, price, n, _, _) => [Ask(s.ticker, s.side, n, price)]
    case _ => []
  }

  function RowAsks(orders: seq<OrderRow>): (r: seq<Ask>)
    ensures |r| == |orders|
    ensures forall i :: 0 <= i < |orders| ==> r[i] == AskOf(orders[i])
  {
    seq(|orders|, i requires 0 <= i < |orders| => AskOf(orders[i]))
  }

  /** All orders so far, and the one about to be. */
  function Asks(w: World): seq<Ask> {
    RowAsks(w.orders) + Awaiting(w.phase)
  }

  ghost predicate Approves(cfg: Config, step: Step, ask: Ask) {
    && step.Check? && Evaluate(cfg, step.view, step.request).Approved?
    && ask == Ask(step.request.ticker, step.request.side, Evaluate(cfg, step.view, step.request).contracts, step.request.price)
  }

  /** Step j of the run is a risk check, made with no HALT file, that approved exactly this. */
  ghost predicate ApprovedAt(cfg: Config, start: World, steps: seq<Step>, j: nat, ask: Ask) {
    && j < |steps| && Approves(cfg, steps[j], ask)
    && IsRun(cfg, start, steps[..j]) && !TakeAll(cfg, start, steps[..j]).halted
  }

  /** The last step of a run, seen from its front. */
  lemma {:induction false} RunEnds(cfg: Config, w: World, steps: seq<Step>)
    requires IsRun(cfg, w, steps) && steps != []
    ensures var n := |steps| - 1;
            && IsRun(cfg, w, steps[..n])
            && Enabled(cfg, TakeAll(cfg, w, steps[..n]), steps[n])
            && TakeAll(cfg, w, steps) == Take(cfg, TakeAll(cfg, w, steps[..n]), steps[n])
    decreases |steps|
  {
    hide Take, Enabled;
    var n := |steps| - 1;
    if n > 0 {
      RunEnds(cfg, Take(cfg, w, steps[0]), steps[1..]);
      assert steps[..n][1..] == steps[1..][..n - 1];
    } else {
      assert steps[1..] == [] && steps[..n] == [];
    }
  }

  lemma SameRowsSameAsks(a: World, b: World)
    requires SameRows(a, b)
    ensures RowAsks(a.orders) == RowAsks(b.orders)
  {
    forall i | 0 <= i < |a.orders|
      ensures AskOf(a.orders[i]) == AskOf(b.orders[i])
    {
      assert RequestOf(a.orders[i]) == RequestOf(b.orders[i]);
    }
  }

  lemma AwaitedBecomesRow(cfg: Config, w: World)
    requires Enabled(cfg, w, PersistOrder)
    ensures Asks(Take(cfg, w, PersistOrder)) == Asks(w)
  {
    assert RowAsks(Take(cfg, w, PersistOrder).orders) == RowAsks(w.orders) + Awaiting(w.phase);
  }

  lemma OtherStepsKeepAsks(cfg: Config, w: World, step: Step)
    requires Enabled(cfg, w, step) && !step.PersistOrder? && !step.Check?
    ensures var w' := Take(cfg, w, step);
            SameRows(w, w') && (Awaiting(w'.phase) == Awaiting(w.phase) || Awaiting(w'.phase) == [])
  {
  }

  /** A step adds an ask only by a check that approves it; otherwise the asks stay as they
      are, or the one without a row is dropped. */
  lemma AsksStep(cfg: Config, w: World, step: Step)
    requires Enabled(cfg, w, step)
    ensures var was, now := Asks(w), Asks(Take(cfg, w, step));
            || now == was
            || (was != [] && now == was[..|was| - 1])
            || (now != [] && now[..|now| - 1] == was && Approves(cfg, step, now[|now| - 1]) && !w.halted)
  {
    hide Evaluate, SameRows, RowAsks;
    if step.PersistOrder? {
      AwaitedBecomesRow(cfg, w);
    } else if step.Check? {
      if Evaluate(cfg, step.view, step.request).Approved? {
        ApprovedWithinLimits(cfg, step.view, step.request);
      }
    } else {
      OtherStepsKeepAsks(cfg, w, step);
      hide Take, Enabled;
      SameRowsSameAsks(w, Take(cfg, w, step));
      assert |Awaiting(w.phase)| <= 1;
    }
  }

  /** Increasing step numbers, one for each ask, at which the gate approved it. */
  ghost predicate ApprovedInOrder(cfg: Config, start: World, steps: seq<Step>, asks: seq<Ask>, checks: seq<nat>) {
    && |checks| == |asks|
    && (forall i :: 0 <= i < |checks| ==> ApprovedAt(cfg, start, steps, checks[i], asks[i]))
    && (forall i, j :: 0 <= i < j < |checks| ==> checks[i] < checks[j])
  }

  lemma StillApproved(cfg: Config, start: World, steps: seq<Step>, asks: seq<Ask>, checks: seq<nat>)
    requires steps != [] && ApprovedInOrder(cfg, start, steps[..|steps| - 1], asks, checks)
    ensures ApprovedInOrder(cfg, start, steps, asks, checks)
  {
    hide Approves;
    var init := steps[..|steps| - 1];
    forall i | 0 <= i < |checks|
      ensures ApprovedAt(cfg, start, steps, checks[i], asks[i])
    {
      assert ApprovedAt(cfg, start, init, checks[i], asks[i]);
      assert init[..checks[i]] == steps[..checks[i]];
    }
  }

  /** In every run each order row comes from a check of its own: different rows from different
      checks, in the order of the rows, each made with no HALT file and approving exactly the
      row's market, side, count and price. */
  lemma {:induction false} OrdersAreApproved(cfg: Config, steps: seq<Step>) returns (checks: seq<nat>)
    requires IsRun(cfg, START, steps)
    ensures ApprovedInOrder(cfg, START, steps, Asks(TakeAll(cfg, START, steps)), checks)
  {
    hide Take, Enabled, Approves, ApprovedInOrder, Asks, IsRun, TakeAll;
    checks := [];
    if steps == [] {
      NothingAsked(cfg);
    } else {
      var n := |steps| - 1;
      RunEnds(cfg, START, steps);
      var w := TakeAll(cfg, START, steps[..n]);
      checks := OrdersAreApproved(cfg, steps[..n]);
      AsksStep(cfg, w, steps[n]);
      StillApproved(cfg, START, steps, Asks(w), checks);
      checks := ChecksAfter(cfg, steps, Asks(w), Asks(TakeAll(cfg, START, steps)), checks);
    }
  }

  lemma NothingAsked(cfg: Config)
    ensures IsRun(cfg, START, []) && ApprovedInOrder(cfg, START, [], Asks(TakeAll(cfg, START, [])), [])
  {
  }

  lemma ChecksAfter(cfg: Config, steps: seq<Step>, was: seq<Ask>, now: seq<Ask>, checks: seq<nat>) returns (after: seq<nat>)
    requires steps != [] && IsRun(cfg, START, steps[..|steps| - 1])
    requires ApprovedInOrder(cfg, START, steps, was, checks) && ApprovedInOrder(cfg, START, steps[..|steps| - 1], was, checks)
    requires || now == was
             || (was != [] && now == was[..|was| - 1])
             || (now != [] && now[..|now| - 1] == was && Approves(cfg, steps[|steps| - 1], now[|now| - 1])
                 && !TakeAll(cfg, START, steps[..|steps| - 1]).halted)
    ensures ApprovedInOrder(cfg, START, steps, now, after)
  {
    hide Approves, IsRun, TakeAll;
    if now == was {
      return checks;
    } else if |now| < |was| {
      return checks[..|now|];
    }
    after := checks + [|steps| - 1];
    forall i | 0 <= i < |checks|
      ensures after[i] < |steps| - 1 && now[i] == was[i]
    {
      assert ApprovedAt(cfg, START, steps[..|steps| - 1], checks[i], was[i]);
    }
  }

  /** What the invariants say of every request ever sent, in every reachable state. Exactly one
      order row carries its id, with its market, side, count and price. An earlier check of
      this run, made with no HALT file, approved exactly these, within the order limit. The
      row's decision accepted this order on the same market and side, and no other names
      the id. */
  lemma SentIsOnRecord(cfg: Config, steps: seq<Step>, k: nat) returns (i: nat, check: nat)
    requires IsRun(cfg, START, steps) && k < |TakeAll(cfg, START, steps).sent|
    ensures var w := TakeAll(cfg, START, steps);
            var s := w.sent[k];
            && i < |w.orders| && RequestOf(w.orders[i]) == s
            && ApprovedAt(cfg, START, steps, check, Ask(s.ticker, s.side, s.count, s.price))
            && s.count <= cfg.perOrderMax
            && (forall j :: 0 <= j < |w.orders| && w.orders[j].clientId == s.clientId ==> j == i)
            && w.orders[i].decision < |w.decisions|
            && w.decisions[w.orders[i].decision] == DecisionRow(s.ticker, s.side, true, Some(s.clientId))
            && (forall d :: 0 <= d < |w.decisions| && w.decisions[d].orderId == Some(s.clientId) ==> d == w.orders[i].decision)
  {
    hide IsRun, TakeAll, Evaluate;
    EmptyIsWriteAhead();
    RunsKeepWriteAhead(cfg, START, steps);
    var w := TakeAll(cfg, START, steps);
    assert HasRow(w, w.sent[k]);
    i :| 0 <= i < |w.orders| && RequestOf(w.orders[i]) == w.sent[k];
    assert Backed(w, w.orders[i]);
    var checks := OrdersAreApproved(cfg, steps);
    check := checks[i];
    assert ApprovedAt(cfg, START, steps, check, Asks(w)[i]);
    ApprovedWithinLimits(cfg, steps[check].view, steps[check].request);
  }

  lemma EmptyIsWriteAhead()
    ensures WriteAhead(START)
  {
  }

  // ---- Halt safety ---------------------------------------------------------------------

  /** The executor is past its risk check with a signal not yet finished. */
  predicate PastCheck(p: Phase) {
    p.Passed? || p.Decided? || p.Sending?
  }

  /** The client order id at stake, once there is one. */
  function IdAtStake(p: Phase): Option<string> {
    match p
    case Decided(_, _, _, id, _) => Some(id)
    case Sending(request, _) => Some(request.clientId)
    case _ => None
  }

  predicate NoDisengage(steps: seq<Step>) {
    forall i :: 0 <= i < |steps| ==> steps[i] != Disengage
  }

  /** Everything sent, ordered or accepted between a and b is the one order `id`. */
  ghost predicate OnlyAbout(a: World, b: World, id: string) {
    && |a.sent| <= |b.sent| && |a.orders| <= |b.orders| && |a.decisions| <= |b.decisions|
    && (forall k :: |a.sent| <= k < |b.sent| ==> b.sent[k].clientId == id)
    && (forall i :: |a.orders| <= i < |b.orders| ==> b.orders[i].clientId == id)
    && (forall d :: |a.decisions| <= d < |b.decisions| && b.decisions[d].accepted ==> b.decisions[d].orderId == Some(id))
  }

  /** Nothing is sent, ordered or accepted between a and b. */
  ghost predicate Quiet(a: World, b: World) {
    && b.sent == a.sent && |b.orders| == |a.orders| && |a.decisions| <= |b.decisions|
    && (forall d :: |a.decisions| <= d < |b.decisions| ==> !b.decisions[d].accepted)
  }

  /** What one step can do while the file exists. */
  lemma HaltedStep(cfg: Config, w: World, step: Step)
    requires w.halted && Enabled(cfg, w, step) && step != Disengage
    ensures var w' := Take(cfg, w, step);
            && w'.halted
            && (!PastCheck(w.phase) ==> !PastCheck(w'.phase) && Quiet(w, w'))
            && (w.phase.Passed? && !step.PersistDecision? ==> Quiet(w, w') && (w'.phase.Passed? || !PastCheck(w'.phase)))
            && (w.phase.Passed? && step.PersistDecision? ==> IdAtStake(w'.phase) == Some(step.clientId) && OnlyAbout(w, w', step.clientId))
            && (IdAtStake(w.phase) != None ==>
                  OnlyAbout(w, w', IdAtStake(w.phase).value) &&
                  (IdAtStake(w'.phase) == IdAtStake(w.phase) || !PastCheck(w'.phase)))
            && (step.Check? ==> w'.phase == Idle && w'.decisions == w.decisions + [Rejection(w.phase.signal)])
  {
    hide Opening;
  }

  /** Tables grow: requests and decisions stay as they are, order rows keep their ids. */
  ghost predicate Grows(a: World, b: World) {
    && |a.sent| <= |b.sent| && |a.decisions| <= |b.decisions| && |a.orders| <= |b.orders|
    && (forall k :: 0 <= k < |a.sent| ==> b.sent[k] == a.sent[k])
    && (forall d :: 0 <= d < |a.decisions| ==> b.decisions[d] == a.decisions[d])
    && (forall i :: 0 <= i < |a.orders| ==> RequestOf(b.orders[i]) == RequestOf(a.orders[i]))
  }

  lemma StepGrows(cfg: Config, w: World, step: Step)
    requires Enabled(cfg, w, step)
    ensures Grows(w, Take(cfg, w, step))
  {
    hide Evaluate;
  }

  lemma {:induction false} RunGrows(cfg: Config, w: World, steps: seq<Step>)
    requires IsRun(cfg, w, steps)
    ensures Grows(w, TakeAll(cfg, w, steps))
    decreases |steps|
  {
    hide Take, Enabled;
    if steps != [] {
      StepGrows(cfg, w, steps[0]);
      RunGrows(cfg, Take(cfg, w, steps[0]), steps[1..]);
    }
  }

  lemma QuietCompose(a: World, b: World, c: World)
    requires Quiet(a, b) && Quiet(b, c) && Grows(b, c)
    ensures Quiet(a, c)
  {
    forall d | |a.decisions| <= d < |c.decisions|
      ensures !c.decisions[d].accepted
    {
      if d < |b.decisions| { assert c.decisions[d] == b.decisions[d]; }
    }
  }

  lemma QuietIsOnlyAbout(a: World, b: World, id: string)
    requires Quiet(a, b)
    ensures OnlyAbout(a, b, id)
  {
  }

  lemma OnlyAboutCompose(a: World, b: World, c: World, id: string)
    requires OnlyAbout(a, b, id) && OnlyAbout(b, c, id) && Grows(b, c)
    ensures OnlyAbout(a, c, id)
  {
    forall k | |a.sent| <= k < |c.sent|
      ensures c.sent[k].clientId == id
    {
      if k < |b.sent| { assert c.sent[k] == b.sent[k]; }
    }
    forall i | |a.orders| <= i < |c.orders|
      ensures c.orders[i].clientId == id
    {
      if i < |b.orders| { assert RequestOf(c.orders[i]) == RequestOf(b.orders[i]); }
    }
    forall d | |a.decisions| <= d < |c.decisions| && c.decisions[d].accepted
      ensures c.decisions[d].orderId == Some(id)
    {
      if d < |b.decisions| { assert c.decisions[d] == b.decisions[d]; }
    }
  }

  /** Once halted with no signal past its check, nothing is sent, ordered or accepted until
      the file is removed, whatever else happens. */
  lemma {:induction false} HaltedIsQuiet(cfg: Config, w: World, steps: seq<Step>)
    requires w.halted && !PastCheck(w.phase) && IsRun(cfg, w, steps) && NoDisengage(steps)
    ensures Quiet(w, TakeAll(cfg, w, steps)) && !PastCheck(TakeAll(cfg, w, steps).phase) && TakeAll(cfg, w, steps).halted
    decreases |steps|
  {
    hide Take, Enabled, Quiet, Grows;
    if steps != [] {
      var w' := Take(cfg, w, steps[0]);
      HaltedStep(cfg, w, steps[0]);
      HaltedIsQuiet(cfg, w', steps[1..]);
      RunGrows(cfg, w', steps[1..]);
      QuietCompose(w, w', TakeAll(cfg, w', steps[1..]));
    } else {
      NothingHappens(w);
    }
  }

  lemma NothingHappens(w: World)
    ensures Quiet(w, w)
  {
  }

  lemma {:induction false} HaltedFinishesOne(cfg: Config, w: World, steps: seq<Step>)
    requires w.halted && IdAtStake(w.phase) != None && IsRun(cfg, w, steps) && NoDisengage(steps)
    ensures OnlyAbout(w, TakeAll(cfg, w, steps), IdAtStake(w.phase).value)
    decreases |steps|
  {
    hide Take, Enabled, Quiet, OnlyAbout, Grows;
    var id := IdAtStake(w.phase).value;
    if steps != [] {
      var w' := Take(cfg, w, steps[0]);
      HaltedStep(cfg, w, steps[0]);
      RunGrows(cfg, w', steps[1..]);
      var end := TakeAll(cfg, w', steps[1..]);
      if PastCheck(w'.phase) {
        HaltedFinishesOne(cfg, w', steps[1..]);
      } else {
        HaltedIsQuiet(cfg, w', steps[1..]);
        QuietIsOnlyAbout(w', end, id);
      }
      OnlyAboutCompose(w, w', end, id);
    } else {
      NothingHappens(w);
      QuietIsOnlyAbout(w, w, id);
    }
  }

  /** Between the appearance of the HALT file, at whatever point of whatever interleaving, and
      its removal, at most one client order id is sent, ordered or accepted: the one whose
      signal had already passed its risk check. If there was no such signal, none is. */
  lemma {:induction false} HaltSafety(cfg: Config, w: World, steps: seq<Step>) returns (id: string)
    requires w.halted && IsRun(cfg, w, steps) && NoDisengage(steps)
    ensures OnlyAbout(w, TakeAll(cfg, w, steps), id)
    ensures !PastCheck(w.phase) ==> Quiet(w, TakeAll(cfg, w, steps))
    ensures IdAtStake(w.phase) != None ==> id == IdAtStake(w.phase).value
    decreases |steps|
  {
    hide Take, Enabled, Quiet, OnlyAbout, Grows;
    id := "";
    if !PastCheck(w.phase) {
      HaltedIsQuiet(cfg, w, steps);
      QuietIsOnlyAbout(w, TakeAll(cfg, w, steps), id);
    } else if IdAtStake(w.phase) != None {
      id := IdAtStake(w.phase).value;
      HaltedFinishesOne(cfg, w, steps);
    } else if steps != [] {
      var w' := Take(cfg, w, steps[0]);
      HaltedStep(cfg, w, steps[0]);
      RunGrows(cfg, w', steps[1..]);
      id := HaltSafety(cfg, w', steps[1..]);
      if !steps[0].PersistDecision? {
        QuietIsOnlyAbout(w, w', id);
      }
      OnlyAboutCompose(w, w', TakeAll(cfg, w', steps[1..]), id);
    } else {
      NothingHappens(w);
      QuietIsOnlyAbout(w, w, id);
    }
  }

  /** The sweep cannot hold an order that is in flight: the response, when it comes, writes
      its own status over the sweep's mark. */
  lemma ResponseOverwritesSweep(cfg: Config, w: World, i: nat, exchangeId: string, status: string)
    requires w.phase.Sending? && w.phase.attempts > 0
    requires i < |w.orders| && w.orders[i].clientId == w.phase.request.clientId && w.orders[i].status == "pending"
    ensures Take(cfg, w, Sweep).orders[i].status == "cancelled_by_halt"
    ensures Take(cfg, Take(cfg, w, Sweep), Respond(exchangeId, status)).orders[i].status == status
  {
  }
}
