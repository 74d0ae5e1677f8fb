/** The executor itself: one signal, from expiry test to the answer of the exchange, as the
    straight-line code that holds the lock. Each call is proved to be an uninterrupted run of
    the protocol's steps. */
module Execution {
  import opened Wrappers
  import opened Ticks
  import opened Positions
  import opened SlidingWindow
  import opened RiskMonitor
  import opened Protocol
  import Client
  import Pnl

  /** What the market request brought back: an error the executor catches, one it does not, or
      the market's state. */
  datatype MarketAnswer = FetchFailed | FetchRaised | Market(active: bool, ask: Option<int>, category: string)

  /** The order as the body of the exchange's answer shows it. */
  datatype Placed = Placed(exchangeId: string, status: string)

  /** How `create_order` ended: a response, an error of the two kinds the executor catches, or
      one it does not catch. */
  datatype SendAnswer = Accepted(order: Placed) | ErrorCaught | ErrorRaised

  /** Everything the call reads from outside: expiry at the start and before sending, the two
      fetches (no bankroll when its request raises), the clock at the check, at the recording
      of the attempt, at the recording of a failed send and after it, the local day, the
      positions, a new id, the replies to the posts, and the order in the body of a successful
      one (None when it cannot be read). */
  datatype Inputs = Inputs(
    expired: bool, market: MarketAnswer, bankroll: Option<real>, expiredPreflight: bool,
    now: real, recorded: real, failed: real, later: real, today: int, book: map<string, Position>,
    clientId: string, replies: nat -> Client.Reply, body: Option<Placed>)
  {
    predicate InOrder() {
      now <= recorded <= failed <= later
    }

    /** Posts made by `create_order`. */
    function Attempts(): (n: nat)
      ensures n <= MAX_ATTEMPTS
    {
      Client.PostCount(replies, MAX_ATTEMPTS)
    }

    function Answer(): (a: SendAnswer)
      ensures a.Accepted? ==> Attempts() > 0
    {
      match Client.Outcome(replies, MAX_ATTEMPTS)
      case Body => if body == None then ErrorRaised else Accepted(body.value)
      case AuthError => ErrorCaught
      case ApiError => ErrorCaught
      case _ => ErrorRaised
    }

    /** The status this call leaves on the order row it inserts. */
    function FinalStatus(): string {
      match Answer()
      case Accepted(order) => order.status
      case ErrorCaught => "send_failed"
      case ErrorRaised => "pending"
    }

    /** And the exchange's id for it. */
    function FinalId(): Option<string> {
      match Answer()
      case Accepted(order) => Some(order.exchangeId)
      case _ => None
    }

    /** The send fails in a way the executor records. */
    predicate SendFails() {
      Answer() == ErrorCaught
    }

    /** The signal comes as far as the risk check. */
    predicate ReachesGate() {
      && !expired && market.Market? && market.active && market.ask != None
      && bankroll != None && bankroll.value > 0.0
    }
  }

  /** The orders table once the answer is written. */
  function Answered(rows: seq<OrderRow>, io: Inputs): seq<OrderRow> {
    match io.Answer()
    case Accepted(order) => Updated(rows, io.clientId, Some(order.exchangeId), order.status)
    case ErrorCaught => Updated(rows, io.clientId, None, "send_failed")
    case ErrorRaised => rows
  }

  /** The row as this call leaves it. */
  function FinalRow(signal: Signal, contracts: int, price: int, io: Inputs, decision: nat): OrderRow {
    OrderRow(io.clientId, io.FinalId(), signal.ticker, signal.side, contracts, price, io.FinalStatus(), decision)
  }

  lemma AnsweredRow(rows: seq<OrderRow>, signal: Signal, contracts: int, price: int, io: Inputs, decision: nat)
    requires forall i :: 0 <= i < |rows| ==> rows[i].clientId != io.clientId
    ensures var o := OrderRow(io.clientId, None, signal.ticker, signal.side, contracts, price, "pending", decision);
            Answered(rows + [o], io) == rows + [FinalRow(signal, contracts, price, io, decision)]
  {
    hide Client.Outcome, Client.PostCount;
  }

  /** A reply of that kind ends the request: only retried ones precede it. */
  ghost predicate EndsWith(replies: nat -> Client.Reply, last: Client.Reply) {
    exists k :: 0 <= k < MAX_ATTEMPTS && replies(k) == last && forall i :: 0 <= i < k ==> Client.Retried(replies(i))
  }

  lemma EndsWithVerdict(replies: nat -> Client.Reply, last: Client.Reply)
    requires EndsWith(replies, last) && !Client.Retried(last)
    ensures Client.Outcome(replies, MAX_ATTEMPTS) == Client.Verdict(last)
  {
    var k :| 0 <= k < MAX_ATTEMPTS && replies(k) == last && forall i :: 0 <= i < k ==> Client.Retried(replies(i));
    Client.EndsOnce(replies, MAX_ATTEMPTS, k + 1, Client.PostCount(replies, MAX_ATTEMPTS));
  }

  lemma BodyIff(replies: nat -> Client.Reply)
    ensures Client.Outcome(replies, MAX_ATTEMPTS) == Client.Body <==> EndsWith(replies, Client.Success)
  {
    if EndsWith(replies, Client.Success) {
      EndsWithVerdict(replies, Client.Success);
    }
    if Client.Outcome(replies, MAX_ATTEMPTS) == Client.Body {
      assert replies(Client.PostCount(replies, MAX_ATTEMPTS) - 1) == Client.Success;
    }
  }

  /** The row shows what became of the request: the exchange's id and status after a success
      that can be read; "send_failed" without an id after a refusal, or when every post failed
      retryably and what was left behind is not a transport error. */
  lemma RowShowsAnswer(io: Inputs)
    ensures EndsWith(io.replies, Client.Success) && io.body != None ==>
              io.FinalStatus() == io.body.value.status && io.FinalId() == Some(io.body.value.exchangeId)
    ensures EndsWith(io.replies, Client.AuthRefused) || EndsWith(io.replies, Client.ClientError) ==>
              io.FinalStatus() == "send_failed" && io.FinalId() == None && io.SendFails()
    ensures (forall i :: 0 <= i < MAX_ATTEMPTS ==> Client.Retried(io.replies(i))) && !Client.TransportLast(io.replies, MAX_ATTEMPTS) ==>
              io.FinalStatus() == "send_failed" && io.FinalId() == None && io.SendFails()
  {
    hide Client.TransportLast;
    if EndsWith(io.replies, Client.Success) { EndsWithVerdict(io.replies, Client.Success); }
    if EndsWith(io.replies, Client.AuthRefused) { EndsWithVerdict(io.replies, Client.AuthRefused); }
    if EndsWith(io.replies, Client.ClientError) { EndsWithVerdict(io.replies, Client.ClientError); }
    if forall i :: 0 <= i < MAX_ATTEMPTS ==> Client.Retried(io.replies(i)) {
      Client.LastFailureIs(io.replies, MAX_ATTEMPTS);
      Client.EndsOnce(io.replies, MAX_ATTEMPTS, MAX_ATTEMPTS, Client.PostCount(io.replies, MAX_ATTEMPTS));
    }
  }

  /** The row an order gets is still pending when its signal is done in exactly these cases: a
      success ends the request and its body says so or cannot be read; a 429 whose header is
      no number ends it; or every post failed retryably and only 429s follow the last
      transport error. Unless the body says so, it stays pending until the next start. */
  lemma LeftPendingIff(io: Inputs)
    ensures io.FinalStatus() == "pending" <==>
            || (EndsWith(io.replies, Client.Success) && (io.body == None || io.body.value.status == "pending"))
            || EndsWith(io.replies, Client.NO_NUMBER)
            || ((forall i :: 0 <= i < MAX_ATTEMPTS ==> Client.Retried(io.replies(i))) && Client.TransportLast(io.replies, MAX_ATTEMPTS))
  {
    hide Client.Outcome, Client.TransportLast;
    Client.EscapesIff(io.replies, MAX_ATTEMPTS);
    BodyIff(io.replies);
  }

  function Posts(n: nat): seq<Step> {
    if n == 0 then [] else Posts(n - 1) + [Post]
  }

  /** The steps a call takes, from what it meets: the view and request the gate was asked with,
      and whether an error it recorded left the kill switch engaged. */
  ghost function Script(cfg: Config, signal: Signal, io: Inputs, view: View, request: Request, spike: bool): seq<Step> {
    [Begin(signal)] +
    (if io.expired then [Refuse(false)]
     else if io.market.FetchFailed? then [Refuse(spike)]
     else if io.market.FetchRaised? then [Abandon]
     else if !io.market.active || io.market.ask == None then [Refuse(false)]
     else if io.bankroll == None then [Abandon]
     else if io.bankroll.value <= 0.0 then [Refuse(false)]
     else CheckScript(cfg, io, view, request, spike))
  }

  ghost function CheckScript(cfg: Config, io: Inputs, view: View, request: Request, spike: bool): seq<Step> {
    [Check(view, request)] +
    (if Evaluate(cfg, view, request).Rejected? then []
     else if io.expiredPreflight then [ExpirePreflight]
     else PlaceScript(io, spike))
  }

  function PlaceScript(io: Inputs, spike: bool): seq<Step> {
    [PersistDecision(io.clientId), PersistOrder] + (Posts(io.Attempts()) + [Ending(io.Answer(), spike)])
  }

  function Ending(answer: SendAnswer, spike: bool): Step {
    match answer
    case Accepted(order) => Respond(order.exchangeId, order.status)
    case ErrorCaught => SendFailed(spike)
    case ErrorRaised => Abandon
  }

  /** The request built from a signal and a market's answer. */
  function RequestFor(signal: Signal, io: Inputs): Request {
    var (ask, category) := if io.market.Market? then (io.market.ask.GetOr(0), io.market.category) else (0, "");
    Request(signal.ticker, signal.side, signal.probability, ask, signal.confidence, io.bankroll.GetOr(0.0), category)
  }

  /** What the gate says of the signal: asked with the market's ask and category, the bankroll,
      the switch, the attempts of the last minute, the day's profit and the positions. */
  ghost function GateSays(cfg: Config, signal: Signal, io: Inputs, engaged: bool, log: seq<real>, days: Pnl.Days): Decision {
    var (ask, category) := match io.market case Market(_, a, c) => (a.GetOr(0), c) case _ => (0, "");
    Evaluate(cfg,
             View(engaged, Min(MAXLEN, CountSince(log, io.now - 60.0)), Pnl.Since(days, io.today, io.book), io.book),
             Request(signal.ticker, signal.side, signal.probability, ask, signal.confidence, io.bankroll.GetOr(0.0), category))
  }

  /** A fetch raises an exception the executor does not catch. */
  predicate Raises(io: Inputs) {
    && !io.expired
    && (io.market.FetchRaised? || (io.market.Market? && io.market.active && io.market.ask != None && io.bankroll == None))
  }

  function DecisionCount(d: Decision): int {
    match d
    case Approved(n, _, _) => n
    case Rejected(_) => 0
  }

  lemma SomethingPosted(sent: seq<Sent>, request: Sent, io: Inputs)
    ensures sent + Repeated(request, io.Attempts()) != sent
  {
    hide Client.PostCount;
    assert io.Attempts() > 0;
    assert |sent + Repeated(request, io.Attempts())| > |sent|;
  }

  lemma {:induction false} TakeMore(cfg: Config, w: World, path: seq<Step>, step: Step)
    requires IsRun(cfg, w, path) && Enabled(cfg, TakeAll(cfg, w, path), step)
    ensures IsRun(cfg, w, path + [step])
    ensures TakeAll(cfg, w, path + [step]) == Take(cfg, TakeAll(cfg, w, path), step)
    decreases |path|
  {
    hide Take, Enabled;
    if path == [] {
      assert path + [step] == [step];
    } else {
      assert (path + [step])[1..] == path[1..] + [step];
      TakeMore(cfg, Take(cfg, w, path[0]), path[1..], step);
    }
  }

  class Executor {
    const monitor: Monitor
    const table: OrderTable
    var decisions: seq<DecisionRow>
    var sent: seq<Sent>
    /** Every order attempt with the clock of its check and of its recording. */
    ghost var attempts: seq<Attempt>

    constructor (monitor: Monitor, table: OrderTable)
      requires monitor.Valid() && monitor.orderLog == []
      ensures this.monitor == monitor && this.table == table && decisions == [] && sent == []
      ensures attempts == [] && RateKept()
    {
      this.monitor, this.table := monitor, table;
      decisions, sent, attempts := [], [], [];
    }

    /** The attempts made so far passed the order-rate guard one by one. */
    ghost predicate RateKept()
      reads this, monitor
    {
      monitor.Valid() && Guarded(attempts, monitor.cfg.maxOrdersPerMinute) && Log(attempts) == monitor.orderLog
    }

    /** The protocol state this executor is in, at the given place in its work. */
    ghost function At(phase: Phase): World
      reads this, table, monitor.kill
    {
      World(monitor.kill.IsEngaged(), decisions, table.rows, sent, phase)
    }

    method PersistDecision(signal: Signal, accepted: bool, orderId: Option<string>) returns (row: nat)
      modifies this`decisions
      ensures decisions == old(decisions) + [DecisionRow(signal.ticker, signal.side, accepted, orderId)]
      ensures row == |old(decisions)|
    {
      row := |decisions|;
      decisions := decisions + [DecisionRow(signal.ticker, signal.side, accepted, orderId)];
    }

    method HandleSignal(signal: Signal, io: Inputs) returns (ghost path: seq<Step>)
      requires RateKept() && io.InOrder()
      requires forall t :: t in monitor.orderLog || t in monitor.errorLog ==> t <= io.now
      requires Unused(At(Idle), io.clientId)
      modifies this, table, monitor, monitor.kill
      ensures IsRun(monitor.cfg, old(At(Idle)), path)
      ensures TakeAll(monitor.cfg, old(At(Idle)), path) == At(Idle)
      ensures path == Script(monitor.cfg, signal, io,
                             View(old(monitor.kill.IsEngaged()), Min(MAXLEN, CountSince(old(monitor.orderLog), io.now - 60.0)),
                                  Pnl.Since(monitor.snapshots.days, io.today, io.book), io.book),
                             RequestFor(signal, io), monitor.kill.IsEngaged())
      ensures RateKept()
      ensures attempts == old(attempts) + if |table.rows| > |old(table.rows)| then [Attempt(io.now, io.recorded)] else []
      // Something is sent if and only if nothing at all stands against it.
      ensures sent != old(sent) <==>
              && !io.expired && io.market.Market? && io.market.active && io.market.ask != None
              && io.bankroll != None && io.bankroll.value > 0.0
              && GateSays(monitor.cfg, signal, io, old(monitor.kill.IsEngaged()), old(monitor.orderLog), monitor.snapshots.days).Approved?
              && !io.expiredPreflight
      // Then one decision is accepted, one order row inserted and one request posted, all for
      // the contracts the gate approved at the ask.
      ensures sent != old(sent) ==>
                var d := GateSays(monitor.cfg, signal, io, old(monitor.kill.IsEngaged()), old(monitor.orderLog), monitor.snapshots.days);
                && io.market.Market? && io.market.ask != None && d.Approved?
                && sent == old(sent) + Repeated(Sent(io.clientId, signal.ticker, signal.side, d.contracts, io.market.ask.value), io.Attempts())
                && decisions == old(decisions) + [DecisionRow(signal.ticker, signal.side, true, Some(io.clientId))]
                && table.rows == old(table.rows) + [FinalRow(signal, d.contracts, io.market.ask.value, io, |old(decisions)|)]
      // Otherwise nothing is ordered, and the signal is refused on record or, if a fetch
      // raises, dropped.
      ensures sent == old(sent) ==>
                && table.rows == old(table.rows)
                && (decisions == old(decisions) + [Rejection(signal)] || (decisions == old(decisions) && Raises(io)))
      // Errors it catches are recorded, and the switch is engaged by these and the gate alone.
      ensures monitor.errorLog == old(monitor.errorLog) +
                if !io.expired && io.market.FetchFailed? then [io.now]
                else if sent != old(sent) && io.SendFails() then [io.failed] else []
      ensures monitor.kill.IsEngaged() <==>
              || old(monitor.kill.IsEngaged())
              || (monitor.errorLog != old(monitor.errorLog) && SpikeAt(monitor.cfg, monitor.errorLog, io.later))
              || (io.ReachesGate() && Trips(GateSays(monitor.cfg, signal, io, old(monitor.kill.IsEngaged()), old(monitor.orderLog), monitor.snapshots.days)))
    {
      hide SpikeAt, Evaluate, CountSince, Recent, Sorted, Guarded, Log, CheckScript, Unused, Pnl.Since, Client.PostCount, Client.Outcome;
      ghost var cfg, start, log := monitor.cfg, At(Idle), monitor.orderLog;
      path := Did(cfg, start, [], start, Begin(signal), At(Fetching(signal)));
      if io.expired {
        path := RefuseSignal(signal, start, path);
        return;
      }
      if io.market.FetchFailed? {
        ghost var before := At(Fetching(signal));
        monitor.RecordError(io.now, io.later);
        var _ := PersistDecision(signal, false, None);
        path := Did(cfg, start, path, before, Refuse(monitor.kill.IsEngaged()), At(Idle));
        return;
      }
      if io.market.FetchRaised? {
        path := Did(cfg, start, path, At(Fetching(signal)), Abandon, At(Idle));
        return;
      }
      if !io.market.active || io.market.ask == None {
        path := RefuseSignal(signal, start, path);
        return;
      }
      if io.bankroll == None {
        path := Did(cfg, start, path, At(Fetching(signal)), Abandon, At(Idle));
        return;
      }
      if io.bankroll.value <= 0.0 {
        path := RefuseSignal(signal, start, path);
        return;
      }
      ghost var sent0 := sent;
      path := Decide(signal, io, start, path);
      SomethingPosted(sent0, Sent(io.clientId, signal.ticker, signal.side, DecisionCount(GateSays(cfg, signal, io, start.halted, log, monitor.snapshots.days)), io.market.ask.value), io);
    }

    /** What the risk check's decision leads to, on the tables. */
    ghost predicate Concluded(signal: Signal, io: Inputs, sent0: seq<Sent>, decisions0: seq<DecisionRow>, rows0: seq<OrderRow>,
                              errors0: seq<real>, engaged0: bool, d: Decision)
      reads this, table, monitor, monitor.kill
    {
      && (d.Approved? && !io.expiredPreflight && io.market.Market? && io.market.ask != None ==>
            && sent == sent0 + Repeated(Sent(io.clientId, signal.ticker, signal.side, d.contracts, io.market.ask.value), io.Attempts())
            && decisions == decisions0 + [DecisionRow(signal.ticker, signal.side, true, Some(io.clientId))]
            && table.rows == rows0 + [FinalRow(signal, d.contracts, io.market.ask.value, io, |decisions0|)]
            && monitor.errorLog == errors0 + (if io.SendFails() then [io.failed] else [])
            && (monitor.kill.IsEngaged() <==> engaged0 || (io.SendFails() && SpikeAt(monitor.cfg, monitor.errorLog, io.later))))
      && (d.Rejected? || io.expiredPreflight ==>
            && sent == sent0 && table.rows == rows0 && decisions == decisions0 + [Rejection(signal)]
            && monitor.errorLog == errors0 && (monitor.kill.IsEngaged() <==> engaged0 || Trips(d)))
    }

    /** From the risk check on. */
    method Decide(signal: Signal, io: Inputs, ghost start: World, ghost path: seq<Step>) returns (ghost longer: seq<Step>)
      requires RateKept() && io.InOrder()
      requires forall t :: t in monitor.orderLog || t in monitor.errorLog ==> t <= io.now
      requires Unused(At(Idle), io.clientId)
      requires io.market.Market? && io.market.ask != None && io.bankroll != None
      requires IsRun(monitor.cfg, start, path) && TakeAll(monitor.cfg, start, path) == At(Fetching(signal))
      modifies this, table, monitor, monitor.kill
      ensures IsRun(monitor.cfg, start, longer) && TakeAll(monitor.cfg, start, longer) == At(Idle)
      ensures longer == path + CheckScript(monitor.cfg, io,
                               View(old(monitor.kill.IsEngaged()), Min(MAXLEN, CountSince(old(monitor.orderLog), io.now - 60.0)),
                                  Pnl.Since(monitor.snapshots.days, io.today, io.book), io.book),
                               RequestFor(signal, io), monitor.kill.IsEngaged())
      ensures RateKept()
      ensures attempts == old(attempts) + if |table.rows| > |old(table.rows)| then [Attempt(io.now, io.recorded)] else []
      ensures Concluded(signal, io, old(sent), old(decisions), old(table.rows), old(monitor.errorLog), old(monitor.kill.IsEngaged()),
                      GateSays(monitor.cfg, signal, io, old(monitor.kill.IsEngaged()), old(monitor.orderLog), monitor.snapshots.days))
    {
      hide SpikeAt, Evaluate, CountSince, Recent, Sorted, Guarded, Log, Unused, PlaceScript, IsRun, TakeAll, Pnl.Since, Client.PostCount, Client.Outcome;
      ghost var cfg := monitor.cfg;
      var price := io.market.ask.value;
      var request := Request(signal.ticker, signal.side, signal.probability, price, signal.confidence, io.bankroll.value, io.market.category);
      ghost var view := View(monitor.kill.IsEngaged(), Min(MAXLEN, CountSince(monitor.orderLog, io.now - 60.0)), Pnl.Since(monitor.snapshots.days, io.today, io.book), io.book);
      ghost var fetching := At(Fetching(signal));
      var decision := monitor.CheckTrade(request, io.now, io.today, io.book);
      if decision.Rejected? {
        var _ := PersistDecision(signal, false, None);
        longer := Did(cfg, start, path, fetching, Check(view, request), At(Idle));
        return;
      }
      ghost var passed := At(Passed(signal, price, decision.contracts));
      longer := Did(cfg, start, path, fetching, Check(view, request), passed);
      ApprovedWithinLimits(cfg, view, request);
      DequeCountsTheLog(monitor.orderLog, io.now - 60.0);
      if io.expiredPreflight {
        var _ := PersistDecision(signal, false, None);
        longer := Did(cfg, start, longer, passed, ExpirePreflight, At(Idle));
        return;
      }
      ghost var checked := longer;
      longer := Place(signal, price, decision.contracts, io, start, checked);
    }

    /** Refusal before the risk check. */
    method RefuseSignal(signal: Signal, ghost start: World, ghost path: seq<Step>) returns (ghost longer: seq<Step>)
      requires IsRun(monitor.cfg, start, path) && TakeAll(monitor.cfg, start, path) == At(Fetching(signal))
      modifies this`decisions
      ensures IsRun(monitor.cfg, start, longer) && TakeAll(monitor.cfg, start, longer) == At(Idle)
      ensures longer == path + [Refuse(false)] && decisions == old(decisions) + [Rejection(signal)]
    {
      hide Evaluate;
      ghost var before := At(Fetching(signal));
      var _ := PersistDecision(signal, false, None);
      longer := Did(monitor.cfg, start, path, before, Refuse(false), At(Idle));
    }

    /** Write-ahead and sending of an approved, unexpired signal. */
    method Place(signal: Signal, price: int, contracts: int, io: Inputs, ghost start: World, ghost path: seq<Step>)
      returns (ghost longer: seq<Step>)
      requires RateKept() && io.InOrder()
      requires forall t :: t in monitor.orderLog || t in monitor.errorLog ==> t <= io.now
      requires Unused(At(Idle), io.clientId)
      requires IsRun(monitor.cfg, start, path) && TakeAll(monitor.cfg, start, path) == At(Passed(signal, price, contracts))
      requires CountSince(Recent(monitor.orderLog), io.now - 60.0) < monitor.cfg.maxOrdersPerMinute
      modifies this, table, monitor, monitor.kill
      ensures IsRun(monitor.cfg, start, longer) && TakeAll(monitor.cfg, start, longer) == At(Idle)
      ensures longer == path + PlaceScript(io, monitor.kill.IsEngaged())
      ensures RateKept() && attempts == old(attempts) + [Attempt(io.now, io.recorded)]
      ensures sent == old(sent) + Repeated(Sent(io.clientId, signal.ticker, signal.side, contracts, price), io.Attempts())
      ensures decisions == old(decisions) + [DecisionRow(signal.ticker, signal.side, true, Some(io.clientId))]
      ensures table.rows == old(table.rows) + [FinalRow(signal, contracts, price, io, |old(decisions)|)]
      ensures monitor.errorLog == old(monitor.errorLog) + (if io.SendFails() then [io.failed] else [])
      ensures monitor.kill.IsEngaged() <==> old(monitor.kill.IsEngaged()) || (io.SendFails() && SpikeAt(monitor.cfg, monitor.errorLog, io.later))
    {
      hide SpikeAt, Evaluate, CountSince, Recent, Sorted, Guarded, Log, IsRun, TakeAll, Posts;
      ghost var cfg := monitor.cfg;
      ghost var passed := At(Passed(signal, price, contracts));
      var row := PersistDecision(signal, true, Some(io.clientId));
      ghost var decided := At(Decided(signal, price, contracts, io.clientId, row));
      longer := Did(cfg, start, path, passed, Step.PersistDecision(io.clientId), decided);
      ghost var rows := table.rows;
      var pending := OrderRow(io.clientId, None, signal.ticker, signal.side, contracts, price, "pending", row);
      table.rows := table.rows + [pending];
      AttemptPasses(attempts, Attempt(io.now, io.recorded), cfg.maxOrdersPerMinute);
      attempts := attempts + [Attempt(io.now, io.recorded)];
      monitor.RecordOrderAttempt(io.recorded);
      var request := Sent(io.clientId, signal.ticker, signal.side, contracts, price);
      longer := Did(cfg, start, longer, decided, PersistOrder, At(Sending(request, 0)));
      AnsweredRow(rows, signal, contracts, price, io, row);
      longer := Send(request, io, start, longer);
    }

    /** `create_order`, and its answer. */
    method Send(request: Sent, io: Inputs, ghost start: World, ghost path: seq<Step>) returns (ghost longer: seq<Step>)
      requires RateKept() && io.InOrder()
      requires forall t :: t in monitor.errorLog ==> t <= io.recorded
      requires request.clientId == io.clientId
      requires IsRun(monitor.cfg, start, path) && TakeAll(monitor.cfg, start, path) == At(Sending(request, 0))
      modifies this`sent, table, monitor, monitor.kill
      ensures IsRun(monitor.cfg, start, longer) && TakeAll(monitor.cfg, start, longer) == At(Idle)
      ensures longer == path + (Posts(io.Attempts()) + [Ending(io.Answer(), monitor.kill.IsEngaged())])
      ensures sent == old(sent) + Repeated(request, io.Attempts())
      ensures RateKept() && table.rows == Answered(old(table.rows), io)
      ensures monitor.errorLog == old(monitor.errorLog) + (if io.SendFails() then [io.failed] else [])
      ensures monitor.kill.IsEngaged() <==> old(monitor.kill.IsEngaged()) || (io.SendFails() && SpikeAt(monitor.cfg, monitor.errorLog, io.later))
    {
      hide SpikeAt, Evaluate, CountSince, Recent, Sorted, Guarded, Log, IsRun, TakeAll, Client.PostCount, Client.Outcome, Client.Slept;
      ghost var cfg, before := monitor.cfg, At(Sending(request, 0));
      var result, posts, _ := Client.Request(io.replies, MAX_ATTEMPTS);
      sent := sent + Repeated(request, posts);
      PostsTaken(cfg, start, path, before, request, posts);
      ghost var posted := path + Posts(posts);
      assert TakeAll(cfg, start, posted) == At(Sending(request, posts));
      longer := Conclude(request, result, io, start, posted);
    }

    /** The answer to the request, whatever it is. */
    method Conclude(request: Sent, result: Client.Result, io: Inputs, ghost start: World, ghost path: seq<Step>) returns (ghost longer: seq<Step>)
      requires monitor.Valid() && io.InOrder() && result == Client.Outcome(io.replies, MAX_ATTEMPTS)
      requires forall t :: t in monitor.errorLog ==> t <= io.recorded
      requires request.clientId == io.clientId
      requires IsRun(monitor.cfg, start, path) && TakeAll(monitor.cfg, start, path) == At(Sending(request, io.Attempts()))
      modifies table, monitor, monitor.kill
      ensures monitor.Valid() && monitor.orderLog == old(monitor.orderLog) && table.rows == Answered(old(table.rows), io)
      ensures IsRun(monitor.cfg, start, longer) && TakeAll(monitor.cfg, start, longer) == At(Idle)
      ensures longer == path + [Ending(io.Answer(), monitor.kill.IsEngaged())]
      ensures monitor.errorLog == old(monitor.errorLog) + (if io.SendFails() then [io.failed] else [])
      ensures monitor.kill.IsEngaged() <==> old(monitor.kill.IsEngaged()) || (io.SendFails() && SpikeAt(monitor.cfg, monitor.errorLog, io.later))
    {
      hide SpikeAt, Evaluate, CountSince, Recent, Sorted, IsRun, TakeAll, Client.PostCount, Client.Outcome;
      ghost var cfg, sending := monitor.cfg, At(Sending(request, io.Attempts()));
      match result {
        case Body =>
          if io.body == None {
            longer := Did(cfg, start, path, sending, Abandon, At(Idle));
          } else {
            var order := io.body.value;
            table.rows := Updated(table.rows, io.clientId, Some(order.exchangeId), order.status);
            longer := Did(cfg, start, path, sending, Respond(order.exchangeId, order.status), At(Idle));
          }
        case ApiError =>
          longer := Fail(request, io, start, path);
        case AuthError =>
          longer := Fail(request, io, start, path);
        case _ =>
          longer := Did(cfg, start, path, sending, Abandon, At(Idle));
      }
    }

    /** An error the executor catches. */
    method Fail(request: Sent, io: Inputs, ghost start: World, ghost path: seq<Step>) returns (ghost longer: seq<Step>)
      requires monitor.Valid() && io.InOrder() && io.Answer() == ErrorCaught
      requires forall t :: t in monitor.errorLog ==> t <= io.recorded
      requires request.clientId == io.clientId
      requires IsRun(monitor.cfg, start, path) && TakeAll(monitor.cfg, start, path) == At(Sending(request, io.Attempts()))
      modifies table, monitor, monitor.kill
      ensures monitor.Valid() && monitor.orderLog == old(monitor.orderLog) && table.rows == Answered(old(table.rows), io)
      ensures monitor.errorLog == old(monitor.errorLog) + [io.failed]
      ensures monitor.kill.IsEngaged() <==> old(monitor.kill.IsEngaged()) || SpikeAt(monitor.cfg, monitor.errorLog, io.later)
      ensures IsRun(monitor.cfg, start, longer) && TakeAll(monitor.cfg, start, longer) == At(Idle)
      ensures longer == path + [SendFailed(monitor.kill.IsEngaged())]
    {
      hide SpikeAt, Evaluate, CountSince, Recent, Sorted, IsRun, TakeAll, Client.PostCount, Client.Outcome;
      ghost var cfg, sending := monitor.cfg, At(Sending(request, io.Attempts()));
      monitor.RecordError(io.failed, io.later);
      table.rows := Updated(table.rows, io.clientId, None, "send_failed");
      longer := Did(cfg, start, path, sending, SendFailed(monitor.kill.IsEngaged()), At(Idle));
    }
  }

  function Repeated(request: Sent, n: nat): seq<Sent> {
    seq(n, _ => request)
  }

  /** The posts of one request, one after the other. */
  lemma {:induction false} PostsTaken(cfg: Config, start: World, path: seq<Step>, w: World, request: Sent, n: nat)
    requires IsRun(cfg, start, path) && TakeAll(cfg, start, path) == w
    requires w.phase == Sending(request, 0) && n <= MAX_ATTEMPTS
    ensures IsRun(cfg, start, path + Posts(n))
    ensures TakeAll(cfg, start, path + Posts(n)) == w.(sent := w.sent + Repeated(request, n), phase := Sending(request, n))
  {
    hide IsRun, TakeAll;
    if n == 0 {
      assert path + Posts(0) == path;
      assert w.sent + Repeated(request, 0) == w.sent;
    } else {
      PostsTaken(cfg, start, path, w, request, n - 1);
      var before := w.(sent := w.sent + Repeated(request, n - 1), phase := Sending(request, n - 1));
      TakeMore(cfg, start, path + Posts(n - 1), Post);
      assert path + Posts(n) == path + Posts(n - 1) + [Post];
      assert before.sent + [request] == w.sent + Repeated(request, n);
    }
  }

  /** An attempt admitted by the gate extends the guarded run. */
  lemma AttemptPasses(run: seq<Attempt>, next: Attempt, limit: int)
    requires Guarded(run, limit) && next.checked <= next.recorded
    requires forall t :: t in Log(run) ==> t <= next.checked
    requires CountSince(Recent(Log(run)), next.checked - 60.0) < limit
    ensures Guarded(run + [next], limit) && Log(run + [next]) == Log(run) + [next.recorded]
  {
    hide CountSince, Recent;
    if run != [] {
      assert Log(run)[|run| - 1] in Log(run);
    }
    OneMore(run, next, limit);
  }

  /** One step more. */
  lemma Did(cfg: Config, start: World, path: seq<Step>, w: World, step: Step, w': World) returns (longer: seq<Step>)
    requires IsRun(cfg, start, path) && TakeAll(cfg, start, path) == w
    requires Enabled(cfg, w, step) && Take(cfg, w, step) == w'
    ensures longer == path + [step] && IsRun(cfg, start, longer) && TakeAll(cfg, start, longer) == w'
  {
    longer := path + [step];
    TakeMore(cfg, start, path, step);
  }
}
