/** The halt monitor: on each tick it compares the HALT file with what it saw last, and on a
    rising edge marks every order still open as cancelled. */
module HaltActions {
  import opened Wrappers
  import opened Ticks
  import opened RiskMonitor
  import opened Protocol
  import opened KillSwitch

  class HaltMonitor {
    const kill: Switch
    const table: OrderTable
    var lastState: bool

    /** A file already present at start counts as seen. */
    constructor (kill: Switch, table: OrderTable)
      ensures this.kill == kill && this.table == table && lastState == kill.IsEngaged()
    {
      this.kill, this.table := kill, table;
      lastState := kill.IsEngaged();
    }

    method Sweep()
      modifies table
      ensures table.rows == SweptAll(old(table.rows))
    {
      var i := 0;
      while i < |table.rows|
        invariant 0 <= i <= |table.rows| == |old(table.rows)|
        invariant forall j :: 0 <= j < |table.rows| ==>
                    table.rows[j] == if j < i then Swept(old(table.rows)[j]) else old(table.rows)[j]
      {
        if IsOpen(table.rows[i].status) {
          table.rows := table.rows[i := table.rows[i].(status := "cancelled_by_halt")];
        }
        i := i + 1;
      }
    }

    /** One turn of the polling loop. */
    method Tick()
      modifies this`lastState, table
      ensures lastState == kill.IsEngaged()
      ensures table.rows == if kill.IsEngaged() && !old(lastState) then SweptAll(old(table.rows)) else old(table.rows)
    {
      var state := kill.IsEngaged();
      if state && !lastState {
        Sweep();
      }
      lastState := state;
    }
  }

  predicate NoneOpen(orders: seq<OrderRow>) {
    forall i :: 0 <= i < |orders| ==> !IsOpen(orders[i].status)
  }

  /** The sweep closes what is open, keeps what is not, and swept twice is swept once. */
  lemma SweepCloses(orders: seq<OrderRow>)
    ensures NoneOpen(SweptAll(orders))
    ensures NoneOpen(orders) <==> SweptAll(orders) == orders
    ensures SweptAll(SweptAll(orders)) == SweptAll(orders)
    ensures forall i :: 0 <= i < |orders| ==>
              SweptAll(orders)[i] == if orders[i].status in {"pending", "resting", "open"} then orders[i].(status := "cancelled_by_halt") else orders[i]
  {
    forall i | 0 <= i < |orders|
      ensures !IsOpen(SweptAll(orders)[i].status)
    {
      assert SweptAll(orders)[i] == Swept(orders[i]);
    }
    if NoneOpen(orders) {
      forall i | 0 <= i < |orders|
        ensures SweptAll(orders)[i] == orders[i]
      {
        assert !IsOpen(orders[i].status);
      }
    }
    if SweptAll(orders) == orders {
      forall i | 0 <= i < |orders|
        ensures !IsOpen(orders[i].status)
      {
        assert SweptAll(orders)[i] == Swept(orders[i]);
      }
    }
    var once := SweptAll(orders);
    forall i | 0 <= i < |orders|
      ensures SweptAll(once)[i] == once[i]
    {
      assert !IsOpen(once[i].status);
    }
  }

  /** Until the file goes, and while no other writer reopens a row. */
  predicate Undisturbed(steps: seq<Step>) {
    forall i :: 0 <= i < |steps| ==> steps[i] != Disengage && (steps[i].Restate? ==> !IsOpen(steps[i].status))
  }

  lemma StepKeepsClosed(cfg: Config, w: World, step: Step)
    requires w.halted && !PastCheck(w.phase) && NoneOpen(w.orders)
    requires Enabled(cfg, w, step) && Undisturbed([step])
    ensures var w' := Take(cfg, w, step); w'.halted && !PastCheck(w'.phase) && NoneOpen(w'.orders)
  {
    hide Opening;
    assert [step][0] == step;
    HaltedStep(cfg, w, step);
    if step.Sweep? {
      SweepCloses(w.orders);
    }
  }

  /** A sweep made with no order in flight stays complete: no row is pending, resting or open
      again while the halt lasts, whatever signals arrive and however often it crashes. */
  lemma {:induction false} SweepHolds(cfg: Config, w: World, steps: seq<Step>)
    requires w.halted && !PastCheck(w.phase) && NoneOpen(w.orders)
    requires IsRun(cfg, w, steps) && Undisturbed(steps)
    ensures NoneOpen(TakeAll(cfg, w, steps).orders)
    decreases |steps|
  {
    hide Take, Enabled, NoneOpen;
    if steps != [] {
      assert Undisturbed([steps[0]]);
      StepKeepsClosed(cfg, w, steps[0]);
      SweepHolds(cfg, Take(cfg, w, steps[0]), steps[1..]);
    }
  }

  // ---- Exactly when a sweep holds ------------------------------------------------------

  /** No undisturbed run from here ever shows an open row. */
  ghost predicate Holds(cfg: Config, w: World) {
    forall steps :: IsRun(cfg, w, steps) && Undisturbed(steps) ==> NoneOpen(TakeAll(cfg, w, steps).orders)
  }

  function LongestId(orders: seq<OrderRow>, decisions: seq<DecisionRow>): (n: nat)
    ensures forall i :: 0 <= i < |orders| ==> |orders[i].clientId| <= n
    ensures forall i :: 0 <= i < |decisions| && decisions[i].orderId != None ==> |decisions[i].orderId.value| <= n
  {
    if orders != [] then
      Max(|orders[|orders| - 1].clientId|, LongestId(orders[..|orders| - 1], decisions))
    else if decisions != [] then
      Max(|decisions[|decisions| - 1].orderId.GetOr("")|, LongestId(orders, decisions[..|decisions| - 1]))
    else 0
  }

  /** There is always an id not yet in the tables. */
  lemma FreshId(w: World) returns (id: string)
    ensures Unused(w, id)
  {
    id := seq(LongestId(w.orders, w.decisions) + 1, _ => 'x');
  }

  lemma OneStep(cfg: Config, w: World, step: Step)
    requires Enabled(cfg, w, step)
    ensures IsRun(cfg, w, [step]) && TakeAll(cfg, w, [step]) == Take(cfg, w, step)
  {
    hide Take, Enabled;
    assert IsRun(cfg, Take(cfg, w, step), []);
    assert [step][1..] == [];
  }

  lemma TwoSteps(cfg: Config, w: World, first: Step, second: Step)
    requires Enabled(cfg, w, first) && Enabled(cfg, Take(cfg, w, first), second)
    ensures IsRun(cfg, w, [first, second])
    ensures TakeAll(cfg, w, [first, second]) == Take(cfg, Take(cfg, w, first), second)
  {
    hide Take, Enabled;
    OneStep(cfg, Take(cfg, w, first), second);
    assert [first, second][1..] == [second];
  }

  lemma RowComes(cfg: Config, w: World)
    requires w.phase.Decided?
    ensures !NoneOpen(Take(cfg, w, PersistOrder).orders)
  {
    assert Take(cfg, w, PersistOrder).orders[|w.orders|].status == "pending";
  }

  lemma AnswerComes(cfg: Config, w: World)
    requires WriteAhead(w) && w.phase.Sending? && w.phase.attempts > 0
    ensures !NoneOpen(Take(cfg, w, Respond("", "resting")).orders)
  {
    hide Evaluate;
    var i :| 0 <= i < |w.orders| && RequestOf(w.orders[i]) == w.phase.request;
    assert Take(cfg, w, Respond("", "resting")).orders[i].status == "resting";
  }

  /** The run that undoes a sweep, for each place past the risk check. */
  lemma Reopens(cfg: Config, w: World) returns (steps: seq<Step>)
    requires WriteAhead(w) && PastCheck(w.phase)
    ensures IsRun(cfg, w, steps) && Undisturbed(steps) && !NoneOpen(TakeAll(cfg, w, steps).orders)
  {
    hide IsRun, TakeAll, Evaluate, WriteAhead, NoneOpen;
    if w.phase.Passed? {
      var id := FreshId(w);
      steps := [PersistDecision(id), PersistOrder];
      TwoSteps(cfg, w, steps[0], steps[1]);
      RowComes(cfg, Take(cfg, w, steps[0]));
    } else if w.phase.Decided? {
      steps := [PersistOrder];
      OneStep(cfg, w, steps[0]);
      RowComes(cfg, w);
    } else if w.phase.attempts > 0 {
      steps := [Respond("", "resting")];
      OneStep(cfg, w, steps[0]);
      AnswerComes(cfg, w);
    } else {
      steps := [Post, Respond("", "resting")];
      TwoSteps(cfg, w, steps[0], steps[1]);
      StepKeepsWriteAhead(cfg, w, Post);
      AnswerComes(cfg, Take(cfg, w, Post));
    }
  }

  /** With no open row while halted, none is ever open again if and only if no signal is past
      its risk check. */
  lemma HoldsIffNoneInFlight(cfg: Config, w: World)
    requires WriteAhead(w) && w.halted && NoneOpen(w.orders)
    ensures Holds(cfg, w) <==> !PastCheck(w.phase)
  {
    hide IsRun, TakeAll, NoneOpen, WriteAhead;
    if PastCheck(w.phase) {
      var steps := Reopens(cfg, w);
    } else {
      forall steps | IsRun(cfg, w, steps) && Undisturbed(steps)
        ensures NoneOpen(TakeAll(cfg, w, steps).orders)
      {
        SweepHolds(cfg, w, steps);
      }
    }
  }

  /** The sweep made now lasts as long as the halt if and only if it finds no order, and no
      approved signal, in flight. */
  lemma SweepHoldsIffNoneInFlight(cfg: Config, w: World)
    requires WriteAhead(w) && w.halted
    ensures Holds(cfg, Take(cfg, w, Sweep)) <==> !PastCheck(w.phase)
  {
    hide Holds, WriteAhead, NoneOpen;
    StepKeepsWriteAhead(cfg, w, Sweep);
    SweepCloses(w.orders);
    HoldsIffNoneInFlight(cfg, Take(cfg, w, Sweep));
  }
}
