/** Startup recovery: every order left pending by the last process is looked up among the
    exchange's orders, by client id first, and either adopts what is found or is lost. */
module Recovery {
  import opened Wrappers
  import opened Protocol

  datatype Remote = Remote(orderId: string, clientId: Option<string>, status: string)

  /** The last listed order with this client id; an empty id is no id. */
  function ByClient(remotes: seq<Remote>, id: string): Option<Remote> {
    if remotes == [] || id == "" then None
    else if remotes[|remotes| - 1].clientId == Some(id) then Some(remotes[|remotes| - 1])
    else ByClient(remotes[..|remotes| - 1], id)
  }

  function ByOrder(remotes: seq<Remote>, id: string): Option<Remote> {
    if remotes == [] then None
    else if remotes[|remotes| - 1].orderId == id then Some(remotes[|remotes| - 1])
    else ByOrder(remotes[..|remotes| - 1], id)
  }

  function Match(clientId: string, exchangeId: Option<string>, remotes: seq<Remote>): Option<Remote> {
    var byClient := ByClient(remotes, clientId);
    if byClient != None then byClient
    else if exchangeId != None && exchangeId.value != "" then ByOrder(remotes, exchangeId.value)
    else None
  }

  /** A row that adopts its match, or is lost without one. */
  function Adopt(o: OrderRow, m: Option<Remote>): OrderRow {
    if m == None then o.(status := "lost") else o.(exchangeId := Some(m.value.orderId), status := m.value.status)
  }

  /** What becomes of a row that was `was` when the pending rows were listed and is `now` when
      the exchange has answered: a listed row is rewritten by the ids it had then, whatever
      has been written to it since. */
  function Recovered(was: OrderRow, now: OrderRow, remotes: seq<Remote>): OrderRow {
    if was.status != "pending" then now else Adopt(now, Match(was.clientId, was.exchangeId, remotes))
  }

  function CountPending(rows: seq<OrderRow>): nat {
    if rows == [] then 0
    else CountPending(rows[..|rows| - 1]) + if rows[|rows| - 1].status == "pending" then 1 else 0
  }

  function CountMatched(rows: seq<OrderRow>, remotes: seq<Remote>): nat {
    if rows == [] then 0
    else
      var o := rows[|rows| - 1];
      CountMatched(rows[..|rows| - 1], remotes) + if o.status == "pending" && Match(o.clientId, o.exchangeId, remotes) != None then 1 else 0
  }

  method IndexByClient(remotes: seq<Remote>) returns (index: map<string, Remote>)
    ensures forall id :: id in index <==> ByClient(remotes, id) != None
    ensures forall id :: id in index ==> Some(index[id]) == ByClient(remotes, id)
  {
    index := map[];
    for i := 0 to |remotes|
      invariant forall id :: id in index <==> ByClient(remotes[..i], id) != None
      invariant forall id :: id in index ==> Some(index[id]) == ByClient(remotes[..i], id)
    {
      assert remotes[..i + 1][..i] == remotes[..i];
      var o := remotes[i];
      if o.clientId != None && o.clientId.value != "" {
        index := index[o.clientId.value := o];
      }
    }
    assert remotes[..|remotes|] == remotes;
  }

  method IndexByOrder(remotes: seq<Remote>) returns (index: map<string, Remote>)
    ensures forall id :: id in index <==> ByOrder(remotes, id) != None
    ensures forall id :: id in index ==> Some(index[id]) == ByOrder(remotes, id)
  {
    index := map[];
    for i := 0 to |remotes|
      invariant forall id :: id in index <==> ByOrder(remotes[..i], id) != None
      invariant forall id :: id in index ==> Some(index[id]) == ByOrder(remotes[..i], id)
    {
      assert remotes[..i + 1][..i] == remotes[..i];
      index := index[remotes[i].orderId := remotes[i]];
    }
    assert remotes[..|remotes|] == remotes;
  }

  datatype Summary = Summary(ok: bool, pending: nat, recovered: nat, lost: nat)

  /** What is remembered of a pending row while the exchange is asked. */
  datatype Snap = Snap(row: nat, clientId: string, exchangeId: Option<string>)

  function SnapAt(rows: seq<OrderRow>, i: nat): Snap
    requires i < |rows|
  {
    Snap(i, rows[i].clientId, rows[i].exchangeId)
  }

  /** `pending` lists the pending rows, in table order. */
  ghost predicate ListsPending(rows: seq<OrderRow>, pending: seq<Snap>) {
    && (forall k :: 0 <= k < |pending| ==> pending[k].row < |rows| && rows[pending[k].row].status == "pending")
    && (forall k :: 0 <= k < |pending| ==> pending[k] == SnapAt(rows, pending[k].row))
    && (forall k, l :: 0 <= k < l < |pending| ==> pending[k].row < pending[l].row)
    && (forall j :: 0 <= j < |rows| && rows[j].status == "pending" ==> SnapAt(rows, j) in pending)
  }

  method PendingRows(rows: seq<OrderRow>) returns (pending: seq<Snap>)
    ensures |pending| == CountPending(rows) && ListsPending(rows, pending)
  {
    pending := [];
    for i := 0 to |rows|
      invariant |pending| == CountPending(rows[..i])
      invariant forall k :: 0 <= k < |pending| ==> pending[k].row < i && rows[pending[k].row].status == "pending"
      invariant forall k :: 0 <= k < |pending| ==> pending[k] == SnapAt(rows, pending[k].row)
      invariant forall k, l :: 0 <= k < l < |pending| ==> pending[k].row < pending[l].row
      invariant forall j :: 0 <= j < i && rows[j].status == "pending" ==> SnapAt(rows, j) in pending
    {
      assert rows[..i + 1][..i] == rows[..i];
      if rows[i].status == "pending" {
        pending := pending + [Snap(i, rows[i].clientId, rows[i].exchangeId)];
      }
    }
    assert rows[..|rows|] == rows;
  }

  /** One listed row that still exists: adopt its match or mark it lost. */
  method Resolve(table: OrderTable, p: Snap, byClient: map<string, Remote>, byOrder: map<string, Remote>, ghost remotes: seq<Remote>)
    returns (matched: bool)
    requires p.row < |table.rows|
    requires forall c :: c in byClient <==> ByClient(remotes, c) != None
    requires forall c :: c in byClient ==> Some(byClient[c]) == ByClient(remotes, c)
    requires forall c :: c in byOrder <==> ByOrder(remotes, c) != None
    requires forall c :: c in byOrder ==> Some(byOrder[c]) == ByOrder(remotes, c)
    modifies table
    ensures table.rows == old(table.rows)[p.row := Adopt(old(table.rows)[p.row], Match(p.clientId, p.exchangeId, remotes))]
    ensures matched <==> Match(p.clientId, p.exchangeId, remotes) != None
  {
    hide ByClient, ByOrder;
    var found: Option<Remote> := None;
    if p.clientId in byClient {
      found := Some(byClient[p.clientId]);
    } else if p.exchangeId != None && p.exchangeId.value != "" && p.exchangeId.value in byOrder {
      found := Some(byOrder[p.exchangeId.value]);
    }
    assert found == Match(p.clientId, p.exchangeId, remotes);
    matched := found != None;
    var o := table.rows[p.row];
    if matched {
      table.rows := table.rows[p.row := o.(exchangeId := Some(found.value.orderId), status := found.value.status)];
    } else {
      table.rows := table.rows[p.row := o.(status := "lost")];
    }
  }

  /** `recover_in_flight_orders`. The three lists of the exchange; None is an API error, which
      writes nothing. `meanwhile` is the table as other writers leave it by the time the
      exchange has answered. */
  method RecoverInFlight(table: OrderTable, meanwhile: seq<OrderRow>,
                         resting: Option<seq<Remote>>, executed: Option<seq<Remote>>, canceled: Option<seq<Remote>>)
    returns (summary: Summary)
    modifies table
    ensures summary.pending == CountPending(old(table.rows))
    ensures summary.ok <==> resting != None && executed != None && canceled != None
    ensures !summary.ok ==> table.rows == meanwhile && summary.recovered == summary.lost == 0
    ensures summary.ok ==>
              var was, remotes := old(table.rows), resting.value + executed.value + canceled.value;
              && table.rows == RecoveredAll(was, meanwhile, remotes)
              && (|meanwhile| >= |was| ==>
                    summary.recovered == CountMatched(was, remotes) && summary.recovered + summary.lost == summary.pending)
  {
    hide ByClient, ByOrder, Match, CountPending, CountMatched, Adopt;
    ghost var was := table.rows;
    var pending := PendingRows(table.rows);
    table.rows := meanwhile;
    if resting == None || executed == None || canceled == None {
      return Summary(false, |pending|, 0, 0);
    }
    var remotes := resting.value + executed.value + canceled.value;
    var byClient := IndexByClient(remotes);
    var byOrder := IndexByOrder(remotes);
    var recovered, lost := ResolveAll(table, pending, byClient, byOrder, remotes, was);
    forall i | 0 <= i < |meanwhile|
      ensures table.rows[i] == if i < |was| then Recovered(was[i], meanwhile[i], remotes) else meanwhile[i]
    {
      if i < |was| && SnapAt(was, i) in pending {
        var k :| 0 <= k < |pending| && pending[k] == SnapAt(was, i);
        assert pending[k].row == i;
      }
    }
    MatchedAmongAll(was, pending, remotes);
    return Summary(true, |pending|, recovered, lost);
  }

  method ResolveAll(table: OrderTable, pending: seq<Snap>, byClient: map<string, Remote>, byOrder: map<string, Remote>,
                    ghost remotes: seq<Remote>, ghost was: seq<OrderRow>)
    returns (recovered: nat, lost: nat)
    requires ListsPending(was, pending)
    requires forall c :: c in byClient <==> ByClient(remotes, c) != None
    requires forall c :: c in byClient ==> Some(byClient[c]) == ByClient(remotes, c)
    requires forall c :: c in byOrder <==> ByOrder(remotes, c) != None
    requires forall c :: c in byOrder ==> Some(byOrder[c]) == ByOrder(remotes, c)
    modifies table
    ensures Resolved(was, old(table.rows), table.rows, pending, remotes)
    ensures |table.rows| >= |was| ==> recovered + lost == |pending| && recovered == MatchedAmong(pending, remotes)
  {
    hide ByClient, ByOrder, Match, Adopt, Resolved;
    ghost var before := table.rows;
    recovered, lost := 0, 0;
    NothingResolved(was, before, remotes);
    for k := 0 to |pending|
      invariant |table.rows| == |before|
      invariant Resolved(was, before, table.rows, pending[..k], remotes)
      invariant |before| >= |was| ==> recovered + lost == k && recovered == MatchedAmong(pending[..k], remotes)
    {
      assert pending[..k + 1][..k] == pending[..k];
      assert pending[..k + 1] == pending[..k] + [pending[k]];
      OneMoreResolved(was, before, table.rows, pending[..k], pending[k], remotes);
      if pending[k].row < |table.rows| {
        var matched := Resolve(table, pending[k], byClient, byOrder, remotes);
        if matched {
          recovered := recovered + 1;
        } else {
          lost := lost + 1;
        }
      }
    }
    assert pending[..|pending|] == pending;
  }

  /** Exactly the rows listed in `done` have been resolved, of those that still exist. */
  ghost predicate Resolved(was: seq<OrderRow>, before: seq<OrderRow>, now: seq<OrderRow>, done: seq<Snap>, remotes: seq<Remote>) {
    && |now| == |before|
    && forall j :: 0 <= j < |before| ==>
         now[j] == if j < |was| && SnapAt(was, j) in done then Adopt(before[j], Match(was[j].clientId, was[j].exchangeId, remotes)) else before[j]
  }

  lemma NothingResolved(was: seq<OrderRow>, before: seq<OrderRow>, remotes: seq<Remote>)
    ensures Resolved(was, before, before, [], remotes)
  {
  }

  lemma OneMoreResolved(was: seq<OrderRow>, before: seq<OrderRow>, now: seq<OrderRow>, done: seq<Snap>, p: Snap, remotes: seq<Remote>)
    requires Resolved(was, before, now, done, remotes) && p !in done
    requires p.row < |was| && p == SnapAt(was, p.row)
    ensures |now| == |before| && (p.row < |now| ==> now[p.row] == before[p.row])
    ensures var after := if p.row < |now| then now[p.row := Adopt(now[p.row], Match(p.clientId, p.exchangeId, remotes))] else now;
            Resolved(was, before, after, done + [p], remotes)
  {
    hide Adopt, Match;
  }

  function MatchedAmong(pending: seq<Snap>, remotes: seq<Remote>): nat {
    if pending == [] then 0
    else
      var p := pending[|pending| - 1];
      MatchedAmong(pending[..|pending| - 1], remotes) + if Match(p.clientId, p.exchangeId, remotes) != None then 1 else 0
  }

  lemma LastPending(rows: seq<OrderRow>, pending: seq<Snap>)
    requires rows != [] && ListsPending(rows, pending) && rows[|rows| - 1].status == "pending"
    ensures pending != [] && pending[|pending| - 1] == SnapAt(rows, |rows| - 1)
  {
    var n := |rows| - 1;
    var k :| 0 <= k < |pending| && pending[k] == SnapAt(rows, n);
    assert pending[k].row <= pending[|pending| - 1].row <= n;
  }

  /** The pending rows among all but the last row are those listed with a smaller number. */
  lemma ListsPendingBefore(rows: seq<OrderRow>, pending: seq<Snap>, m: nat)
    requires rows != [] && ListsPending(rows, pending) && m <= |pending|
    requires forall k :: 0 <= k < |pending| ==> (k < m <==> pending[k].row < |rows| - 1)
    ensures ListsPending(rows[..|rows| - 1], pending[..m])
  {
    var n := |rows| - 1;
    var init, front := rows[..n], pending[..m];
    forall k | 0 <= k < m
      ensures front[k].row < n && init[front[k].row].status == "pending" && front[k] == SnapAt(init, front[k].row)
    {
      assert front[k] == pending[k];
    }
    forall j | 0 <= j < n && init[j].status == "pending"
      ensures SnapAt(init, j) in front
    {
      assert SnapAt(rows, j) in pending;
      var l :| 0 <= l < |pending| && pending[l] == SnapAt(rows, j);
      assert front[l] == SnapAt(init, j);
    }
  }

  /** Counting along the increasing list of pending rows is counting along the table. */
  lemma {:induction false} MatchedAmongAll(rows: seq<OrderRow>, pending: seq<Snap>, remotes: seq<Remote>)
    requires ListsPending(rows, pending)
    ensures MatchedAmong(pending, remotes) == CountMatched(rows, remotes)
    decreases |rows|
  {
    hide Match;
    if rows != [] {
      var n := |rows| - 1;
      var m := |pending|;
      if rows[n].status == "pending" {
        LastPending(rows, pending);
        m := m - 1;
      }
      ListsPendingBefore(rows, pending, m);
      assert pending[..|pending|] == pending;
      MatchedAmongAll(rows[..n], pending[..m], remotes);
    }
  }

  /** A match names the row: by client id if any listed order has it, else by exchange id. */
  lemma MatchIsListed(o: OrderRow, remotes: seq<Remote>)
    ensures var m := Match(o.clientId, o.exchangeId, remotes);
            && (m != None ==> m.value in remotes && (m.value.clientId == Some(o.clientId) || Some(m.value.orderId) == o.exchangeId))
            && (m == None ==> forall r :: r in remotes && o.clientId != "" ==> r.clientId != Some(o.clientId))
  {
    ByClientListed(remotes, o.clientId);
    if o.exchangeId != None {
      ByOrderListed(remotes, o.exchangeId.value);
    }
  }

  lemma {:induction false} ByClientListed(remotes: seq<Remote>, id: string)
    ensures ByClient(remotes, id) != None ==> ByClient(remotes, id).value in remotes && ByClient(remotes, id).value.clientId == Some(id)
    ensures ByClient(remotes, id) == None && id != "" ==> forall m :: m in remotes ==> m.clientId != Some(id)
  {
    if remotes != [] {
      ByClientListed(remotes[..|remotes| - 1], id);
      assert remotes == remotes[..|remotes| - 1] + [remotes[|remotes| - 1]];
    }
  }

  lemma {:induction false} ByOrderListed(remotes: seq<Remote>, id: string)
    ensures ByOrder(remotes, id) != None ==> ByOrder(remotes, id).value in remotes && ByOrder(remotes, id).value.orderId == id
    ensures ByOrder(remotes, id) == None ==> forall m :: m in remotes ==> m.orderId != id
  {
    if remotes != [] {
      ByOrderListed(remotes[..|remotes| - 1], id);
      assert remotes == remotes[..|remotes| - 1] + [remotes[|remotes| - 1]];
    }
  }

  /** The last listed order with this client id. */
  predicate IsLastByClient(remotes: seq<Remote>, i: nat, id: string) {
    i < |remotes| && remotes[i].clientId == Some(id) && forall j :: i < j < |remotes| ==> remotes[j].clientId != Some(id)
  }

  /** The last listed order with this exchange id. */
  predicate IsLastByOrder(remotes: seq<Remote>, i: nat, id: string) {
    i < |remotes| && remotes[i].orderId == id && forall j :: i < j < |remotes| ==> remotes[j].orderId != id
  }

  lemma {:induction false} ByClientIsLast(remotes: seq<Remote>, i: nat, id: string)
    requires IsLastByClient(remotes, i, id) && id != ""
    ensures ByClient(remotes, id) == Some(remotes[i])
  {
    if i < |remotes| - 1 { ByClientIsLast(remotes[..|remotes| - 1], i, id); }
  }

  lemma {:induction false} ByOrderIsLast(remotes: seq<Remote>, i: nat, id: string)
    requires IsLastByOrder(remotes, i, id)
    ensures ByOrder(remotes, id) == Some(remotes[i])
  {
    if i < |remotes| - 1 { ByOrderIsLast(remotes[..|remotes| - 1], i, id); }
  }

  predicate KnowsClient(o: OrderRow, remotes: seq<Remote>) {
    o.clientId != "" && exists r :: r in remotes && r.clientId == Some(o.clientId)
  }

  predicate KnowsOrder(o: OrderRow, remotes: seq<Remote>) {
    o.exchangeId != None && o.exchangeId.value != "" && exists r :: r in remotes && Some(r.orderId) == o.exchangeId
  }

  /** What recovery writes to a row that was pending. If its client id is listed, the exchange
      id and status of the last order with it; else, if its exchange id is listed, those of
      the last order with that; else "lost", the exchange id as it stands. */
  lemma RecoveryWrites(was: OrderRow, now: OrderRow, remotes: seq<Remote>)
    requires was.status == "pending"
    ensures forall i: nat :: KnowsClient(was, remotes) && IsLastByClient(remotes, i, was.clientId) ==>
              Recovered(was, now, remotes) == now.(exchangeId := Some(remotes[i].orderId), status := remotes[i].status)
    ensures forall i: nat :: !KnowsClient(was, remotes) && KnowsOrder(was, remotes) && IsLastByOrder(remotes, i, was.exchangeId.value) ==>
              Recovered(was, now, remotes) == now.(exchangeId := Some(remotes[i].orderId), status := remotes[i].status)
    ensures !KnowsClient(was, remotes) && !KnowsOrder(was, remotes) ==> Recovered(was, now, remotes) == now.(status := "lost")
  {
    hide ByClient, ByOrder;
    ByClientListed(remotes, was.clientId);
    if was.exchangeId != None { ByOrderListed(remotes, was.exchangeId.value); }
    forall i: nat | KnowsClient(was, remotes) && IsLastByClient(remotes, i, was.clientId)
      ensures ByClient(remotes, was.clientId) == Some(remotes[i])
    {
      ByClientIsLast(remotes, i, was.clientId);
    }
    forall i: nat | KnowsOrder(was, remotes) && IsLastByOrder(remotes, i, was.exchangeId.value)
      ensures ByOrder(remotes, was.exchangeId.value) == Some(remotes[i])
    {
      ByOrderIsLast(remotes, i, was.exchangeId.value);
    }
    if !KnowsClient(was, remotes) { EmptyIdIsNone(remotes, was.clientId); }
  }

  lemma EmptyIdIsNone(remotes: seq<Remote>, id: string)
    ensures id == "" ==> ByClient(remotes, id) == None
  {
  }

  /** When the lists name no order as pending, no listed row is left pending, whatever was
      written to it meanwhile. */
  lemma NoneLeftPending(was: OrderRow, now: OrderRow, remotes: seq<Remote>)
    requires forall m :: m in remotes ==> m.status != "pending"
    requires was.status == "pending" || now.status != "pending"
    ensures Recovered(was, now, remotes).status != "pending"
  {
    MatchIsListed(was, remotes);
  }

  /** A listed row is still pending exactly when its match says so, and any other exactly when
      it has become pending meanwhile. */
  lemma StillPendingIff(was: OrderRow, now: OrderRow, remotes: seq<Remote>)
    ensures var m := Match(was.clientId, was.exchangeId, remotes);
            Recovered(was, now, remotes).status == "pending" <==>
            if was.status == "pending" then m != None && m.value.status == "pending" else now.status == "pending"
  {
  }

  /** The table after recovery; rows added meanwhile stay. */
  function RecoveredAll(was: seq<OrderRow>, now: seq<OrderRow>, remotes: seq<Remote>): (r: seq<OrderRow>)
    ensures |r| == |now|
    ensures forall i :: 0 <= i < |now| ==> r[i] == if i < |was| then Recovered(was[i], now[i], remotes) else now[i]
  {
    seq(|now|, i requires 0 <= i < |now| => if i < |was| then Recovered(was[i], now[i], remotes) else now[i])
  }

  /** With nothing written meanwhile, recovery leaves no row pending if and only if no pending
      row is matched by an order listed as pending. */
  lemma NoRowPendingIff(rows: seq<OrderRow>, remotes: seq<Remote>)
    ensures CountPending(RecoveredAll(rows, rows, remotes)) == 0 <==>
            forall o :: o in rows && o.status == "pending" ==>
              Match(o.clientId, o.exchangeId, remotes) == None || Match(o.clientId, o.exchangeId, remotes).value.status != "pending"
  {
    hide Match;
    var after := RecoveredAll(rows, rows, remotes);
    NonePendingIff(after);
    if CountPending(after) == 0 {
      forall o | o in rows && o.status == "pending"
        ensures Match(o.clientId, o.exchangeId, remotes) == None || Match(o.clientId, o.exchangeId, remotes).value.status != "pending"
      {
        var i :| 0 <= i < |rows| && rows[i] == o;
        assert after[i] == Recovered(o, o, remotes);
      }
    } else {
      var i :| 0 <= i < |after| && after[i].status == "pending";
      assert after[i] == Recovered(rows[i], rows[i], remotes) && rows[i] in rows;
    }
  }

  lemma {:induction false} NonePendingIff(rows: seq<OrderRow>)
    ensures CountPending(rows) == 0 <==> forall i :: 0 <= i < |rows| ==> rows[i].status != "pending"
  {
    if rows != [] { NonePendingIff(rows[..|rows| - 1]); }
  }

  /** A status written while the exchange was asked survives if and only if the row was not
      listed, or recovery writes that same status again. */
  lemma MeanwhileSurvivesIff(was: OrderRow, now: OrderRow, remotes: seq<Remote>)
    ensures var m := Match(was.clientId, was.exchangeId, remotes);
            Recovered(was, now, remotes).status == now.status <==>
            was.status != "pending" || now.status == if m == None then "lost" else m.value.status
  {
  }

  /** So the mark of a halt sweep that falls in between is gone from every listed row, unless
      the exchange itself reports such a status. */
  lemma SweepMeanwhileIsLost(was: OrderRow, remotes: seq<Remote>)
    requires was.status == "pending" && forall m :: m in remotes ==> m.status != "cancelled_by_halt"
    ensures Swept(was).status == "cancelled_by_halt"
    ensures Recovered(was, Swept(was), remotes).status != "cancelled_by_halt"
  {
    MatchIsListed(was, remotes);
    MeanwhileSurvivesIff(was, Swept(was), remotes);
  }

  /** Recovery never touches what an order row asked for, so it keeps every order tied to its
      decision and every request to its row, whatever happened meanwhile. */
  lemma RecoveryKeepsWriteAhead(w: World, was: seq<OrderRow>, remotes: seq<Remote>)
    requires WriteAhead(w)
    ensures WriteAhead(w.(orders := RecoveredAll(was, w.orders, remotes)))
  {
    hide WriteAhead;
    var after := w.(orders := RecoveredAll(was, w.orders, remotes));
    RecoverySameRows(w, was, remotes);
    OutsideStepFits(w, after);
    StatusStepKeepsWriteAhead(w, after);
  }

  lemma RecoverySameRows(w: World, was: seq<OrderRow>, remotes: seq<Remote>)
    ensures SameRows(w, w.(orders := RecoveredAll(was, w.orders, remotes)))
  {
    hide Match;
  }

  /** Pending rows that none of the lists knows by either id. */
  function CountUnknown(rows: seq<OrderRow>, remotes: seq<Remote>): nat {
    if rows == [] then 0
    else
      var o := rows[|rows| - 1];
      CountUnknown(rows[..|rows| - 1], remotes)
      + if o.status == "pending" && !KnowsClient(o, remotes) && !KnowsOrder(o, remotes) then 1 else 0
  }

  lemma MatchedIffKnown(o: OrderRow, remotes: seq<Remote>)
    ensures Match(o.clientId, o.exchangeId, remotes) != None <==> KnowsClient(o, remotes) || KnowsOrder(o, remotes)
  {
    hide ByClient, ByOrder;
    ByClientListed(remotes, o.clientId);
    EmptyIdIsNone(remotes, o.clientId);
    if o.exchangeId != None { ByOrderListed(remotes, o.exchangeId.value); }
  }

  /** Recovered are the pending rows that some list knows, lost those that none does. */
  lemma {:induction false} LostIsUnknown(rows: seq<OrderRow>, remotes: seq<Remote>)
    ensures CountMatched(rows, remotes) + CountUnknown(rows, remotes) == CountPending(rows)
  {
    hide Match;
    if rows != [] {
      LostIsUnknown(rows[..|rows| - 1], remotes);
      MatchedIffKnown(rows[|rows| - 1], remotes);
    }
  }
}
