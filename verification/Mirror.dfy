/** Ingestion and the ledger together: after a complete poll the local position of every
    market is the net of the exchange's executions on it, whatever pages, repeats, errors and
    restarts there were on the way. */
module Mirror {
  import opened Wrappers
  import opened Ticks
  import opened Positions
  import opened Conservation
  import opened Dedup
  import opened PositionRuns
  import opened Fills
  import Reconciliation

  const NOTHING := Books([], map[])
  const EMPTY := System({}, NOTHING, None)

  /** No two executions of the exchange look alike to the ledger. */
  predicate NoTwins(server: set<Fill>) {
    forall f, g :: f in server && g in server && f != g ==> f.Identity() != g.Identity()
  }

  predicate DistinctIdentities(d: seq<Fill>) {
    forall i, j :: 0 <= i < j < |d| ==> d[i].Identity() != d[j].Identity()
  }

  /** Pages show only executions of the exchange. */
  ghost predicate Honest(s: System, e: Event) {
    match e
    case Arrive(_) => true
    case CatchUp(responses) => forall f :: f in KeptOf(s, responses) ==> f in s.server
    case Restart(pages) => forall f :: f in KeptOf(s, pages) ==> f in s.server
  }

  ghost predicate HonestRun(s: System, es: seq<Event>, rate: real) {
    es == [] || (HonestRun(s, es[..|es| - 1], rate) && Honest(HappenAll(s, es[..|es| - 1], rate), es[|es| - 1]))
  }

  /** The ledger is that of posting these executions of the exchange, each once. */
  ghost predicate IsPosting(s: System, d: seq<Fill>, rate: real) {
    && Priced(d) && s.books == PostAll(NOTHING, d, rate)
    && DistinctIdentities(d) && s.books.Keys() == Identities(d)
    && forall f :: f in d ==> f in s.server
  }

  lemma {:induction false} PostAllConcat(b: Books, s: seq<Fill>, t: seq<Fill>, rate: real)
    requires Priced(s) && Priced(t)
    ensures Priced(s + t) && PostAll(b, s + t, rate) == PostAll(PostAll(b, s, rate), t, rate)
  {
    PricedParts(s, t);
    if t == [] {
      assert s + t == s;
    } else {
      assert (s + t)[..|s + t| - 1] == s + t[..|t| - 1];
      PostAllConcat(b, s, t[..|t| - 1], rate);
    }
  }

  /** The first occurrences are elements of the stream, new, and pairwise different. */
  lemma {:induction false} DistinctElements(known: set<Key>, s: seq<Fill>)
    ensures var d := Distinct(known, s);
            && (forall i :: 0 <= i < |d| ==> d[i] in s && d[i].Identity() !in known)
            && DistinctIdentities(d)
  {
    if s != [] {
      var n := |s| - 1;
      DistinctElements(known, s[..n]);
      var front := Distinct(known, s[..n]);
      forall i | 0 <= i < |front|
        ensures front[i] in s
        ensures IsFirst(known, s, n) ==> front[i].Identity() != s[n].Identity()
      {
        var j :| 0 <= j < n && s[..n][j] == front[i];
        assert s[j] == front[i];
      }
    }
  }

  lemma PollPosts(s: System, d: seq<Fill>, k: seq<Fill>, after: Books, rate: real) returns (longer: seq<Fill>)
    requires IsPosting(s, d, rate) && after == ApplyAll(s.books, k, rate)
    requires forall f :: f in k ==> f in s.server
    ensures IsPosting(s.(books := after), longer, rate)
  {
    hide PostAll, Distinct, ApplyAll, Identities;
    var first := Distinct(s.books.Keys(), k);
    longer := d + first;
    AppliesEachOnce(s.books, k, rate);
    PostAllConcat(NOTHING, d, first, rate);
    DistinctElements(s.books.Keys(), k);
    forall i, j | 0 <= i < j < |longer|
      ensures longer[i].Identity() != longer[j].Identity()
    {
      if i < |d| <= j {
        PricedIsIdentified(d, i);
      }
    }
    PostedKeys(longer, rate);
  }

  lemma PricedIsIdentified(d: seq<Fill>, i: nat)
    requires Priced(d) && i < |d|
    ensures d[i].Identity() in Identities(d)
  {
  }

  lemma {:induction false} PostedKeys(d: seq<Fill>, rate: real)
    requires Priced(d)
    ensures PostAll(NOTHING, d, rate).Keys() == Identities(d)
  {
    if d != [] {
      var n := |d| - 1;
      PostedKeys(d[..n], rate);
      IdentitiesLast(d);
      PostKeys(PostAll(NOTHING, d[..n], rate), d[n], d[n].Price().value, rate);
    }
  }

  /** At every moment of an honest run the ledger is that of some of the exchange's executions,
      each posted once. */
  lemma {:induction false} RunIsPosting(es: seq<Event>, rate: real) returns (d: seq<Fill>)
    requires HonestRun(EMPTY, es, rate)
    ensures IsPosting(HappenAll(EMPTY, es, rate), d, rate)
  {
    hide IsPosting, ReadAll, Kept, ApplyAll;
    if es == [] {
      d := [];
      NothingPosted(rate);
    } else {
      var n := |es| - 1;
      var s := HappenAll(EMPTY, es[..n], rate);
      d := RunIsPosting(es[..n], rate);
      match es[n] {
        case Arrive(f) => ArrivalPosts(s, d, f, rate);
        case CatchUp(responses) =>
          PollAppliesStream(Poll(s.books, s.From(), 0, false), responses, rate);
          d := PollPosts(s, d, KeptOf(s, responses), HappenAll(EMPTY, es, rate).books, rate);
          MarkAside(s.(books := HappenAll(EMPTY, es, rate).books), HappenAll(EMPTY, es, rate), d, rate);
        case Restart(pages) =>
          PollAppliesStream(Poll(s.books, s.From(), 0, false), pages, rate);
          d := PollPosts(s, d, KeptOf(s, pages), HappenAll(EMPTY, es, rate).books, rate);
          MarkAside(s.(books := HappenAll(EMPTY, es, rate).books), HappenAll(EMPTY, es, rate), d, rate);
      }
    }
  }

  lemma NothingPosted(rate: real)
    ensures IsPosting(EMPTY, [], rate)
  {
  }

  lemma ArrivalPosts(s: System, d: seq<Fill>, f: Fill, rate: real)
    requires IsPosting(s, d, rate)
    ensures IsPosting(s.(server := s.server + {f}), d, rate)
  {
  }

  lemma MarkAside(s: System, t: System, d: seq<Fill>, rate: real)
    requires IsPosting(s, d, rate) && t.books == s.books && t.server == s.server
    ensures IsPosting(t, d, rate)
  {
  }

  // ---- Net of a set of executions ------------------------------------------------------

  function SignedOn(f: Fill, ticker: string): int {
    if f.ticker == ticker then SignedCount(f.side, f.count) else 0
  }

  ghost function NetOf(server: set<Fill>, ticker: string): int {
    if server == {} then 0
    else
      var f :| f in server;
      SignedOn(f, ticker) + NetOf(server - {f}, ticker)
  }

  lemma {:induction false} NetOfRemove(server: set<Fill>, f: Fill, ticker: string)
    requires f in server
    ensures NetOf(server, ticker) == SignedOn(f, ticker) + NetOf(server - {f}, ticker)
    decreases |server|
  {
    var first :| first in server && NetOf(server, ticker) == SignedOn(first, ticker) + NetOf(server - {first}, ticker);
    if first != f {
      NetOfRemove(server - {first}, f, ticker);
      NetOfRemove(server - {f}, first, ticker);
      assert server - {first} - {f} == server - {f} - {first};
    }
  }

  ghost function Elements(d: seq<Fill>): set<Fill> {
    set f | f in d
  }

  lemma ElementsLast(d: seq<Fill>)
    requires d != [] && DistinctIdentities(d)
    ensures var n := |d| - 1;
            d[n] !in Elements(d[..n]) && Elements(d) == Elements(d[..n]) + {d[n]}
  {
    var n := |d| - 1;
    assert d == d[..n] + [d[n]];
    forall i | 0 <= i < n
      ensures d[..n][i] != d[n]
    {
      assert d[i].Identity() != d[n].Identity();
    }
  }

  lemma NetLast(d: seq<Fill>, ticker: string, rate: real)
    requires d != [] && Priced(d)
    ensures var n := |d| - 1;
            Net(TradesOn(d, ticker, rate)) == Net(TradesOn(d[..n], ticker, rate)) + SignedOn(d[n], ticker)
  {
    if d[|d| - 1].ticker == ticker {
      var own := TradesOn(d, ticker, rate);
      assert own[..|own| - 1] == TradesOn(d[..|d| - 1], ticker, rate);
    }
  }

  /** In whatever order they were posted. */
  lemma {:induction false} NetOfPosted(d: seq<Fill>, ticker: string, rate: real)
    requires Priced(d) && DistinctIdentities(d)
    ensures Net(TradesOn(d, ticker, rate)) == NetOf(Elements(d), ticker)
    ensures |Elements(d)| == |d|
  {
    hide TradesOn, Net, NetOf;
    if d != [] {
      var n := |d| - 1;
      NetOfPosted(d[..n], ticker, rate);
      ElementsLast(d);
      NetLast(d, ticker, rate);
      NetOfRemove(Elements(d), d[n], ticker);
      assert Elements(d) - {d[n]} == Elements(d[..n]);
    } else {
      NoneNet(ticker, rate);
    }
  }

  lemma NoneNet(ticker: string, rate: real)
    ensures Net(TradesOn([], ticker, rate)) == NetOf({}, ticker) == 0 && Elements([]) == {}
  {
  }

  lemma {:induction false} TradesAreBuys(d: seq<Fill>, ticker: string, rate: real)
    requires Priced(d) && forall f :: f in d ==> f.action == Buy
    ensures BuysOnly(TradesOn(d, ticker, rate))
  {
    if d != [] {
      assert d[|d| - 1] in d && forall f :: f in d[..|d| - 1] ==> f in d;
      TradesAreBuys(d[..|d| - 1], ticker, rate);
    }
  }

  // ---- The mirror ----------------------------------------------------------------------

  /** All executions of the exchange are stored. */
  ghost predicate AllStored(s: System) {
    forall f :: f in s.server ==> s.Ingested(f)
  }

  /** Once everything is stored, however it came to be, there is one row for each execution of
      the exchange, and every market's signed position is the net of its buys. */
  lemma StoredIsMirrored(es: seq<Event>, ticker: string, rate: real)
    requires HonestRun(EMPTY, es, rate)
    requires var s := HappenAll(EMPTY, es, rate);
             AllStored(s) && NoTwins(s.server) && forall f :: f in s.server ==> f.action == Buy
    ensures var s := HappenAll(EMPTY, es, rate);
            && |s.books.rows| == |s.server|
            && Reconciliation.LocalSigned(s.books.book, ticker) == NetOf(s.server, ticker)
  {
    hide HonestRun, HappenAll, PostAll, TradesOn, Run;
    var s := HappenAll(EMPTY, es, rate);
    var d := RunIsPosting(es, rate);
    forall f | f in s.server
      ensures f in d
    {
      assert f.Identity() in Identities(d);
      var i :| 0 <= i < |d| && d[i].Identity() == f.Identity();
      assert d[i] in d;
    }
    assert Elements(d) == s.server;
    FeesOnRecord(NOTHING, d, rate);
    NetOfPosted(d, ticker, rate);
    TradesAreBuys(d, ticker, rate);
    MarketIsItsOwnRun(NOTHING, d, ticker, rate);
    var own := TradesOn(d, ticker, rate);
    if own != [] {
      NetCount(PositionRuns.Start(NOTHING, own, ticker), own);
    }
  }

  lemma OrderlyIsHonest(s: System, e: Event)
    requires AllPriced(s.server) && Orderly(s, e)
    ensures Honest(s, e)
  {
    if e.CatchUp? {
      KeptAreFetched(s.books.Keys(), e.responses);
    }
  }

  lemma {:induction false} KeptAreFetched(known: set<Key>, responses: seq<Response>)
    ensures forall f :: f in Kept(known, responses) ==> f in Fetched(responses)
    decreases |responses|
  {
    if responses != [] && responses[0].Page? && responses[0].more {
      KeptAreFetched(known + Identities(responses[0].fills), responses[1..]);
    }
  }

  lemma {:induction false} OrderlyRunIsHonest(es: seq<Event>, rate: real)
    requires OrderlyRun(EMPTY, es, rate)
    ensures HonestRun(EMPTY, es, rate)
  {
    hide Orderly, Honest, Happen, Complete;
    if es != [] {
      var init := es[..|es| - 1];
      OrderlyRunIsHonest(init, rate);
      EmptyIsComplete();
      IngestionIsComplete(EMPTY, init, rate);
      OrderlyIsHonest(HappenAll(EMPTY, init, rate), es[|es| - 1]);
    }
  }

  lemma EmptyIsComplete()
    ensures Complete(EMPTY) && AllPriced(EMPTY.server)
  {
  }

  /** After every complete poll of every orderly run of buys the ledger mirrors the exchange. */
  lemma CompletePollMirrors(es: seq<Event>, responses: seq<Response>, ticker: string, rate: real)
    requires OrderlyRun(EMPTY, es + [CatchUp(responses)], rate)
    requires var s := HappenAll(EMPTY, es + [CatchUp(responses)], rate);
             NoTwins(s.server) && forall f :: f in s.server ==> f.action == Buy
    ensures var s := HappenAll(EMPTY, es + [CatchUp(responses)], rate);
            && |s.books.rows| == |s.server|
            && Reconciliation.LocalSigned(s.books.book, ticker) == NetOf(s.server, ticker)
  {
    hide Orderly, Happen, Complete;
    var all := es + [CatchUp(responses)];
    assert all[..|all| - 1] == es;
    OrderlyRunIsHonest(all, rate);
    EmptyIsComplete();
    IngestionIsComplete(EMPTY, es, rate);
    LastPollStores(HappenAll(EMPTY, es, rate), responses, rate);
    StoredIsMirrored(all, ticker, rate);
  }

  lemma LastPollStores(s: System, responses: seq<Response>, rate: real)
    requires Complete(s) && AllPriced(s.server) && Orderly(s, CatchUp(responses))
    ensures AllStored(Happen(s, CatchUp(responses), rate))
  {
    PollIngestsAll(s, responses, rate);
  }

  /** Reconciliation against an exchange that shows the net of its executions then changes no
      position: it reports only markets that are flat on both sides. */
  lemma MirrorReconcilesClean(es: seq<Event>, remote: seq<Reconciliation.Remote>, ticker: string, rate: real)
    requires HonestRun(EMPTY, es, rate)
    requires var s := HappenAll(EMPTY, es, rate);
             AllStored(s) && NoTwins(s.server) && (forall f :: f in s.server ==> f.action == Buy)
             && Reconciliation.RemoteSigned(remote, ticker) == NetOf(s.server, ticker)
    ensures var row := Reconciliation.Row(HappenAll(EMPTY, es, rate).books.book, ticker);
            Reconciliation.Flag(ticker, row, Reconciliation.Reported(remote, ticker)) != None ==>
              Reconciliation.RemoteSigned(remote, ticker) == Reconciliation.SignedRow(row) == 0
  {
    hide HonestRun, HappenAll, NetOf;
    StoredIsMirrored(es, ticker, rate);
    Reconciliation.ReportedIff(ticker, Reconciliation.Row(HappenAll(EMPTY, es, rate).books.book, ticker), Reconciliation.Reported(remote, ticker));
  }
}
