/** Fill ingestion: pages of executions are applied to the ledger, and a high-water mark in
    whole seconds bounds what the next poll asks for. */
module Fills {
  import opened Wrappers
  import opened Ticks
  import opened Positions
  import opened Conservation
  import opened Dedup
  import Fees

  const MICROS: nat := 1000000

  function Second(created: nat): nat {
    created / MICROS
  }

  /** One answer of the exchange to a page request; `more` is the presence of a cursor. Only an
      API error is caught, any other raises. */
  datatype Response = ApiError | OtherError | Page(fills: seq<Fill>, more: bool)

  /** Progress of one poll. */
  datatype Poll = Poll(books: Books, seen: nat, applied: nat, raised: bool)

  /** A repeat and a new execution that nets to zero are treated alike: neither counts, and
      neither moves the mark. An execution without a price raises. */
  ghost function ReadFill(p: Poll, f: Fill, rate: real): Poll {
    if p.raised then p
    else
      var (books, outcome) := Apply(p.books, f, rate);
      match outcome
      case Duplicate => p
      case MissingPrice => p.(raised := true)
      case Applied(delta) =>
        if delta == 0 then p.(books := books)
        else Poll(books, Max(p.seen, Second(f.created)), p.applied + 1, false)
  }

  ghost function ReadFills(p: Poll, s: seq<Fill>, rate: real): Poll {
    if s == [] then p else ReadFill(ReadFills(p, s[..|s| - 1], rate), s[|s| - 1], rate)
  }

  /** A page is one transaction: if it raises, none of it stays. */
  ghost function ReadPage(p: Poll, s: seq<Fill>, rate: real): Poll {
    var q := ReadFills(p, s, rate);
    if q.raised then p.(raised := true) else q
  }

  ghost function ReadAll(p: Poll, responses: seq<Response>, rate: real): Poll
    decreases |responses|
  {
    if responses == [] || responses[0].ApiError? then p
    else if responses[0].OtherError? then p.(raised := true)
    else if responses[0].fills == [] then p
    else
      var q := ReadPage(p, responses[0].fills, rate);
      if q.raised || !responses[0].more then q else ReadAll(q, responses[1..], rate)
  }

  function Mark(before: nat, seen: nat): nat {
    if seen > before then seen + 1 else before
  }

  /** Second of the newest stored execution; zero when there is none. */
  function Latest(rows: seq<FillRow>): (t: nat)
    ensures forall r :: r in rows ==> Second(r.created) <= t
  {
    if rows == [] then 0
    else
      var init := Latest(rows[..|rows| - 1]);
      assert forall r :: r in rows ==> r in rows[..|rows| - 1] || r == rows[|rows| - 1];
      Max(init, Second(rows[|rows| - 1].created))
  }

  method NewestSecond(rows: seq<FillRow>) returns (t: nat)
    ensures t == Latest(rows)
  {
    t := 0;
    for i := 0 to |rows|
      invariant t == Latest(rows[..i])
    {
      assert rows[..i + 1][..i] == rows[..i];
      if Second(rows[i].created) > t {
        t := Second(rows[i].created);
      }
    }
    assert rows[..|rows|] == rows;
  }

  class Ingestor {
    const ledger: Ledger
    var mark: Option<nat>

    constructor (ledger: Ledger)
      ensures this.ledger == ledger && mark == None
    {
      this.ledger := ledger;
      mark := None;
    }

    /** Applies one page; on a missing price the transaction is rolled back. */
    method ApplyPage(s: seq<Fill>, ghost p: Poll) returns (applied: nat, seen: nat, raised: bool)
      requires !p.raised && p.books == ledger.Contents() && p.applied == 0 && p.seen == 0
      modifies ledger`rows, ledger`book
      ensures var q := ReadPage(p, s, ledger.rate);
              Poll(ledger.Contents(), if raised then 0 else seen, if raised then 0 else applied, raised) == q
    {
      var rows, book := ledger.rows, ledger.book;
      applied, seen := 0, 0;
      for i := 0 to |s|
        invariant Poll(ledger.Contents(), seen, applied, false) == ReadFills(p, s[..i], ledger.rate)
      {
        assert s[..i + 1][..i] == s[..i];
        var outcome := ledger.ApplyFill(s[i]);
        match outcome {
          case Duplicate =>
          case MissingPrice =>
            RaisedStays(p, s, i + 1, ledger.rate);
            ledger.rows, ledger.book := rows, book;
            return 0, 0, true;
          case Applied(delta) =>
            if delta != 0 {
              applied := applied + 1;
              seen := Max(seen, Second(s[i].created));
            }
        }
      }
      assert s[..|s|] == s;
      raised := false;
    }

    /** `_fetch_and_apply`: None when it raised. */
    method FetchAndApply(responses: seq<Response>) returns (result: Option<nat>)
      modifies this`mark, ledger`rows, ledger`book
      ensures var before := old(mark).GetOr(0);
              var p := ReadAll(Poll(old(ledger.Contents()), before, 0, false), responses, ledger.rate);
              && ledger.Contents() == p.books
              && result == (if p.raised then None else Some(p.applied))
              && mark == (if p.raised || p.seen <= before then old(mark) else Some(Mark(before, p.seen)))
    {
      hide ReadPage, Apply;
      var total: nat, before: nat := 0, mark.GetOr(0);
      var maxSeen: nat := before;
      ghost var start := Poll(ledger.Contents(), before, 0, false);
      var i := 0;
      while i < |responses| && responses[i].Page? && responses[i].fills != []
        invariant 0 <= i <= |responses|
        invariant mark == old(mark)
        invariant ReadAll(Poll(ledger.Contents(), maxSeen, total, false), responses[i..], ledger.rate)
                  == ReadAll(start, responses, ledger.rate)
        decreases |responses| - i
      {
        ghost var p := Poll(ledger.Contents(), maxSeen, total, false);
        ghost var alone := Poll(ledger.Contents(), 0, 0, false);
        PageAddsUp(p, responses[i].fills, ledger.rate);
        var applied, seen, raised := ApplyPage(responses[i].fills, alone);
        assert responses[i..][1..] == responses[i + 1..];
        if raised {
          return None;
        }
        total := total + applied;
        maxSeen := Max(maxSeen, seen);
        if !responses[i].more {
          break;
        }
        i := i + 1;
      }
      if i < |responses| && responses[i].OtherError? {
        return None;
      }
      if maxSeen > before {
        mark := Some(maxSeen + 1);
      }
      return Some(total);
    }

    /** `catch_up`: loads the mark from the ledger on first use. */
    method CatchUp(responses: seq<Response>) returns (result: Option<nat>)
      modifies this`mark, ledger`rows, ledger`book
      ensures var before := old(mark).GetOr(Latest(old(ledger.rows)));
              var p := ReadAll(Poll(old(ledger.Contents()), before, 0, false), responses, ledger.rate);
              && ledger.Contents() == p.books
              && result == (if p.raised then None else Some(p.applied))
              && mark == Some(if p.raised then before else Mark(before, p.seen))
    {
      if mark == None {
        var t := NewestSecond(ledger.rows);
        mark := Some(t);
      }
      ReadAllSeen(Poll(ledger.Contents(), mark.value, 0, false), responses, ledger.rate);
      result := FetchAndApply(responses);
    }
  }

  // ---- Facts about one poll ------------------------------------------------------------

  lemma {:induction false} RaisedStays(p: Poll, s: seq<Fill>, i: nat, rate: real)
    requires i <= |s| && ReadFills(p, s[..i], rate).raised
    ensures ReadFills(p, s, rate).raised
    decreases |s| - i
  {
    if i < |s| {
      assert s[..i + 1][..i] == s[..i];
      RaisedStays(p, s, i + 1, rate);
    } else {
      assert s[..i] == s;
    }
  }

  /** A page's count and newest second simply add to what the poll had. */
  lemma {:induction false} ReadsAddUp(p: Poll, s: seq<Fill>, rate: real)
    requires !p.raised
    ensures var alone, q := ReadFills(Poll(p.books, 0, 0, false), s, rate), ReadFills(p, s, rate);
            q == Poll(alone.books, Max(p.seen, alone.seen), p.applied + alone.applied, alone.raised)
  {
    if s != [] {
      ReadsAddUp(p, s[..|s| - 1], rate);
    }
  }

  lemma PageAddsUp(p: Poll, s: seq<Fill>, rate: real)
    requires !p.raised
    ensures var alone := ReadPage(Poll(p.books, 0, 0, false), s, rate);
            && (alone.raised ==> alone.books == p.books)
            && ReadPage(p, s, rate) ==
               if alone.raised then p.(raised := true)
               else Poll(alone.books, Max(p.seen, alone.seen), p.applied + alone.applied, false)
  {
    hide ReadFills;
    ReadsAddUp(p, s, rate);
  }

  lemma {:induction false} ReadFillsSeen(p: Poll, s: seq<Fill>, rate: real)
    ensures p.seen <= ReadFills(p, s, rate).seen
  {
    if s != [] {
      ReadFillsSeen(p, s[..|s| - 1], rate);
    }
  }

  /** The newest second seen never falls, so neither does the mark. */
  lemma {:induction false} ReadAllSeen(p: Poll, responses: seq<Response>, rate: real)
    ensures p.seen <= ReadAll(p, responses, rate).seen
    decreases |responses|
  {
    if responses != [] && responses[0].Page? && responses[0].fills != [] {
      ReadFillsSeen(p, responses[0].fills, rate);
      var q := ReadPage(p, responses[0].fills, rate);
      if !q.raised && responses[0].more {
        ReadAllSeen(q, responses[1..], rate);
      }
    }
  }

  /** The executions of all pages read. */
  function Fetched(responses: seq<Response>): seq<Fill>
    decreases |responses|
  {
    if responses == [] || !responses[0].Page? || responses[0].fills == [] then []
    else if !responses[0].more then responses[0].fills
    else responses[0].fills + Fetched(responses[1..])
  }

  lemma {:induction false} ReadFillsApplies(p: Poll, s: seq<Fill>, rate: real)
    requires !p.raised
    ensures !ReadFills(p, s, rate).raised ==> ReadFills(p, s, rate).books == ApplyAll(p.books, s, rate)
    ensures Priced(s) ==> !ReadFills(p, s, rate).raised
  {
    if s != [] {
      ReadFillsApplies(p, s[..|s| - 1], rate);
    }
  }

  /** No page request fails otherwise than by an API error. */
  predicate Caught(responses: seq<Response>)
    decreases |responses|
  {
    responses == [] || responses[0].ApiError? ||
    (responses[0].Page? && (responses[0].fills == [] || !responses[0].more || Caught(responses[1..])))
  }

  /** The page raises: one of its executions has no price and is not known by then. */
  ghost predicate Stumbles(known: set<Key>, s: seq<Fill>) {
    exists i :: 0 <= i < |s| && s[i].Price() == None && s[i].Identity() !in known + Identities(s[..i])
  }

  /** The executions of the pages before the first that raises: those that are committed. */
  ghost function Kept(known: set<Key>, responses: seq<Response>): seq<Fill>
    decreases |responses|
  {
    if responses == [] || !responses[0].Page? || responses[0].fills == [] || Stumbles(known, responses[0].fills) then []
    else
      var s := responses[0].fills;
      if responses[0].more then s + Kept(known + Identities(s), responses[1..]) else s
  }

  ghost predicate Raises(known: set<Key>, responses: seq<Response>)
    decreases |responses|
  {
    responses != [] &&
    match responses[0]
    case ApiError => false
    case OtherError => true
    case Page(s, more) => s != [] && (Stumbles(known, s) || (more && Raises(known + Identities(s), responses[1..])))
  }

  lemma StumblesLast(known: set<Key>, s: seq<Fill>)
    requires s != []
    ensures var init, f := s[..|s| - 1], s[|s| - 1];
            Stumbles(known, s) <==> Stumbles(known, init) || (f.Price() == None && f.Identity() !in known + Identities(init))
  {
    hide Identities;
    var init := s[..|s| - 1];
    assert forall i :: 0 <= i < |init| ==> init[i] == s[i] && init[..i] == s[..i];
    if Stumbles(known, init) {
      var i :| 0 <= i < |init| && init[i].Price() == None && init[i].Identity() !in known + Identities(init[..i]);
      assert s[i].Price() == None && s[i].Identity() !in known + Identities(s[..i]);
    }
    if Stumbles(known, s) {
      var i :| 0 <= i < |s| && s[i].Price() == None && s[i].Identity() !in known + Identities(s[..i]);
      if i < |init| {
        assert init[i].Price() == None && init[i].Identity() !in known + Identities(init[..i]);
      }
    }
  }

  lemma ReadRaises(p: Poll, f: Fill, rate: real)
    requires !p.raised
    ensures ReadFill(p, f, rate).raised <==> f.Price() == None && f.Identity() !in p.books.Keys()
  {
  }

  lemma {:induction false} RaisedIffStumbles(p: Poll, s: seq<Fill>, rate: real)
    requires !p.raised
    ensures ReadFills(p, s, rate).raised <==> Stumbles(p.books.Keys(), s)
  {
    hide Stumbles, Identities, Apply, ReadFill;
    if s != [] {
      var init, f := s[..|s| - 1], s[|s| - 1];
      RaisedIffStumbles(p, init, rate);
      StumblesLast(p.books.Keys(), s);
      if ReadFills(p, init, rate).raised {
        RaisedStaysOnce(ReadFills(p, init, rate), f, rate);
      } else {
        ReadFillsApplies(p, init, rate);
        ApplyAllKeys(p.books, init, rate);
        ReadRaises(ReadFills(p, init, rate), f, rate);
      }
    } else {
      NothingStumbles(p.books.Keys());
    }
  }

  lemma NothingStumbles(known: set<Key>)
    ensures !Stumbles(known, [])
  {
  }

  lemma RaisedStaysOnce(p: Poll, f: Fill, rate: real)
    requires p.raised
    ensures ReadFill(p, f, rate) == p
  {
  }

  lemma {:induction false} ReadFillsConcat(p: Poll, s: seq<Fill>, t: seq<Fill>, rate: real)
    ensures ReadFills(p, s + t, rate) == ReadFills(ReadFills(p, s, rate), t, rate)
  {
    if t == [] {
      assert s + t == s;
    } else {
      assert (s + t)[..|s + t| - 1] == s + t[..|t| - 1];
      ReadFillsConcat(p, s, t[..|t| - 1], rate);
    }
  }

  lemma PageKeeps(p: Poll, s: seq<Fill>, rate: real)
    requires !p.raised
    ensures var q := ReadPage(p, s, rate);
            if Stumbles(p.books.Keys(), s) then q == p.(raised := true)
            else !q.raised && q == ReadFills(p, s, rate) && q.books == ApplyAll(p.books, s, rate)
                 && q.books.Keys() == p.books.Keys() + Identities(s)
  {
    hide ReadFills, Stumbles;
    RaisedIffStumbles(p, s, rate);
    ReadFillsApplies(p, s, rate);
    ApplyAllKeys(p.books, s, rate);
  }

  /** Pages refine one stream: a poll has read, one by one, the executions of all pages before
      the first that raises, and whether one raises is decided by the pages and the identities
      known at the start. */
  lemma {:induction false} PollAppliesStream(p: Poll, responses: seq<Response>, rate: real)
    requires !p.raised
    ensures var q, k := ReadAll(p, responses, rate), Kept(p.books.Keys(), responses);
            && (q.raised <==> Raises(p.books.Keys(), responses))
            && q == ReadFills(p, k, rate).(raised := q.raised) && !ReadFills(p, k, rate).raised
            && q.books == ApplyAll(p.books, k, rate)
            && (!q.raised ==> k == Fetched(responses))
    decreases |responses|
  {
    hide ReadFills, ReadPage, ApplyAll, Stumbles, Identities;
    var known := p.books.Keys();
    if responses == [] || !responses[0].Page? || responses[0].fills == [] || Stumbles(known, responses[0].fills) {
      NothingRead(p, rate);
      if responses != [] && responses[0].Page? {
        PageKeeps(p, responses[0].fills, rate);
      }
    } else {
      var s, rest := responses[0].fills, responses[1..];
      PageKeeps(p, s, rate);
      var q := ReadPage(p, s, rate);
      if responses[0].more {
        PollAppliesStream(q, rest, rate);
        var later := Kept(known + Identities(s), rest);
        ReadFillsConcat(p, s, later, rate);
        ApplyAllConcat(p.books, s, later, rate);
      }
    }
  }

  lemma NothingRead(p: Poll, rate: real)
    ensures ReadFills(p, [], rate) == p && ApplyAll(p.books, [], rate) == p.books
  {
  }

  /** With prices on all executions only an error that is not caught raises. */
  lemma {:induction false} PricedDoNotRaise(known: set<Key>, responses: seq<Response>)
    requires Priced(Fetched(responses)) && Caught(responses)
    ensures !Raises(known, responses)
    decreases |responses|
  {
    hide Stumbles, Identities, Priced;
    if responses != [] && responses[0].Page? && responses[0].fills != [] {
      var s := responses[0].fills;
      var rest := if responses[0].more then Fetched(responses[1..]) else [];
      assert Fetched(responses) == s + rest;
      PricedParts(s, rest);
      PricedStumbleNot(known, s);
      if responses[0].more {
        PricedDoNotRaise(known + Identities(s), responses[1..]);
      }
    }
  }

  lemma PricedStumbleNot(known: set<Key>, s: seq<Fill>)
    requires Priced(s)
    ensures !Stumbles(known, s)
  {
  }

  lemma PricedParts(s: seq<Fill>, t: seq<Fill>)
    ensures Priced(s + t) <==> Priced(s) && Priced(t)
  {
    forall i | 0 <= i < |s|
      ensures (s + t)[i] == s[i]
    {
    }
    forall i | 0 <= i < |t|
      ensures (s + t)[|s| + i] == t[i]
    {
    }
  }

  /** A new execution whose gain is eaten up exactly by its fee. */
  ghost predicate NetsToZero(b: Books, f: Fill, rate: real) {
    && f.Identity() !in b.Keys() && f.Price() != None
    && var t := TradeOf(f, f.Price().value, rate);
       Gain(b.At(f.ticker, f.side), t) == t.fee
  }

  /** Those are the executions taken for repeats: no others return zero and are new. */
  lemma NetsToZeroIff(b: Books, f: Fill, rate: real)
    ensures Apply(b, f, rate).1 == Applied(0) <==> NetsToZero(b, f, rate)
  {
    hide Fees.TotalFee;
  }

  /** How many of them a stream holds, each seen by the ledger it meets. */
  ghost function ZeroNet(b: Books, s: seq<Fill>, rate: real): nat {
    if s == [] then 0
    else
      ZeroNet(b, s[..|s| - 1], rate) +
      if NetsToZero(ApplyAll(b, s[..|s| - 1], rate), s[|s| - 1], rate) then 1 else 0
  }

  /** The count reported for a stream falls short of the rows added by exactly the new
      executions whose gain equals their fee; the ledger itself misses none of them. */
  lemma {:induction false} CountMissesZeroNet(p: Poll, s: seq<Fill>, rate: real)
    requires !p.raised && !ReadFills(p, s, rate).raised
    ensures var q := ReadFills(p, s, rate);
            q.applied - p.applied + ZeroNet(p.books, s, rate) == |q.books.rows| - |p.books.rows|
  {
    hide NetsToZero;
    if s != [] {
      var init := s[..|s| - 1];
      CountMissesZeroNet(p, init, rate);
      ReadFillsApplies(p, init, rate);
      NetsToZeroIff(ApplyAll(p.books, init, rate), s[|s| - 1], rate);
    }
  }

  /** An execution counts: it is new, has a price, and does not net to zero on the position
      it meets. */
  ghost predicate CountsOn(before: Books, f: Fill, rate: real) {
    f.Price() != None && f.Identity() !in before.Keys() && !NetsToZero(before, f, rate)
  }

  /** The i-th of a stream does. */
  ghost predicate Counts(b: Books, s: seq<Fill>, i: nat, rate: real)
    requires i < |s|
  {
    CountsOn(ApplyAll(b, s[..i], rate), s[i], rate)
  }

  lemma ReadSees(p: Poll, f: Fill, rate: real)
    requires !p.raised && !ReadFill(p, f, rate).raised
    ensures ReadFill(p, f, rate).seen == if CountsOn(p.books, f, rate) then Max(p.seen, Second(f.created)) else p.seen
  {
    hide NetsToZero;
    NetsToZeroIff(p.books, f, rate);
  }

  /** None of a stream that counts is newer than this second. */
  ghost predicate NoneNewer(b: Books, s: seq<Fill>, rate: real, n: nat) {
    forall i :: 0 <= i < |s| && Counts(b, s, i, rate) ==> Second(s[i].created) <= n
  }

  lemma NoneNewerLast(b: Books, s: seq<Fill>, rate: real, n: nat)
    requires s != []
    ensures var init, f := s[..|s| - 1], s[|s| - 1];
            NoneNewer(b, s, rate, n) <==> NoneNewer(b, init, rate, n) && (CountsOn(ApplyAll(b, init, rate), f, rate) ==> Second(f.created) <= n)
  {
    hide CountsOn, ApplyAll;
    var m := |s| - 1;
    forall i | 0 <= i < m
      ensures s[..m][i] == s[i] && (Counts(b, s, i, rate) <==> Counts(b, s[..m], i, rate))
    {
      assert s[..m][..i] == s[..i];
    }
    assert Counts(b, s, m, rate) <==> CountsOn(ApplyAll(b, s[..m], rate), s[m], rate);
  }

  /** The newest second seen is the newest of the executions that count. */
  lemma {:induction false} SeenIsNewestCounted(p: Poll, s: seq<Fill>, rate: real, n: nat)
    requires !ReadFills(p, s, rate).raised && !p.raised
    ensures ReadFills(p, s, rate).seen <= n <==> p.seen <= n && NoneNewer(p.books, s, rate, n)
  {
    hide NoneNewer, CountsOn, ReadFill, Apply, ApplyAll;
    if s != [] {
      var m := |s| - 1;
      var q := ReadFills(p, s[..m], rate);
      if q.raised { RaisedStaysOnce(q, s[m], rate); }
      SeenIsNewestCounted(p, s[..m], rate, n);
      ReadFillsApplies(p, s[..m], rate);
      ReadSees(q, s[m], rate);
      NoneNewerLast(p.books, s, rate, n);
    } else {
      NothingNewer(p.books, rate, n);
    }
  }

  lemma NothingNewer(b: Books, rate: real, n: nat)
    ensures NoneNewer(b, [], rate, n)
  {
  }

  /** One YES contract held at 49 cents. */
  const ONE_YES := Books([], map["M" := Position(Yes, 1, 4900, 0)])

  /** One NO contract bought at 49 cents as a taker. */
  const CLOSING_NO := Fill("o", "M", No, Buy, 1, None, Some(4900), true, 1000000)

  /** For instance a pair closed for two cents at the fee of two cents: the row is stored and
      the position closed, but the count and the newest second stay. */
  lemma PairForItsFee()
    ensures var p := Poll(ONE_YES, 0, 0, false);
            var q := ReadFill(p, CLOSING_NO, 0.07);
            && q.applied == 0 && q.seen == 0 && !q.raised
            && |q.books.rows| == 1 && q.books.book["M"] == Position(Yes, 0, 0, 0)
  {
    assert ONE_YES.Keys() == {};
    Fees.TwoCentFees(4900);
  }

  // ---- Runs against a growing server ---------------------------------------------------

  /** The exchange's executions, the ledger, and the mark (None after a restart). */
  datatype System = System(server: set<Fill>, books: Books, mark: Option<nat>) {
    /** What the next poll asks from. */
    function From(): nat {
      mark.GetOr(Latest(books.rows))
    }

    /** No execution may yet appear below this. */
    function Floor(): nat {
      Max(mark.GetOr(0), Latest(books.rows))
    }

    ghost predicate Ingested(f: Fill) {
      f.Identity() in books.Keys()
    }
  }

  /** An execution appears at the exchange; a poll; or the process ends, having committed the
      pages of an unfinished poll, if any, and another starts. */
  datatype Event = Arrive(fill: Fill) | CatchUp(responses: seq<Response>) | Restart(pages: seq<Response>)

  ghost function PollOf(s: System, responses: seq<Response>, rate: real): Poll {
    ReadAll(Poll(s.books, s.From(), 0, false), responses, rate)
  }

  ghost function Happen(s: System, e: Event, rate: real): System {
    match e
    case Arrive(f) => s.(server := s.server + {f})
    case CatchUp(responses) =>
      var p := PollOf(s, responses, rate);
      s.(books := p.books, mark := Some(if p.raised then s.From() else Mark(s.From(), p.seen)))
    case Restart(pages) => s.(books := PollOf(s, pages, rate).books, mark := None)
  }

  ghost function HappenAll(s: System, es: seq<Event>, rate: real): System {
    if es == [] then s else Happen(HappenAll(s, es[..|es| - 1], rate), es[|es| - 1], rate)
  }

  ghost predicate NoRepeatedRows(rows: seq<FillRow>) {
    forall i, j :: 0 <= i < j < |rows| ==> rows[i].Identity() != rows[j].Identity()
  }

  /** Every execution of the exchange before that second is stored. */
  ghost predicate StoredBelow(s: System, second: nat) {
    forall f :: f in s.server && Second(f.created) < second ==> s.Ingested(f)
  }

  /** What ingestion is for: each execution below the mark, which will not be asked for again,
      is stored, and none is stored twice. */
  ghost predicate Complete(s: System) {
    NoRepeatedRows(s.books.rows) && StoredBelow(s, s.From())
  }

  lemma {:induction false} ApplyAllNoRepeats(b: Books, s: seq<Fill>, rate: real)
    requires NoRepeatedRows(b.rows)
    ensures NoRepeatedRows(ApplyAll(b, s, rate).rows)
  {
    if s != [] {
      var mid, f := ApplyAll(b, s[..|s| - 1], rate), s[|s| - 1];
      ApplyAllNoRepeats(b, s[..|s| - 1], rate);
      if f.Price() != None && f.Identity() !in mid.Keys() {
        assert RowOf(f, TradeOf(f, f.Price().value, rate)).Identity() == f.Identity();
        forall i | 0 <= i < |mid.rows|
          ensures mid.rows[i].Identity() != f.Identity()
        {
          assert mid.rows[i] in mid.rows;
        }
      }
    }
  }

  lemma IngestedAfter(b: Books, s: seq<Fill>, f: Fill, rate: real)
    requires f in s && f.Price() != None
    ensures f.Identity() in ApplyAll(b, s, rate).Keys()
  {
    ApplyAllKeys(b, s, rate);
    var i :| 0 <= i < |s| && s[i] == f;
    assert s[i].Identity() in Identities(s);
  }

  /** What a poll of these pages commits. */
  ghost function KeptOf(s: System, responses: seq<Response>): seq<Fill> {
    Kept(s.books.Keys(), responses)
  }

  /** An execution of the exchange that is neither stored nor among these. */
  ghost predicate Missing(s: System, k: seq<Fill>, f: Fill) {
    f in s.server && !s.Ingested(f) && f.Identity() !in Identities(k)
  }

  /** The poll moves the mark past this second: an execution that counts is newer than the
      mark, and not older than this. */
  ghost predicate PollPasses(s: System, k: seq<Fill>, second: nat, rate: real) {
    exists i :: 0 <= i < |k| && Counts(s.books, k, i, rate) && s.From() < Second(k[i].created) && second <= Second(k[i].created)
  }

  /** A restart puts the mark past this second: something newer is stored, or committed. */
  ghost predicate RestartPasses(s: System, k: seq<Fill>, second: nat) {
    second < Latest(s.books.rows) || exists g :: g in Identities(k) && second < Second(g.created)
  }

  /** When an event loses nothing, as far as can be told before it. An arrival must not come
      below the mark, unless it is a repeat. A poll that does not raise, and a restart that
      may come in the middle of a poll, must pass nothing that is missing from the pages they
      commit; a poll that raises leaves the mark. */
  ghost predicate Safe(s: System, e: Event, rate: real) {
    match e
    case Arrive(f) => s.From() <= Second(f.created) || s.Ingested(f)
    case CatchUp(responses) =>
      Raises(s.books.Keys(), responses) ||
      forall f :: Missing(s, KeptOf(s, responses), f) ==> !PollPasses(s, KeptOf(s, responses), Second(f.created), rate)
    case Restart(pages) =>
      forall f :: Missing(s, KeptOf(s, pages), f) ==> !RestartPasses(s, KeptOf(s, pages), Second(f.created))
  }

  lemma PollStores(s: System, responses: seq<Response>, rate: real)
    requires NoRepeatedRows(s.books.rows)
    ensures var p := PollOf(s, responses, rate);
            && NoRepeatedRows(p.books.rows)
            && (p.raised <==> Raises(s.books.Keys(), responses))
            && p.books.Keys() == s.books.Keys() + Identities(KeptOf(s, responses))
  {
    hide Raises, ReadAll;
    PollAppliesStream(Poll(s.books, s.From(), 0, false), responses, rate);
    ApplyAllNoRepeats(s.books, KeptOf(s, responses), rate);
    ApplyAllKeys(s.books, KeptOf(s, responses), rate);
  }

  /** Where the mark stands after a poll that does not raise. */
  lemma PollMoves(s: System, responses: seq<Response>, rate: real, second: nat)
    requires !Raises(s.books.Keys(), responses) && s.From() <= second
    ensures second < Happen(s, CatchUp(responses), rate).From() <==> PollPasses(s, KeptOf(s, responses), second, rate)
  {
    hide Raises, ReadAll, Counts, ReadFills;
    var p, k := Poll(s.books, s.From(), 0, false), KeptOf(s, responses);
    PollAppliesStream(p, responses, rate);
    SeenIsNewestCounted(p, k, rate, s.From());
    if second > s.From() {
      SeenIsNewestCounted(p, k, rate, second - 1);
    }
  }

  /** The initial mark is the newest second among the identities stored. */
  lemma {:induction false} LatestIsNewest(rows: seq<FillRow>, n: nat)
    ensures Latest(rows) <= n <==> forall r :: r in rows ==> Second(r.created) <= n
  {
    if rows != [] {
      LatestIsNewest(rows[..|rows| - 1], n);
      assert rows == rows[..|rows| - 1] + [rows[|rows| - 1]];
    }
  }

  lemma LatestOfKeys(b: Books, n: nat)
    ensures Latest(b.rows) <= n <==> forall g :: g in b.Keys() ==> Second(g.created) <= n
  {
    LatestIsNewest(b.rows, n);
    forall r | r in b.rows
      ensures r.Identity() in b.Keys() && r.Identity().created == r.created
    {
    }
  }

  /** Where the mark stands after a restart. */
  lemma RestartMoves(s: System, pages: seq<Response>, rate: real, second: nat)
    requires NoRepeatedRows(s.books.rows)
    ensures second < Happen(s, Restart(pages), rate).From() <==> RestartPasses(s, KeptOf(s, pages), second)
  {
    hide PollOf, Latest;
    PollStores(s, pages, rate);
    LatestOfKeys(s.books, second);
    LatestOfKeys(PollOf(s, pages, rate).books, second);
  }

  /** Each event keeps ingestion complete if and only if it is safe: arrivals, polls cut short
      by an error or a missing price, and restarts in the middle of a poll alike. */
  lemma StepKeepsCompleteIffSafe(s: System, e: Event, rate: real)
    requires Complete(s)
    ensures Complete(Happen(s, e, rate)) <==> Safe(s, e, rate)
  {
    hide PollOf, NoRepeatedRows, PollPasses, RestartPasses, Raises, KeptOf, Latest;
    var s' := Happen(s, e, rate);
    match e {
      case Arrive(_) =>
      case CatchUp(responses) =>
        PollStores(s, responses, rate);
        if !Raises(s.books.Keys(), responses) {
          forall f | Missing(s, KeptOf(s, responses), f)
            ensures Second(f.created) < s'.From() <==> PollPasses(s, KeptOf(s, responses), Second(f.created), rate)
          {
            PollMoves(s, responses, rate, Second(f.created));
          }
        }
      case Restart(pages) =>
        PollStores(s, pages, rate);
        forall f | Missing(s, KeptOf(s, pages), f)
          ensures Second(f.created) < s'.From() <==> RestartPasses(s, KeptOf(s, pages), Second(f.created))
        {
          RestartMoves(s, pages, rate, Second(f.created));
        }
    }
  }

  /** What makes every cut harmless is an exchange that lists the oldest first: a poll cut
      anywhere loses nothing when all that is missing from its pages is newer than all that
      is on them; nor does the end of the process, with nothing missing below the newest row. */
  lemma OldestFirstIsSafe(s: System, responses: seq<Response>, rate: real)
    requires Complete(s)
    requires forall f, g :: Missing(s, KeptOf(s, responses), f) && g in KeptOf(s, responses) ==> Second(g.created) < Second(f.created)
    ensures Complete(Happen(s, CatchUp(responses), rate))
    ensures StoredBelow(s, Latest(s.books.rows)) ==> Complete(Happen(s, Restart(responses), rate))
  {
    hide Raises, Complete, Counts, Latest;
    StepKeepsCompleteIffSafe(s, CatchUp(responses), rate);
    StepKeepsCompleteIffSafe(s, Restart(responses), rate);
    var k := KeptOf(s, responses);
    forall f | Missing(s, k, f)
      ensures !PollPasses(s, k, Second(f.created), rate)
      ensures StoredBelow(s, Latest(s.books.rows)) ==> !RestartPasses(s, k, Second(f.created))
    {
      forall i | 0 <= i < |k|
        ensures Second(k[i].created) < Second(f.created)
      {
        assert k[i] in k;
      }
      forall g | g in Identities(k)
        ensures Second(g.created) < Second(f.created)
      {
        var i :| 0 <= i < |k| && k[i].Price() != None && k[i].Identity() == g;
      }
    }
  }

  /** A restart, in the middle of a poll or between polls, keeps ingestion complete if and only
      if everything missing is at least as new as the newest stored row and as everything the
      poll commits. */
  lemma RestartKeepsIff(s: System, pages: seq<Response>, rate: real)
    requires Complete(s)
    ensures Complete(Happen(s, Restart(pages), rate)) <==>
            forall f :: Missing(s, KeptOf(s, pages), f) ==>
              Latest(s.books.rows) <= Second(f.created) && forall g :: g in Identities(KeptOf(s, pages)) ==> Second(g.created) <= Second(f.created)
  {
    hide Complete, Happen, Missing, KeptOf;
    StepKeepsCompleteIffSafe(s, Restart(pages), rate);
  }

  ghost predicate AlwaysComplete(s: System, es: seq<Event>, rate: real) {
    Complete(HappenAll(s, es, rate)) && (es != [] ==> AlwaysComplete(s, es[..|es| - 1], rate))
  }

  ghost predicate SafeRun(s: System, es: seq<Event>, rate: real) {
    es == [] || (SafeRun(s, es[..|es| - 1], rate) && Safe(HappenAll(s, es[..|es| - 1], rate), es[|es| - 1], rate))
  }

  /** Over runs of any events ingestion stays complete throughout if and only if every event
      is safe where it happens. */
  lemma {:induction false} AlwaysCompleteIffSafe(s: System, es: seq<Event>, rate: real)
    requires Complete(s)
    ensures AlwaysComplete(s, es, rate) <==> SafeRun(s, es, rate)
  {
    hide Complete, Safe, Happen;
    if es != [] {
      var init := es[..|es| - 1];
      AlwaysCompleteIffSafe(s, init, rate);
      if AlwaysComplete(s, init, rate) {
        StepKeepsCompleteIffSafe(HappenAll(s, init, rate), es[|es| - 1], rate);
      }
    }
  }

  // ---- Polls that reach the last page --------------------------------------------------

  /** Every page was read, to the last. */
  predicate ReachedEnd(responses: seq<Response>)
    decreases |responses|
  {
    responses != [] && responses[0].Page? &&
    (responses[0].fills == [] || !responses[0].more || ReachedEnd(responses[1..]))
  }

  /** The pages hold exactly the server's executions from `from` on. */
  ghost predicate Answers(server: set<Fill>, from: nat, responses: seq<Response>) {
    && ReachedEnd(responses)
    && forall f :: f in Fetched(responses) <==> f in server && from <= Second(f.created)
  }

  ghost predicate AllPriced(server: set<Fill>) {
    forall f :: f in server ==> f.Price() != None
  }

  lemma {:induction false} EndIsCaught(responses: seq<Response>)
    requires ReachedEnd(responses)
    ensures Caught(responses)
    decreases |responses|
  {
    if responses[0].fills != [] && responses[0].more { EndIsCaught(responses[1..]); }
  }

  lemma FetchedArePriced(server: set<Fill>, from: nat, responses: seq<Response>)
    requires AllPriced(server) && Answers(server, from, responses)
    ensures Priced(Fetched(responses)) && Caught(responses)
  {
    EndIsCaught(responses);
    forall i | 0 <= i < |Fetched(responses)|
      ensures Fetched(responses)[i].Price() != None
    {
      assert Fetched(responses)[i] in Fetched(responses);
    }
  }

  /** One complete poll leaves nothing of the server out. */
  lemma PollIngestsAll(s: System, responses: seq<Response>, rate: real)
    requires Complete(s) && AllPriced(s.server) && Answers(s.server, s.From(), responses)
    ensures Safe(s, CatchUp(responses), rate)
    ensures forall f :: f in s.server ==> Happen(s, CatchUp(responses), rate).Ingested(f)
  {
    hide Raises, ReadAll, Kept;
    FetchedArePriced(s.server, s.From(), responses);
    PricedDoNotRaise(s.books.Keys(), responses);
    PollAppliesStream(Poll(s.books, s.From(), 0, false), responses, rate);
    PollStores(s, responses, rate);
    forall f | f in s.server
      ensures s.Ingested(f) || f.Identity() in Identities(KeptOf(s, responses))
    {
      if s.From() <= Second(f.created) {
        var i :| 0 <= i < |Fetched(responses)| && Fetched(responses)[i] == f;
        assert Fetched(responses)[i].Identity() in Identities(Fetched(responses));
      }
    }
  }

  /** Executions carry prices and do not appear below the mark; polls read to the end; and
      between polls the process ends only with nothing missing below the newest stored row. */
  ghost predicate Orderly(s: System, e: Event) {
    match e
    case Arrive(f) => f.Price() != None && s.From() <= Second(f.created)
    case CatchUp(responses) => Answers(s.server, s.From(), responses)
    case Restart(pages) => pages == [] && StoredBelow(s, Latest(s.books.rows))
  }

  ghost predicate OrderlyRun(s: System, es: seq<Event>, rate: real) {
    es == [] || (OrderlyRun(s, es[..|es| - 1], rate) && Orderly(HappenAll(s, es[..|es| - 1], rate), es[|es| - 1]))
  }

  lemma OrderlyIsSafe(s: System, e: Event, rate: real)
    requires Complete(s) && AllPriced(s.server) && Orderly(s, e)
    ensures Safe(s, e, rate) && AllPriced(Happen(s, e, rate).server)
  {
    if e.CatchUp? {
      PollIngestsAll(s, e.responses, rate);
    }
  }

  /** In every orderly run each execution the exchange has below the mark is stored, exactly
      once. */
  lemma {:induction false} IngestionIsComplete(s: System, es: seq<Event>, rate: real)
    requires Complete(s) && AllPriced(s.server) && OrderlyRun(s, es, rate)
    ensures Complete(HappenAll(s, es, rate)) && AllPriced(HappenAll(s, es, rate).server)
  {
    hide Complete, Safe, Happen, Orderly, AllPriced;
    if es != [] {
      var init := es[..|es| - 1];
      IngestionIsComplete(s, init, rate);
      OrderlyIsSafe(HappenAll(s, init, rate), es[|es| - 1], rate);
      StepKeepsCompleteIffSafe(HappenAll(s, init, rate), es[|es| - 1], rate);
    }
  }

  /** Of any two rows none has the identity of the other, so what is stored is stored once. */
  lemma StoredExactlyOnce(s: System, f: Fill) returns (i: nat)
    requires Complete(s) && f in s.server && Second(f.created) < s.From()
    ensures i < |s.books.rows| && s.books.rows[i].Identity() == f.Identity()
    ensures forall j :: 0 <= j < |s.books.rows| && s.books.rows[j].Identity() == f.Identity() ==> j == i
  {
    assert s.Ingested(f);
    var r :| r in s.books.rows && r.Identity() == f.Identity();
    i :| 0 <= i < |s.books.rows| && s.books.rows[i] == r;
  }

  // ---- Restarts at any time ------------------------------------------------------------

  /** Complete past the mark, up to the newest stored row. */
  ghost predicate CompleteToFloor(s: System) {
    NoRepeatedRows(s.books.rows) && AllPriced(s.server) && StoredBelow(s, s.Floor())
  }

  /** As Orderly, but with restarts anywhere between polls, which takes that no execution
      appears below the newest stored row either. */
  ghost predicate Strict(s: System, e: Event) {
    match e
    case Arrive(f) => f.Price() != None && s.Floor() <= Second(f.created)
    case CatchUp(responses) => Answers(s.server, s.From(), responses)
    case Restart(pages) => pages == []
  }

  ghost predicate StrictRun(s: System, es: seq<Event>, rate: real) {
    es == [] || (StrictRun(s, es[..|es| - 1], rate) && Strict(HappenAll(s, es[..|es| - 1], rate), es[|es| - 1]))
  }

  lemma StrictStepKeeps(s: System, e: Event, rate: real)
    requires CompleteToFloor(s) && Strict(s, e)
    ensures CompleteToFloor(Happen(s, e, rate))
  {
    if e.CatchUp? {
      PollIngestsAll(s, e.responses, rate);
      PollStores(s, e.responses, rate);
    }
  }

  /** Then every execution below the mark and below the newest stored row is stored, exactly
      once, however often the process restarts. */
  lemma {:induction false} RestartsLoseNothing(s: System, es: seq<Event>, rate: real)
    requires CompleteToFloor(s) && StrictRun(s, es, rate)
    ensures CompleteToFloor(HappenAll(s, es, rate)) && Complete(HappenAll(s, es, rate))
  {
    hide Happen, Strict;
    if es != [] {
      RestartsLoseNothing(s, es[..|es| - 1], rate);
      StrictStepKeeps(HappenAll(s, es[..|es| - 1], rate), es[|es| - 1], rate);
    }
  }

  // ---- What is lost --------------------------------------------------------------------

  const OLDER := Fill("a", "M", Yes, Buy, 1, Some(5000), None, true, 1000000)
  const NEWER := Fill("b", "M", Yes, Buy, 1, Some(5000), None, true, 9000000)

  /** One page with the newer of two executions, and more to come. */
  function FirstPage(): Response {
    Page([NEWER], true)
  }

  lemma NewerIsPosted()
    ensures var p := ReadPage(Poll(Books([], map[]), 0, 0, false), [NEWER], 0.07);
            && p.seen == 9 && !p.raised && |p.books.rows| == 1
            && p.books.rows[0].Identity() == NEWER.Identity() && Second(p.books.rows[0].created) == 9
  {
    var b := Books([], map[]);
    assert b.Keys() == {};
    assert [NEWER][..0] == [];
    Fees.TwoCentFees(5000);
    assert TradeOf(NEWER, 5000, 0.07) == Trade(Yes, Buy, 1, 5000, 200);
    assert Apply(b, NEWER, 0.07).1 == Applied(-200);
    var p := Poll(b, 0, 0, false);
    assert ReadFills(p, [NEWER], 0.07) == ReadFill(p, NEWER, 0.07);
  }

  /** The exchange lists the newer execution first and the next page cannot be had, or the
      process dies before it: the mark has passed the older execution for good. */
  lemma CutPollLosesOlder()
    ensures var s := System({OLDER, NEWER}, Books([], map[]), None);
            && Complete(s)
            && !Complete(Happen(s, CatchUp([FirstPage(), ApiError]), 0.07))
            && !Complete(Happen(s, Restart([FirstPage()]), 0.07))
  {
    var s := System({OLDER, NEWER}, Books([], map[]), None);
    NewerIsPosted();
    hide ReadPage;
    var p := Poll(s.books, 0, 0, false);
    var q := ReadPage(p, [NEWER], 0.07);
    assert [FirstPage(), ApiError][1..] == [ApiError] && [FirstPage()][1..] == [];
    assert PollOf(s, [FirstPage(), ApiError], 0.07) == q && PollOf(s, [FirstPage()], 0.07) == q;
    assert q.books.rows == [q.books.rows[0]];
    assert OLDER.Identity() != NEWER.Identity();
    assert OLDER.Identity() !in q.books.Keys();
    var cut := Happen(s, CatchUp([FirstPage(), ApiError]), 0.07);
    assert OLDER in cut.server && cut.From() == 10;
    var died := Happen(s, Restart([FirstPage()]), 0.07);
    assert q.books.rows[..0] == [];
    assert OLDER in died.server && died.From() == 9;
  }

  /** The mark of a process that stored a pair for its fee lags behind its newest row: an
      execution in between is safe, until a restart jumps over it. */
  lemma RestartJumpsOverArrival()
    ensures var late := OLDER.(created := 3000000);
            var row := RowOf(NEWER, TradeOf(NEWER, 5000, 0.07));
            var s := System({NEWER}, Books([row], map[]), Some(2));
            var t := Happen(s, Arrive(late), 0.07);
            && Complete(s) && Complete(t) && Second(late.created) < Latest(s.books.rows)
            && !Complete(Happen(t, Restart([]), 0.07))
  {
    var late := OLDER.(created := 3000000);
    var row := RowOf(NEWER, TradeOf(NEWER, 5000, 0.07));
    var s := System({NEWER}, Books([row], map[]), Some(2));
    var t := Happen(s, Arrive(late), 0.07);
    assert row.Identity() == NEWER.Identity() && row in s.books.rows;
    assert [row][..0] == [];
    assert Latest([]) == 0;
    assert Latest(s.books.rows) == 9;
    assert late.Identity() !in s.books.Keys();
    var u := Happen(t, Restart([]), 0.07);
    assert late in u.server && u.From() == 9;
  }

  /** Whether the next complete poll picks a newly arrived execution up is decided by the
      mark alone: it does exactly when the execution's second is not below it. */
  lemma ArrivalIsPickedUpIffNotBelowMark(s: System, f: Fill, responses: seq<Response>, rate: real)
    requires AllPriced(s.server) && f.Price() != None
    requires !s.Ingested(f) && forall g :: g in s.server ==> g.Identity() != f.Identity()
    requires Answers(s.server + {f}, s.From(), responses)
    ensures Happen(Happen(s, Arrive(f), rate), CatchUp(responses), rate).Ingested(f) <==> s.From() <= Second(f.created)
  {
    var t := Happen(s, Arrive(f), rate);
    var fetched := Fetched(responses);
    FetchedArePriced(t.server, t.From(), responses);
    PricedDoNotRaise(t.books.Keys(), responses);
    PollAppliesStream(Poll(t.books, t.From(), 0, false), responses, rate);
    ApplyAllKeys(t.books, fetched, rate);
    if s.From() <= Second(f.created) {
      IngestedAfter(t.books, fetched, f, rate);
    } else {
      forall i | 0 <= i < |fetched|
        ensures fetched[i].Identity() != f.Identity()
      {
        assert fetched[i] in fetched;
      }
    }
  }

  /** An execution the poll did not bring is below the mark from then on, and never asked for,
      if and only if one that counted was newer than the old mark and is not older than it. */
  lemma LateIsBelowMarkIff(s: System, responses: seq<Response>, late: Fill, rate: real)
    requires !Raises(s.books.Keys(), responses) && s.From() <= Second(late.created)
    ensures Second(late.created) < Happen(s, CatchUp(responses), rate).From() <==>
            exists i :: 0 <= i < |KeptOf(s, responses)| && Counts(s.books, KeptOf(s, responses), i, rate)
                        && s.From() < Second(KeptOf(s, responses)[i].created)
                        && Second(late.created) <= Second(KeptOf(s, responses)[i].created)
  {
    hide Raises, KeptOf, Counts, Happen;
    PollMoves(s, responses, rate, Second(late.created));
  }

  /** In particular one reported late but within the same second as one that counted. */
  lemma SameSecondIsBelowMark(s: System, responses: seq<Response>, i: nat, late: Fill, rate: real)
    requires !Raises(s.books.Keys(), responses) && i < |KeptOf(s, responses)| && Counts(s.books, KeptOf(s, responses), i, rate)
    requires s.From() < Second(KeptOf(s, responses)[i].created) == Second(late.created)
    ensures Second(late.created) < Happen(s, CatchUp(responses), rate).From()
  {
    hide Raises, KeptOf, Counts, Happen;
    LateIsBelowMarkIff(s, responses, late, rate);
  }
}
