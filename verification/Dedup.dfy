/** Repeats, overlapping pages and replays do not matter: the checked ledger is the unchecked
    one run over the first occurrence of every identity. */
module Dedup {
  import opened Wrappers
  import opened Ticks
  import opened Positions
  import opened Conservation

  /** The loop over a stream of executions; one without a price changes nothing. */
  ghost function ApplyAll(b: Books, s: seq<Fill>, rate: real): Books {
    if s == [] then b else Apply(ApplyAll(b, s[..|s| - 1], rate), s[|s| - 1], rate).0
  }

  ghost function Identities(s: seq<Fill>): set<Key> {
    set i | 0 <= i < |s| && s[i].Price() != None :: s[i].Identity()
  }

  /** The i-th execution has a price and an identity met neither in `known` nor earlier. */
  ghost predicate IsFirst(known: set<Key>, s: seq<Fill>, i: nat)
    requires i < |s|
  {
    && s[i].Price() != None
    && s[i].Identity() !in known
    && forall j :: 0 <= j < i && s[j].Price() != None ==> s[j].Identity() != s[i].Identity()
  }

  /** The stream without its repeats. */
  ghost function Distinct(known: set<Key>, s: seq<Fill>): (d: seq<Fill>)
    ensures Priced(d)
  {
    if s == [] then []
    else
      var front := Distinct(known, s[..|s| - 1]);
      if IsFirst(known, s, |s| - 1) then front + [s[|s| - 1]] else front
  }

  lemma IdentitiesLast(s: seq<Fill>)
    requires s != []
    ensures Identities(s) == Identities(s[..|s| - 1]) + (if s[|s| - 1].Price() != None then {s[|s| - 1].Identity()} else {})
  {
    var init, last := s[..|s| - 1], s[|s| - 1];
    forall k | k in Identities(s)
      ensures k in Identities(init) || (last.Price() != None && k == last.Identity())
    {
      var i :| 0 <= i < |s| && s[i].Price() != None && s[i].Identity() == k;
      if i < |s| - 1 { assert init[i] == s[i]; }
    }
    forall k | k in Identities(init)
      ensures k in Identities(s)
    {
      var i :| 0 <= i < |init| && init[i].Price() != None && init[i].Identity() == k;
      assert s[i] == init[i];
    }
  }

  lemma PostKeys(b: Books, f: Fill, price: int, rate: real)
    ensures Post(b, f, price, rate).Keys() == b.Keys() + {f.Identity()}
  {
    var row := RowOf(f, TradeOf(f, price, rate));
    assert row.Identity() == f.Identity();
    var after := Post(b, f, price, rate);
    assert after.rows == b.rows + [row];
    assert row in after.rows;
    forall r | r in b.rows ensures r in after.rows {}
  }

  /** Afterwards the ledger holds exactly the identities it held and those of the stream. */
  lemma {:induction false} ApplyAllKeys(b: Books, s: seq<Fill>, rate: real)
    ensures ApplyAll(b, s, rate).Keys() == b.Keys() + Identities(s)
  {
    if s != [] {
      ApplyAllKeys(b, s[..|s| - 1], rate);
      IdentitiesLast(s);
      var f := s[|s| - 1];
      if f.Price() != None {
        PostKeys(ApplyAll(b, s[..|s| - 1], rate), f, f.Price().value, rate);
      }
    }
  }

  /** The refinement: checking each execution against the table gives the same two tables
      as posting, unchecked, the first occurrences only. */
  lemma {:induction false} AppliesEachOnce(b: Books, s: seq<Fill>, rate: real)
    ensures ApplyAll(b, s, rate) == PostAll(b, Distinct(b.Keys(), s), rate)
  {
    if s != [] {
      var init, f := s[..|s| - 1], s[|s| - 1];
      AppliesEachOnce(b, init, rate);
      ApplyAllKeys(b, init, rate);
      FirstIffUnknown(b.Keys(), s);
      var d := Distinct(b.Keys(), init);
      if IsFirst(b.Keys(), s, |s| - 1) {
        assert (d + [f])[..|d + [f]| - 1] == d;
      }
    }
  }

  lemma FirstIffUnknown(known: set<Key>, s: seq<Fill>)
    requires s != []
    ensures var f := s[|s| - 1];
            IsFirst(known, s, |s| - 1) <==> f.Price() != None && f.Identity() !in known + Identities(s[..|s| - 1])
  {
    var init, f := s[..|s| - 1], s[|s| - 1];
    if f.Identity() in Identities(init) {
      var i :| 0 <= i < |init| && init[i].Price() != None && init[i].Identity() == f.Identity();
      assert s[i] == init[i];
    }
    forall j | 0 <= j < |s| - 1 && s[j].Price() != None
      ensures s[j].Identity() in Identities(init)
    {
      assert init[j] == s[j];
    }
  }

  /** Pages may be cut anywhere. */
  lemma {:induction false} ApplyAllConcat(b: Books, s: seq<Fill>, t: seq<Fill>, rate: real)
    ensures ApplyAll(b, s + t, rate) == ApplyAll(ApplyAll(b, s, rate), t, rate)
  {
    if t == [] {
      assert s + t == s;
    } else {
      assert (s + t)[..|s + t| - 1] == s + t[..|t| - 1];
      ApplyAllConcat(b, s, t[..|t| - 1], rate);
    }
  }

  /** Replaying executions whose identities are stored changes nothing, whatever their order,
      repetition or other contents. */
  lemma {:induction false} ReplayIsNoOp(b: Books, s: seq<Fill>, rate: real)
    requires Identities(s) <= b.Keys()
    ensures ApplyAll(b, s, rate) == b
  {
    if s != [] {
      IdentitiesLast(s);
      ReplayIsNoOp(b, s[..|s| - 1], rate);
    }
  }

  /** A stream, then any rereading of parts of it, is the stream. */
  lemma RereadIsNoOp(b: Books, s: seq<Fill>, again: seq<Fill>, rate: real)
    requires forall f :: f in again ==> f in s
    ensures ApplyAll(b, s + again, rate) == ApplyAll(b, s, rate)
  {
    ApplyAllConcat(b, s, again, rate);
    ApplyAllKeys(b, s, rate);
    forall k | k in Identities(again)
      ensures k in Identities(s)
    {
      var i :| 0 <= i < |again| && again[i].Price() != None && again[i].Identity() == k;
      assert again[i] in s;
      var j :| 0 <= j < |s| && s[j] == again[i];
    }
    ReplayIsNoOp(ApplyAll(b, s, rate), again, rate);
  }

  /** Conservation for the checked ledger over any stream whatever, from an empty one. */
  lemma StreamConserves(s: seq<Fill>, rate: real)
    ensures var d := Distinct({}, s);
            var b := Books([], map[]);
            var e := ApplyAll(b, s, rate);
            var cash := DOLLAR * PairsClosed(b, d, rate) + Proceeds(b, d, rate) - Paid(d) - FeesPaid(d, rate);
            Abs(2 * (Realized(e.book) - Exposure(e.book) - cash)) <= Slack(b, d, rate)
  {
    hide ApplyAll, Distinct, PostAll, PairsClosed, Proceeds, Paid, FeesPaid, Slack;
    var b := Books([], map[]);
    assert b.Keys() == {};
    AppliesEachOnce(b, s, rate);
    LedgerConserves(b, Distinct({}, s), rate);
    assert CostMap(b.book) == map[] && RealizedMap(b.book) == map[];
  }

  /** Same order, market, time and count: what the program looks up before it stores. */
  predicate Alike(f: Fill, g: Fill) {
    f.orderId == g.orderId && f.ticker == g.ticker && f.created == g.created && f.count == g.count
  }

  /** The identity ignores the exchange's trade number, so two executions of one order at
      the same microsecond and of the same size are one to the ledger: exactly the streams
      without such a pair are posted in full. */
  lemma {:induction false} PostedInFullIffDistinctIdentities(s: seq<Fill>)
    requires Priced(s)
    ensures Distinct({}, s) == s <==> forall i, j :: 0 <= i < j < |s| ==> !Alike(s[i], s[j])
  {
    DistinctLength({}, s);
    if s != [] {
      var init := s[..|s| - 1];
      PostedInFullIffDistinctIdentities(init);
      DistinctLength({}, init);
      if IsFirst({}, s, |s| - 1) {
        assert s == init + [s[|s| - 1]];
        if Distinct({}, s) == s { assert Distinct({}, init) == s[..|s| - 1]; }
      }
    }
  }

  lemma {:induction false} DistinctLength(known: set<Key>, s: seq<Fill>)
    ensures |Distinct(known, s)| <= |s|
  {
    if s != [] { DistinctLength(known, s[..|s| - 1]); }
  }
}
