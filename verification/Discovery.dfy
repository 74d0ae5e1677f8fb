/** Market discovery: a paged scan that filters as it goes and stops as soon as it has enough. */
module Discovery {
  import opened Wrappers
  import opened Ticks

  /** Status and category are lower-cased; `category` is empty when missing. */
  datatype Market = Market(
    ticker: string, status: string, hasYesAsk: bool, hasNoAsk: bool, category: string,
    volume: Option<int>, closeTime: Option<int>)

  datatype Filter = Filter(categories: set<string>, minVolume: int, closeCutoff: int, recentlySignalled: set<string>)

  datatype Rejection = BadStatus | NoAskPrice | WrongCategory | LowVolume | ImminentClose

  /** One answer of `list_markets`. */
  datatype Listing = ListFailed | Listed(markets: seq<Market>, more: bool)

  function RejectReason(f: Filter, m: Market): Option<Rejection> {
    if m.status != "active" && m.status != "open" then Some(BadStatus)
    else if !m.hasYesAsk || !m.hasNoAsk then Some(NoAskPrice)
    else if f.categories != {} && m.category !in f.categories then Some(WrongCategory)
    else if m.volume != None && m.volume.value < f.minVolume then Some(LowVolume)
    else if m.closeTime != None && m.closeTime.value < f.closeCutoff then Some(ImminentClose)
    else None
  }

  predicate Passes(f: Filter, m: Market) {
    RejectReason(f, m) == None && m.ticker !in f.recentlySignalled
  }

  /** The passing markets, in order. */
  function Selected(f: Filter, s: seq<Market>): seq<Market> {
    if s == [] then []
    else Selected(f, s[..|s| - 1]) + if Passes(f, s[|s| - 1]) then [s[|s| - 1]] else []
  }

  /** The markets listed before the page limit, a missing cursor or an error. */
  function Scanned(listings: seq<Listing>, maxPages: int): seq<Market>
    decreases |listings|
  {
    if maxPages <= 0 || listings == [] || listings[0].ListFailed? then []
    else listings[0].markets + if listings[0].more then Scanned(listings[1..], maxPages - 1) else []
  }

  function FirstOf(s: seq<Market>, n: nat): seq<Market> {
    if |s| <= n then s else s[..n]
  }

  lemma {:induction false} SelectedConcat(f: Filter, s: seq<Market>, t: seq<Market>)
    ensures Selected(f, s + t) == Selected(f, s) + Selected(f, t)
  {
    if t == [] {
      assert s + t == s;
    } else {
      assert (s + t)[..|s + t| - 1] == s + t[..|t| - 1];
      SelectedConcat(f, s, t[..|t| - 1]);
    }
  }

  lemma FirstOfPrefix(s: seq<Market>, t: seq<Market>, n: nat)
    ensures |FirstOf(s, n)| == n ==> FirstOf(s + t, n) == FirstOf(s, n)
    ensures |FirstOf(s, n)| < n ==> FirstOf(s, n) == s
  {
  }

  /** What a listing adds to the scan. */
  lemma ScannedStep(f: Filter, listings: seq<Listing>, maxPages: int)
    requires maxPages > 0 && listings != [] && listings[0].Listed?
    ensures Selected(f, Scanned(listings, maxPages)) ==
            Selected(f, listings[0].markets) + (if listings[0].more then Selected(f, Scanned(listings[1..], maxPages - 1)) else [])
  {
    SelectedConcat(f, listings[0].markets, if listings[0].more then Scanned(listings[1..], maxPages - 1) else []);
  }

  /** One page: adds passing markets until there are `enough`. */
  method ScanPage(f: Filter, markets: seq<Market>, found: seq<Market>, enough: int) returns (candidates: seq<Market>, full: bool)
    requires |found| < Max(enough, 1)
    ensures candidates == FirstOf(found + Selected(f, markets), Max(enough, 1))
    ensures full <==> |candidates| == Max(enough, 1)
  {
    hide FirstOf, RejectReason;
    candidates := found;
    var i := 0;
    while i < |markets|
      invariant 0 <= i <= |markets|
      invariant |candidates| < Max(enough, 1)
      invariant candidates == found + Selected(f, markets[..i])
    {
      SelectedNext(f, markets, i);
      if Passes(f, markets[i]) {
        candidates := candidates + [markets[i]];
        if |candidates| >= enough {
          EnoughFound(f, markets, i + 1, found, |candidates|);
          return candidates, true;
        }
      }
      i := i + 1;
    }
    assert markets[..|markets|] == markets;
    FirstOfShort(candidates, Max(enough, 1));
    full := false;
  }

  lemma SelectedNext(f: Filter, s: seq<Market>, i: nat)
    requires i < |s|
    ensures Selected(f, s[..i + 1]) == Selected(f, s[..i]) + if Passes(f, s[i]) then [s[i]] else []
  {
    assert s[..i + 1][..i] == s[..i];
  }

  /** What comes after the limit is reached does not matter. */
  lemma EnoughFound(f: Filter, s: seq<Market>, i: nat, found: seq<Market>, n: nat)
    requires i <= |s| && |found + Selected(f, s[..i])| == n
    ensures FirstOf(found + Selected(f, s), n) == found + Selected(f, s[..i])
  {
    hide Selected;
    assert s == s[..i] + s[i..];
    SelectedConcat(f, s[..i], s[i..]);
    var sofar := found + Selected(f, s[..i]);
    assert found + Selected(f, s) == sofar + Selected(f, s[i..]);
    FirstOfPrefix(sofar, Selected(f, s[i..]), n);
    FirstOfShort(sofar, n);
  }

  /** The scan with its early exit yields exactly the first markets, up to the limit, of all
      that pass the filters among the pages it may read; a limit below one acts as one. */
  method Discover(f: Filter, listings: seq<Listing>, maxPages: int, maxPerTick: int) returns (candidates: seq<Market>)
    ensures candidates == FirstOf(Selected(f, Scanned(listings, maxPages)), Max(maxPerTick, 1))
  {
    hide Selected, FirstOf, Scanned;
    candidates := [];
    var page := 0;
    while page < maxPages && page < |listings| && listings[page].Listed?
      invariant 0 <= page <= |listings| && |candidates| < Max(maxPerTick, 1)
      invariant Selected(f, Scanned(listings, maxPages))
                == candidates + Selected(f, Scanned(listings[page..], maxPages - page))
      decreases |listings| - page
    {
      ghost var here, before := listings[page..], candidates;
      assert here[1..] == listings[page + 1..];
      ScannedStep(f, here, maxPages - page);
      ghost var rest := if here[0].more then Selected(f, Scanned(here[1..], maxPages - page - 1)) else [];
      ghost var all := before + Selected(f, here[0].markets);
      assert Selected(f, Scanned(listings, maxPages)) == all + rest;
      FirstOfPrefix(all, rest, Max(maxPerTick, 1));
      var full: bool;
      candidates, full := ScanPage(f, listings[page].markets, candidates, maxPerTick);
      if full {
        return;
      }
      FirstOfAtMost(all, Max(maxPerTick, 1));
      if !listings[page].more {
        assert all + rest == candidates;
        FirstOfShort(candidates, Max(maxPerTick, 1));
        return;
      }
      page := page + 1;
    }
    NothingScanned(f, listings[page..], maxPages - page);
    assert Selected(f, Scanned(listings, maxPages)) == candidates;
    FirstOfShort(candidates, Max(maxPerTick, 1));
  }

  lemma FirstOfAtMost(s: seq<Market>, n: nat)
    ensures |FirstOf(s, n)| <= n
  {
  }

  lemma FirstOfShort(s: seq<Market>, n: nat)
    requires |s| <= n
    ensures FirstOf(s, n) == s
  {
  }

  lemma NothingScanned(f: Filter, listings: seq<Listing>, maxPages: int)
    requires maxPages <= 0 || listings == [] || listings[0].ListFailed?
    ensures Selected(f, Scanned(listings, maxPages)) == []
  {
  }

  /** What a market must show to be worth asking about. */
  predicate Worthwhile(f: Filter, m: Market) {
    && m.status in {"active", "open"}
    && m.hasYesAsk && m.hasNoAsk
    && (|f.categories| > 0 ==> m.category in f.categories)
    && (match m.volume case None => true case Some(v) => f.minVolume <= v)
    && (match m.closeTime case None => true case Some(t) => f.closeCutoff <= t)
    && m.ticker !in f.recentlySignalled
  }

  /** Selected are exactly the listed markets that are tradable, quoted on both sides, of a
      wanted category, liquid, not about to close, and not signalled lately. */
  lemma {:induction false} SelectedPasses(f: Filter, s: seq<Market>)
    ensures forall m :: m in Selected(f, s) <==> m in s && Worthwhile(f, m)
    ensures |Selected(f, s)| <= |s|
  {
    if s != [] {
      SelectedPasses(f, s[..|s| - 1]);
      assert s == s[..|s| - 1] + [s[|s| - 1]];
    }
  }

  function Concat(listings: seq<Listing>): seq<Market>
    requires forall i :: 0 <= i < |listings| ==> listings[i].Listed?
  {
    if listings == [] then [] else listings[0].markets + Concat(listings[1..])
  }

  /** The first k pages are what the scan may read: all could be had and all but the last named
      a next one; and it goes no further because of the page limit, an error, or because the
      last named none. */
  predicate IsReadable(listings: seq<Listing>, maxPages: int, k: nat) {
    && k <= |listings| && k <= Max(maxPages, 0)
    && (forall i :: 0 <= i < k ==> listings[i].Listed?)
    && (forall i :: 0 <= i < k - 1 ==> listings[i].more)
    && (k == maxPages || k == |listings| || listings[k].ListFailed? || maxPages <= 0 || (k > 0 && !listings[k - 1].more))
  }

  /** There always is such a number of pages. */
  lemma {:induction false} ReadablePages(listings: seq<Listing>, maxPages: int) returns (k: nat)
    ensures IsReadable(listings, maxPages, k)
    decreases |listings|
  {
    k := 0;
    if maxPages > 0 && listings != [] && listings[0].Listed? {
      k := 1;
      if listings[0].more {
        var rest := ReadablePages(listings[1..], maxPages - 1);
        k := rest + 1;
      }
    }
  }

  /** The scan looks at exactly those pages, one after the other. */
  lemma {:induction false} ScannedIsReadable(listings: seq<Listing>, maxPages: int, k: nat)
    requires IsReadable(listings, maxPages, k)
    ensures Scanned(listings, maxPages) == Concat(listings[..k])
    decreases |listings|
  {
    if k > 0 {
      assert listings[..k][1..] == listings[1..][..k - 1];
      if listings[0].more {
        if k == 1 {
          assert listings[1..][..0] == [];
        }
        ScannedIsReadable(listings[1..], maxPages - 1, k - 1);
      } else {
        assert k == 1 && listings[1..][..0] == [];
      }
    }
  }
}
