/** The client's rate limiter. `acquire` holds a lock throughout, refills by the time since
    the last entry, and sleeps for a missing token; it does not move its clock mark past the
    sleep, so the time slept is credited a second time at the next entry. */
module TokenBucket {
  import opened Ticks

  /** Where the limiter stands between two calls. */
  datatype State = State(tokens: real, last: real)

  /** One call under the lock: the clock at entry and at return. */
  datatype Grant = Grant(entered: real, returned: real)

  /** Tokens earned in t seconds. */
  function Credit(rate: real, t: real): real {
    rate * t
  }

  function Refilled(rate: real, capacity: real, s: State, now: real): real {
    RealMin(capacity, s.tokens + Credit(rate, now - s.last))
  }

  /** The requested sleep when a token is short, else none. */
  function Wait(rate: real, available: real): real
    requires rate > 0.0
  {
    if available < 1.0 then (1.0 - available) / rate else 0.0
  }

  function After(rate: real, capacity: real, s: State, now: real): State {
    var available := Refilled(rate, capacity, s, now);
    State(if available < 1.0 then 0.0 else available - 1.0, now)
  }

  class Bucket {
    const rate: real
    const capacity: real
    var tokens: real
    var last: real

    constructor (rate: real, now: real)
      ensures this.rate == rate && capacity == (if rate >= 1.0 then rate else 1.0)
      ensures Now() == State(capacity, now)
    {
      this.rate := rate;
      capacity := if rate >= 1.0 then rate else 1.0;
      tokens := if rate >= 1.0 then rate else 1.0;
      last := now;
    }

    function Now(): State
      reads this
    {
      State(tokens, last)
    }

    /** Called at `now`; the clock reads `woken` after the sleep, if there is one. */
    method Acquire(now: real, woken: real) returns (grant: Grant)
      requires rate > 0.0
      requires now + Wait(rate, Refilled(rate, capacity, Now(), now)) <= woken
      modifies this`tokens, this`last
      ensures Now() == After(rate, capacity, old(Now()), now)
      ensures Allowed(rate, capacity, old(Now()), grant)
      ensures grant == Grant(now, if Refilled(rate, capacity, old(Now()), now) < 1.0 then woken else now)
    {
      var elapsed := now - last;
      tokens := RealMin(capacity, tokens + elapsed * rate);
      last := now;
      if tokens < 1.0 {
        tokens := 0.0;
        grant := Grant(now, woken);
      } else {
        tokens := tokens - 1.0;
        grant := Grant(now, now);
      }
    }
  }

  predicate Allowed(rate: real, capacity: real, s: State, g: Grant)
    requires rate > 0.0
  {
    g.entered + Wait(rate, Refilled(rate, capacity, s, g.entered)) <= g.returned
  }

  /** A run of serialized calls: each enters no earlier than the previous returned and sleeps
      at least as long as it asked for. `free` is when the lock was last released. */
  ghost predicate IsRun(rate: real, capacity: real, s: State, free: real, run: seq<Grant>)
    requires rate > 0.0
    decreases |run|
  {
    run != [] ==>
      && free <= run[0].entered
      && Allowed(rate, capacity, s, run[0])
      && IsRun(rate, capacity, After(rate, capacity, s, run[0].entered), run[0].returned, run[1..])
  }

  // ---- The bound -----------------------------------------------------------------------

  lemma WaitBuysToken(rate: real, available: real)
    requires rate > 0.0 && available < 1.0
    ensures Credit(rate, Wait(rate, available)) == 1.0 - available
  {
  }

  lemma CreditMonotone(rate: real, a: real, b: real)
    requires rate > 0.0 && a <= b
    ensures Credit(rate, a) <= Credit(rate, b)
  {
  }

  lemma CreditAdds(rate: real, mid: real, from: real, to: real)
    ensures Credit(rate, to - from) == Credit(rate, to - mid) + Credit(rate, mid - from)
  {
  }

  lemma NoCredit(rate: real)
    ensures Credit(rate, 0.0) == 0.0
  {
  }

  lemma GrantFunded(rate: real, capacity: real, s: State, g: Grant)
    requires rate > 0.0 && Allowed(rate, capacity, s, g)
    ensures 1.0 + After(rate, capacity, s, g.entered).tokens
            <= s.tokens + Credit(rate, g.entered - s.last) + Credit(rate, g.returned - g.entered)
    ensures g.entered <= g.returned
  {
    hide Credit;
    var available := Refilled(rate, capacity, s, g.entered);
    NoCredit(rate);
    if available < 1.0 {
      WaitBuysToken(rate, available);
      WaitIsPositive(rate, available);
    }
    CreditMonotone(rate, Wait(rate, available), g.returned - g.entered);
  }

  lemma WaitIsPositive(rate: real, available: real)
    requires rate > 0.0 && available < 1.0
    ensures Wait(rate, available) > 0.0
  {
  }

  /** Seconds the run spends between entries and returns. */
  function Slept(run: seq<Grant>): real {
    if run == [] then 0.0 else run[0].returned - run[0].entered + Slept(run[1..])
  }

  /** Grants are paid for by the tokens at hand, the time since the clock mark, and the time
      slept, which is counted once more. */
  lemma {:induction false} GrantsAreFunded(rate: real, capacity: real, s: State, free: real, run: seq<Grant>)
    requires rate > 0.0
    requires IsRun(rate, capacity, s, free, run) && run != []
    ensures |run| as real <= s.tokens + Credit(rate, run[|run| - 1].entered - s.last) + Credit(rate, Slept(run))
    ensures free <= run[|run| - 1].entered <= run[|run| - 1].returned
    ensures 0.0 <= Slept(run) <= run[|run| - 1].returned - free
    decreases |run|
  {
    hide Credit, Refilled, Wait, Allowed;
    var g, rest := run[0], run[1..];
    GrantFunded(rate, capacity, s, g);
    if |run| > 1 {
      var last := rest[|rest| - 1];
      assert last == run[|run| - 1];
      GrantsAreFunded(rate, capacity, After(rate, capacity, s, g.entered), g.returned, rest);
      CreditAdds(rate, g.entered, s.last, last.entered);
      CreditAdds(rate, g.returned - g.entered, 0.0, Slept(run));
    } else {
      assert Slept(rest) == 0.0;
    }
  }

  /** Calls that follow one another for T seconds, first entry to last return, and sleep for
      some of them, are granted at most capacity + rate * (T + slept). */
  lemma SleepCountsTwice(rate: real, capacity: real, s: State, run: seq<Grant>)
    requires rate > 0.0 && run != [] && s.last <= run[0].entered
    requires IsRun(rate, capacity, s, run[0].entered, run)
    ensures |run| as real <= capacity + Credit(rate, run[|run| - 1].returned - run[0].entered) + Credit(rate, Slept(run))
    ensures 0.0 <= Slept(run) <= run[|run| - 1].returned - run[0].entered
  {
    hide IsRun, Credit, Slept;
    var start, end := run[0].entered, run[|run| - 1];
    var primed := State(Refilled(rate, capacity, s, start), start);
    SameRun(rate, capacity, s, run);
    GrantsAreFunded(rate, capacity, primed, start, run);
    CreditMonotone(rate, end.entered - start, end.returned - start);
  }

  /** So at most capacity + 2 * rate * T of them are granted. */
  lemma AmortizedBound(rate: real, capacity: real, s: State, run: seq<Grant>)
    requires rate > 0.0 && run != [] && s.last <= run[0].entered
    requires IsRun(rate, capacity, s, run[0].entered, run)
    ensures |run| as real <= capacity + 2.0 * rate * (run[|run| - 1].returned - run[0].entered)
  {
    hide IsRun, Credit, Slept;
    var T := run[|run| - 1].returned - run[0].entered;
    SleepCountsTwice(rate, capacity, s, run);
    CreditMonotone(rate, Slept(run), T);
    TwiceCredit(rate, T);
  }

  lemma TwiceCredit(rate: real, t: real)
    ensures Credit(rate, t) + Credit(rate, t) == 2.0 * rate * t
  {
  }

  /** Refilling at the first entry already leaves nothing more to refill there. */
  lemma SameRun(rate: real, capacity: real, s: State, run: seq<Grant>)
    requires rate > 0.0 && run != [] && IsRun(rate, capacity, s, run[0].entered, run)
    ensures var start := run[0].entered;
            IsRun(rate, capacity, State(Refilled(rate, capacity, s, start), start), start, run)
  {
    var start := run[0].entered;
    var primed := State(Refilled(rate, capacity, s, start), start);
    NoCredit(rate);
    hide Credit;
    assert Refilled(rate, capacity, primed, start) == primed.tokens;
  }

  // ---- The factor two is reached -------------------------------------------------------

  /** n calls at one instant on a bucket that still holds n tokens. */
  function Burst(n: nat, now: real): (run: seq<Grant>)
    ensures |run| == n
    ensures forall i :: 0 <= i < n ==> run[i] == Grant(now, now)
  {
    if n == 0 then [] else [Grant(now, now)] + Burst(n - 1, now)
  }

  /** Two calls on a bucket with less than a token: one sleeps for what is missing, the other
      comes a full token's time after the first and finds the slept time credited again. */
  function Pair(rate: real, tokens: real, now: real): seq<Grant>
    requires rate > 0.0
  {
    [Grant(now, now + (1.0 - tokens) / rate), Grant(now + 1.0 / rate, now + 1.0 / rate)]
  }

  /** k such pairs, the later ones on an empty bucket. */
  function Saturated(rate: real, tokens: real, k: nat, now: real): (run: seq<Grant>)
    requires rate > 0.0
    ensures |run| == 2 * k
    decreases k
  {
    if k == 0 then [] else Pair(rate, tokens, now) + Saturated(rate, 0.0, k - 1, now + 1.0 / rate)
  }

  lemma PairTimes(rate: real, tokens: real, now: real)
    requires rate > 0.0 && 0.0 <= tokens < 1.0
    ensures now < now + (1.0 - tokens) / rate <= now + 1.0 / rate
    ensures Credit(rate, now + 1.0 / rate - now) == 1.0
    ensures Credit(rate, (1.0 - tokens) / rate) == 1.0 - tokens
  {
    var t, u := 1.0 / rate, (1.0 - tokens) / rate;
    assert rate * t == 1.0 && rate * u == 1.0 - tokens;
    assert now + t - now == t;
    assert rate * (t - u) == tokens;
  }

  /** A pair, and then any run from an empty bucket. */
  lemma PairIsRun(rate: real, capacity: real, tokens: real, now: real, rest: seq<Grant>)
    requires rate > 0.0 && capacity >= 1.0 && 0.0 <= tokens < 1.0
    requires var woken := now + 1.0 / rate; IsRun(rate, capacity, State(0.0, woken), woken, rest)
    ensures IsRun(rate, capacity, State(tokens, now), now, Pair(rate, tokens, now) + rest)
  {
    var woken := now + 1.0 / rate;
    var run := Pair(rate, tokens, now) + rest;
    PairTimes(rate, tokens, now);
    NoCredit(rate);
    hide Credit;
    assert Refilled(rate, capacity, State(tokens, now), now) == tokens;
    assert After(rate, capacity, State(tokens, now), now) == State(0.0, now);
    assert Refilled(rate, capacity, State(0.0, now), woken) == 1.0;
    assert After(rate, capacity, State(0.0, now), woken) == State(0.0, woken);
    assert run[1..] == [Grant(woken, woken)] + rest && run[1..][1..] == rest;
    assert IsRun(rate, capacity, State(0.0, now), run[0].returned, run[1..]);
  }

  lemma {:induction false} SaturatedIsRun(rate: real, capacity: real, tokens: real, k: nat, now: real)
    requires rate > 0.0 && capacity >= 1.0 && 0.0 <= tokens < 1.0
    ensures IsRun(rate, capacity, State(tokens, now), now, Saturated(rate, tokens, k, now))
    ensures k > 0 ==> Credit(rate, Saturated(rate, tokens, k, now)[2 * k - 1].returned - now) == k as real
    decreases k
  {
    hide IsRun, Credit;
    if k > 0 {
      var woken := now + 1.0 / rate;
      var rest, run := Saturated(rate, 0.0, k - 1, woken), Saturated(rate, tokens, k, now);
      SaturatedIsRun(rate, capacity, 0.0, k - 1, woken);
      PairIsRun(rate, capacity, tokens, now, rest);
      PairTimes(rate, tokens, now);
      if k > 1 {
        assert run[2 * k - 1] == rest[2 * (k - 1) - 1];
        CreditAdds(rate, woken, now, run[2 * k - 1].returned);
      } else {
        assert run[1] == Grant(woken, woken);
      }
    } else {
      NothingIsRun(rate, capacity, State(tokens, now), now);
    }
  }

  lemma NothingIsRun(rate: real, capacity: real, s: State, now: real)
    requires rate > 0.0
    ensures IsRun(rate, capacity, s, now, [])
  {
  }

  lemma {:induction false} BurstThenRun(rate: real, capacity: real, tokens: real, n: nat, now: real, run: seq<Grant>)
    requires rate > 0.0 && tokens >= 0.0 && n as real + tokens <= capacity
    requires IsRun(rate, capacity, State(tokens, now), now, run)
    ensures IsRun(rate, capacity, State(n as real + tokens, now), now, Burst(n, now) + run)
  {
    if n == 0 {
      assert Burst(0, now) + run == run;
    } else {
      BurstThenRun(rate, capacity, tokens, n - 1, now, run);
      var all := Burst(n, now) + run;
      NoCredit(rate);
      hide Credit;
      assert all[1..] == Burst(n - 1, now) + run;
      assert Refilled(rate, capacity, State(n as real + tokens, now), now) == n as real + tokens;
    }
  }

  /** A full bucket drained at once, then k pairs. */
  function Greedy(rate: real, capacity: real, k: nat, now: real): seq<Grant>
    requires rate > 0.0 && capacity >= 1.0
  {
    Burst(capacity.Floor, now) + Saturated(rate, capacity - capacity.Floor as real, k, now)
  }

  /** For every rate and capacity and every k some run from a full bucket makes as many grants
      over T = k / rate seconds as the bound capacity + 2 * rate * T has whole ones. The meant
      bound, capacity + rate * T, is capacity + k. */
  lemma FactorTwoIsAttained(rate: real, capacity: real, k: nat, now: real)
    requires rate > 0.0 && capacity >= 1.0 && k > 0
    ensures var run := Greedy(rate, capacity, k, now);
            && run != [] && run[0].entered == now
            && IsRun(rate, capacity, State(capacity, now), now, run)
            && Credit(rate, run[|run| - 1].returned - now) == k as real
            && |run| == (capacity + 2.0 * Credit(rate, run[|run| - 1].returned - now)).Floor
  {
    hide IsRun, Credit;
    var n, rest := capacity.Floor, capacity - capacity.Floor as real;
    SaturatedIsRun(rate, capacity, rest, k, now);
    BurstThenRun(rate, capacity, rest, n, now, Saturated(rate, rest, k, now));
    var run := Greedy(rate, capacity, k, now);
    assert run[|run| - 1] == Saturated(rate, rest, k, now)[2 * k - 1];
  }

  /** No constant saves the meant factor, at any rate and capacity: whatever allowance c is
      added to rate * T, some run from a full bucket is granted more. */
  lemma NoAllowanceRestoresFactorOne(rate: real, capacity: real, c: nat, now: real) returns (run: seq<Grant>)
    requires rate > 0.0 && capacity >= 1.0
    ensures run != [] && IsRun(rate, capacity, State(capacity, now), now, run)
    ensures |run| as real > c as real + Credit(rate, run[|run| - 1].returned - run[0].entered)
  {
    hide IsRun, Credit, Burst, Saturated;
    run := Greedy(rate, capacity, c + 1, now);
    FactorTwoIsAttained(rate, capacity, c + 1, now);
  }

  // ---- Exactly when the meant bound holds ----------------------------------------------

  /** The meant bound for runs from a full bucket that sleep at most `sleep` seconds in all. */
  ghost predicate MeantBound(rate: real, capacity: real, now: real, sleep: real)
    requires rate > 0.0
  {
    forall run :: FullRun(rate, capacity, now, run) && Slept(run) <= sleep ==> WithinMeant(rate, capacity, run)
  }

  ghost predicate FullRun(rate: real, capacity: real, now: real, run: seq<Grant>)
    requires rate > 0.0
  {
    run != [] && run[0].entered == now && IsRun(rate, capacity, State(capacity, now), now, run)
  }

  predicate WithinMeant(rate: real, capacity: real, run: seq<Grant>)
    requires run != []
  {
    |run| as real <= capacity + Credit(rate, run[|run| - 1].returned - run[0].entered)
  }

  /** Drain the bucket, come back when all but `short` of a token has been refilled, sleep for
      the rest, and come once more a full token's time after that entry. */
  function ShortSleep(rate: real, capacity: real, short: real, now: real): seq<Grant>
    requires rate > 0.0 && capacity >= 1.0
  {
    var tokens := capacity - capacity.Floor as real;
    Burst(capacity.Floor, now) + Pair(rate, 1.0 - short, now + (1.0 - short - tokens) / rate)
  }

  lemma LaterIsRun(rate: real, capacity: real, tokens: real, more: real, now: real, run: seq<Grant>)
    requires rate > 0.0 && 0.0 <= tokens <= more <= capacity
    requires var later := now + (more - tokens) / rate;
             IsRun(rate, capacity, State(more, later), later, run) && run != [] && run[0].entered == later
    ensures IsRun(rate, capacity, State(tokens, now), now, run)
  {
    var t := (more - tokens) / rate;
    assert rate * t == more - tokens;
    assert t >= 0.0;
    NoCredit(rate);
    assert Credit(rate, now + t - now) == more - tokens;
    hide Credit;
    assert Refilled(rate, capacity, State(tokens, now), now + t) == more;
    assert Refilled(rate, capacity, State(more, now + t), now + t) == more;
  }

  lemma {:induction false} BurstSleepsNot(n: nat, now: real, run: seq<Grant>)
    ensures Slept(Burst(n, now) + run) == Slept(run)
  {
    if n == 0 {
      assert Burst(0, now) + run == run;
    } else {
      BurstSleepsNot(n - 1, now, run);
      assert (Burst(n, now) + run)[1..] == Burst(n - 1, now) + run;
    }
  }

  lemma PairSleeps(rate: real, tokens: real, now: real)
    requires rate > 0.0
    ensures Slept(Pair(rate, tokens, now)) == (1.0 - tokens) / rate
  {
    var run := Pair(rate, tokens, now);
    assert Slept(run[1..][1..]) == 0.0;
    assert Slept(run[1..]) == 0.0;
  }

  /** However short the one sleep is, this run passes the meant bound. */
  lemma ShortSleepPassesBound(rate: real, capacity: real, short: real, now: real)
    requires rate > 0.0 && capacity >= 1.0
    requires 0.0 < short <= 1.0 - (capacity - capacity.Floor as real)
    ensures var run := ShortSleep(rate, capacity, short, now);
            FullRun(rate, capacity, now, run) && !WithinMeant(rate, capacity, run) && Slept(run) == short / rate
  {
    var tokens := capacity - capacity.Floor as real;
    var later := now + (1.0 - short - tokens) / rate;
    var pair, run := Pair(rate, 1.0 - short, later), ShortSleep(rate, capacity, short, now);
    PairSleeps(rate, 1.0 - short, later);
    BurstSleepsNot(capacity.Floor, now, pair);
    PairTimes(rate, 1.0 - short, later);
    NothingIsRun(rate, capacity, State(0.0, later + 1.0 / rate), later + 1.0 / rate);
    PairIsRun(rate, capacity, 1.0 - short, later, []);
    assert pair + [] == pair;
    LaterIsRun(rate, capacity, tokens, 1.0 - short, now, pair);
    BurstThenRun(rate, capacity, tokens, capacity.Floor, now, pair);
    Elapsed(rate, 1.0 - short - tokens, now);
    assert run[|run| - 1] == pair[1];
  }

  lemma Elapsed(rate: real, tokens: real, now: real)
    requires rate > 0.0
    ensures Credit(rate, now + tokens / rate + 1.0 / rate - now) == tokens + 1.0
  {
    var t, u := tokens / rate, 1.0 / rate;
    assert rate * t == tokens && rate * u == 1.0;
    assert now + t + u - now == t + u;
    assert rate * (t + u) == rate * t + rate * u;
  }

  /** The meant bound, capacity + rate * T, holds for all runs that sleep at most so long if
      and only if that is no time at all: what breaks it is exactly that a call sleeps. */
  lemma MeantBoundIffNoSleep(rate: real, capacity: real, now: real, sleep: real)
    requires rate > 0.0 && capacity >= 1.0 && sleep >= 0.0
    ensures MeantBound(rate, capacity, now, sleep) <==> sleep == 0.0
  {
    hide IsRun, Slept;
    if sleep == 0.0 {
      forall run | FullRun(rate, capacity, now, run) && Slept(run) <= sleep
        ensures WithinMeant(rate, capacity, run)
      {
        SleepCountsTwice(rate, capacity, State(capacity, now), run);
        NoCredit(rate);
      }
    } else {
      var most := 1.0 - (capacity - capacity.Floor as real);
      var short := RealMin(most, Credit(rate, sleep));
      CreditPositive(rate, sleep);
      ShortSleepPassesBound(rate, capacity, short, now);
      CreditBack(rate, short, sleep);
      assert Slept(ShortSleep(rate, capacity, short, now)) <= sleep;
    }
  }

  lemma CreditPositive(rate: real, t: real)
    requires rate > 0.0 && t > 0.0
    ensures Credit(rate, t) > 0.0
  {
  }

  lemma CreditBack(rate: real, short: real, t: real)
    requires rate > 0.0 && short <= Credit(rate, t)
    ensures short / rate <= t
  {
    var u := short / rate;
    assert rate * u == short;
    if u > t {
      CreditPositive(rate, u - t);
      CreditAdds(rate, t, 0.0, u);
    }
  }
}
