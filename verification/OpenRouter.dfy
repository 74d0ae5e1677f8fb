/** The LLM client's resilience: two separate retry budgets, capped waits, and a minimum gap
    between requests. */
module OpenRouter {
  import opened Wrappers
  import opened Ticks
  import opened Waits

  /** How one post came back. `retryAfter` and `reset` are the server's hints in seconds, None
      when missing or not a number. */
  datatype Reply =
    | TransportError
    | RateLimited(retryAfter: Option<real>, reset: Option<real>)
    | ServerError
    | ClientError
    | EmptyCompletion
    | Content(parsable: bool)

  datatype Outcome = Parsed | Unparsable | Fatal | Exhausted

  const MAX_BACKOFF: real := 60.0

  function Capped(x: real): real {
    if x <= MAX_BACKOFF then x else MAX_BACKOFF
  }

  function RateLimitWait(r: Reply, attempt: nat): real
    requires r.RateLimited? && attempt > 0
  {
    if r.retryAfter != None then Capped(r.retryAfter.value + 0.5)
    else if r.reset != None && r.reset.value > 0.0 then Capped(r.reset.value + 0.5)
    else Capped(2.0 * Pow2(attempt - 1) as real)
  }

  predicate IsError(r: Reply) {
    r.TransportError? || r.ServerError? || r.EmptyCompletion?
  }

  predicate Retryable(r: Reply) {
    IsError(r) || r.RateLimited?
  }

  /** Replies among the first n that spend the error budget. */
  ghost function Errors(replies: nat -> Reply, n: nat): nat {
    if n == 0 then 0 else Errors(replies, n - 1) + if IsError(replies(n - 1)) then 1 else 0
  }

  /** Replies among the first n that spend the rate-limit budget. */
  ghost function Limits(replies: nat -> Reply, n: nat): nat {
    if n == 0 then 0 else Limits(replies, n - 1) + if replies(n - 1).RateLimited? then 1 else 0
  }

  /** Seconds slept after each of the first n replies. */
  ghost function Slept(replies: nat -> Reply, n: nat): real {
    if n == 0 then 0.0
    else
      var r := replies(n - 1);
      Slept(replies, n - 1) +
      (if IsError(r) then Pow2(Errors(replies, n) - 1) as real
       else if r.RateLimited? then Sleep(RateLimitWait(r, Limits(replies, n)))
       else 0.0)
  }

  /** Neither budget is spent by the first n replies; a budget below one still allows one try. */
  ghost predicate WithinBudgets(replies: nat -> Reply, errors: int, limits: int, n: nat) {
    Errors(replies, n) < Max(errors, 1) && Limits(replies, n) < Max(limits, 1)
  }

  /** The n-th reply is the first that cannot or need not be retried. */
  ghost predicate StopsAt(replies: nat -> Reply, errors: int, limits: int, n: nat) {
    && n > 0
    && (forall i :: 0 <= i < n - 1 ==> Retryable(replies(i)))
    && WithinBudgets(replies, errors, limits, n - 1)
    && (Retryable(replies(n - 1)) ==> !WithinBudgets(replies, errors, limits, n))
  }

  function Verdict(last: Reply): Outcome {
    match last
    case Content(parsable) => if parsable then Parsed else Unparsable
    case ClientError => Fatal
    case _ => Exhausted
  }

  /** `chat_json`, against any unending sequence of replies. */
  method ChatJson(replies: nat -> Reply, maxRetries: int, maxRateLimitRetries: int)
    returns (outcome: Outcome, posts: nat, slept: real)
    ensures StopsAt(replies, maxRetries, maxRateLimitRetries, posts)
    ensures outcome == Verdict(replies(posts - 1))
    ensures slept == Slept(replies, posts - 1)
  {
    var errorAttempts, rateLimitAttempts := 0, 0;
    posts, slept := 0, 0.0;
    while true
      invariant errorAttempts == Errors(replies, posts) && rateLimitAttempts == Limits(replies, posts)
      invariant WithinBudgets(replies, maxRetries, maxRateLimitRetries, posts)
      invariant forall i :: 0 <= i < posts ==> Retryable(replies(i))
      invariant slept == Slept(replies, posts)
      decreases Max(maxRetries, 1) + Max(maxRateLimitRetries, 1) - errorAttempts - rateLimitAttempts
    {
      var r := replies(posts);
      posts := posts + 1;
      if r.RateLimited? {
        rateLimitAttempts := rateLimitAttempts + 1;
        var wait := RateLimitWait(r, rateLimitAttempts);
        if rateLimitAttempts >= maxRateLimitRetries {
          break;
        }
        slept := slept + Sleep(wait);
      } else if IsError(r) {
        errorAttempts := errorAttempts + 1;
        if errorAttempts >= maxRetries {
          break;
        }
        slept := slept + Pow2(errorAttempts - 1) as real;
      } else if r.ClientError? {
        return Fatal, posts, slept;
      } else {
        return if r.parsable then Parsed else Unparsable, posts, slept;
      }
    }
    outcome := Exhausted;
  }

  lemma {:induction false} CountsSplit(replies: nat -> Reply, n: nat)
    requires forall i :: 0 <= i < n ==> Retryable(replies(i))
    ensures Errors(replies, n) + Limits(replies, n) == n
  {
    if n > 0 { CountsSplit(replies, n - 1); }
  }

  lemma {:induction false} CountsGrow(replies: nat -> Reply, m: nat, n: nat)
    requires m <= n
    ensures Errors(replies, m) <= Errors(replies, n) && Limits(replies, m) <= Limits(replies, n)
    decreases n - m
  {
    if m < n { CountsGrow(replies, m, n - 1); }
  }

  /** The stopping point is unique, so the number of posts is determined by the replies. */
  lemma StopsOnce(replies: nat -> Reply, errors: int, limits: int, m: nat, n: nat)
    requires StopsAt(replies, errors, limits, m) && StopsAt(replies, errors, limits, n)
    ensures m == n
  {
    if m < n {
      CountsGrow(replies, m, n - 1);
    } else if n < m {
      CountsGrow(replies, n, m - 1);
    }
  }

  /** Every call posts at most max_retries + max_rate_limit_retries - 1 times. */
  lemma PostsBounded(replies: nat -> Reply, errors: int, limits: int, n: nat)
    requires StopsAt(replies, errors, limits, n)
    ensures n <= Max(errors, 1) + Max(limits, 1) - 1
  {
    CountsSplit(replies, n - 1);
  }

  /** That many are needed for some replies. */
  lemma PostsBoundAttained(errors: nat, limits: nat) returns (replies: nat -> Reply)
    requires errors > 0 && limits > 0
    ensures StopsAt(replies, errors, limits, errors + limits - 1)
  {
    replies := (i: nat) => if i < errors - 1 then ServerError else RateLimited(None, None);
    WorstCounts(replies, errors, errors + limits - 2);
    WorstCounts(replies, errors, errors + limits - 1);
  }

  lemma {:induction false} WorstCounts(replies: nat -> Reply, errors: nat, n: nat)
    requires errors > 0
    requires forall i: nat :: replies(i) == if i < errors - 1 then ServerError else RateLimited(None, None)
    ensures Errors(replies, n) == Min(n, errors - 1) && Limits(replies, n) == Max(n - errors + 1, 0)
  {
    if n > 0 { WorstCounts(replies, errors, n - 1); }
  }

  /** Exponential back-off doubles up to 2^e - 1; rate-limit waits are capped at a minute. */
  lemma {:induction false} SleptBounded(replies: nat -> Reply, n: nat)
    ensures 0.0 <= Slept(replies, n) <= 60.0 * Limits(replies, n) as real + Pow2(Errors(replies, n)) as real - 1.0
  {
    if n > 0 {
      SleptBounded(replies, n - 1);
      var e := Errors(replies, n);
      if IsError(replies(n - 1)) {
        assert Pow2(e) == 2 * Pow2(e - 1);
      }
    }
  }

  /** Whatever the replies, one call sleeps at most
      60 * (max_rate_limit_retries - 1) + 2^(max_retries - 1) - 1 seconds. */
  lemma BackoffBounded(replies: nat -> Reply, errors: int, limits: int, n: nat)
    requires StopsAt(replies, errors, limits, n)
    ensures Slept(replies, n - 1) <= 60.0 * (Max(limits, 1) - 1) as real + Pow2(Max(errors, 1) - 1) as real - 1.0
  {
    SleptBounded(replies, n - 1);
    Pow2Monotone(Errors(replies, n - 1), Max(errors, 1) - 1);
  }

  /** A reply of that kind comes before either budget is spent, after retryable ones only. */
  ghost predicate Reaches(replies: nat -> Reply, errors: int, limits: int, last: Reply) {
    exists k: nat :: replies(k) == last && (forall i :: 0 <= i < k ==> Retryable(replies(i))) && WithinBudgets(replies, errors, limits, k)
  }

  lemma EndsWithIff(replies: nat -> Reply, errors: int, limits: int, n: nat, last: Reply)
    requires StopsAt(replies, errors, limits, n) && !Retryable(last)
    ensures replies(n - 1) == last <==> Reaches(replies, errors, limits, last)
  {
    if k: nat :| replies(k) == last && (forall i :: 0 <= i < k ==> Retryable(replies(i))) && WithinBudgets(replies, errors, limits, k) {
      assert StopsAt(replies, errors, limits, k + 1);
      StopsOnce(replies, errors, limits, k + 1, n);
    }
  }

  /** A usable reply is returned exactly when it comes before either budget runs out and
      nothing but retryable replies precedes it. */
  lemma ParsedIff(replies: nat -> Reply, errors: int, limits: int, n: nat)
    requires StopsAt(replies, errors, limits, n)
    ensures Verdict(replies(n - 1)) == Parsed <==> Reaches(replies, errors, limits, Content(true))
  {
    EndsWithIff(replies, errors, limits, n, Content(true));
  }

  /** Likewise for the failures: unparsable content and a client error end the call at once,
      and it is exhausted exactly when none of the three comes in time. */
  lemma FailureIff(replies: nat -> Reply, errors: int, limits: int, n: nat)
    requires StopsAt(replies, errors, limits, n)
    ensures Verdict(replies(n - 1)) == Unparsable <==> Reaches(replies, errors, limits, Content(false))
    ensures Verdict(replies(n - 1)) == Fatal <==> Reaches(replies, errors, limits, ClientError)
    ensures Verdict(replies(n - 1)) == Exhausted <==>
            !Reaches(replies, errors, limits, Content(true)) && !Reaches(replies, errors, limits, Content(false))
            && !Reaches(replies, errors, limits, ClientError)
  {
    EndsWithIff(replies, errors, limits, n, Content(true));
    EndsWithIff(replies, errors, limits, n, Content(false));
    EndsWithIff(replies, errors, limits, n, ClientError);
  }

  // ---- The waits are exact -------------------------------------------------------------

  /** Transport errors, server errors and empty completions double the wait from one second. */
  lemma {:induction false} ErrorsBackOff(replies: nat -> Reply, n: nat)
    requires forall i :: 0 <= i < n ==> replies(i).TransportError? || replies(i).ServerError? || replies(i).EmptyCompletion?
    ensures Errors(replies, n) == n && Slept(replies, n) == Pow2(n) as real - 1.0
  {
    if n > 0 {
      ErrorsBackOff(replies, n - 1);
      assert Pow2(n) == 2 * Pow2(n - 1);
    }
  }

  /** A retry-after header is honoured with half a second to spare, whatever the reset header
      says, but never for more than a minute. */
  lemma {:induction false} RetryAfterHonoured(replies: nat -> Reply, n: nat, seconds: real)
    requires seconds >= 0.0
    requires forall i :: 0 <= i < n ==> replies(i).RateLimited? && replies(i).retryAfter == Some(seconds)
    ensures Slept(replies, n) == n as real * if seconds < 59.5 then seconds + 0.5 else 60.0
  {
    if n > 0 {
      RetryAfterHonoured(replies, n - 1, seconds);
      var each := if seconds < 59.5 then seconds + 0.5 else 60.0;
      assert n as real * each == (n - 1) as real * each + each;
    }
  }

  /** So is a reset still ahead, when there is no such header. */
  lemma {:induction false} ResetHonoured(replies: nat -> Reply, n: nat, seconds: real)
    requires seconds > 0.0
    requires forall i :: 0 <= i < n ==> replies(i) == RateLimited(None, Some(seconds))
    ensures Slept(replies, n) == n as real * if seconds < 59.5 then seconds + 0.5 else 60.0
  {
    if n > 0 {
      ResetHonoured(replies, n - 1, seconds);
      var each := if seconds < 59.5 then seconds + 0.5 else 60.0;
      assert n as real * each == (n - 1) as real * each + each;
    }
  }

  /** Without a hint, or with a reset already past, the wait doubles from two seconds to a
      minute: 2, 4, 8, 16, 32, and 60 from then on. */
  lemma {:induction false} UnhintedDoubles(replies: nat -> Reply, n: nat)
    requires forall i :: 0 <= i < n ==>
               replies(i).RateLimited? && replies(i).retryAfter == None && (replies(i).reset == None || replies(i).reset.value <= 0.0)
    ensures Limits(replies, n) == n
    ensures Slept(replies, n) == if n <= 5 then (2 * Pow2(n) - 2) as real else (62 + 60 * (n - 5)) as real
  {
    if n > 0 {
      UnhintedDoubles(replies, n - 1);
      assert Pow2(n) == 2 * Pow2(n - 1);
      if n > 5 {
        Pow2Monotone(5, n - 1);
        assert Pow2(5) == 32 by { assert Pow2(3) == 8; }
      } else {
        Pow2Monotone(n - 1, 4);
        assert Pow2(4) == 16 by { assert Pow2(2) == 4; }
      }
    }
  }

  // ---- The throttle --------------------------------------------------------------------

  /** One pass through the throttle: clock at entry and at release. */
  datatype Passage = Passage(entered: real, released: real)

  class Throttle {
    const interval: real
    var last: real

    constructor (requested: real)
      ensures interval == Sleep(requested) && last == 0.0
    {
      interval := Sleep(requested);
      last := 0.0;
    }

    /** Sleeps at least the requested time, so the clock then reads `woken`. */
    method Pass(now: real, woken: real) returns (p: Passage)
      requires now + Sleep(interval - (now - last)) <= woken
      modifies this`last
      ensures interval > 0.0 ==> p == Passage(now, woken) && last == woken && Spaced(interval, old(last), p)
      ensures interval <= 0.0 ==> p == Passage(now, now) && last == old(last)
    {
      if interval <= 0.0 {
        return Passage(now, now);
      }
      last := woken;
      return Passage(now, woken);
    }
  }

  predicate Spaced(interval: real, last: real, p: Passage) {
    p.entered + Sleep(interval - (p.entered - last)) <= p.released
  }

  ghost predicate Throttled(interval: real, last: real, run: seq<Passage>)
    decreases |run|
  {
    run != [] ==> Spaced(interval, last, run[0]) && Throttled(interval, run[0].released, run[1..])
  }

  /** k further requests take at least k intervals. */
  lemma {:induction false} GapsAddUp(interval: real, last: real, run: seq<Passage>, k: nat)
    requires Throttled(interval, last, run) && k < |run|
    ensures run[k].released - last >= interval * (k + 1) as real
    decreases |run|
  {
    if k > 0 {
      GapsAddUp(interval, run[0].released, run[1..], k - 1);
      assert interval * (k + 1) as real == interval * k as real + interval;
    }
  }
}
