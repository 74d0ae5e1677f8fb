/** The REST client's attempt loop, and which of its failures the executor catches. */
module Client {
  import opened Wrappers
  import opened Waits

  /** The retry-after header: absent, a number of seconds, or text that is no number. */
  datatype Hint = Missing | Seconds(value: real) | Unreadable

  datatype Reply = TransportError | TooManyRequests(retryAfter: Hint) | ServerError | AuthRefused | ClientError | Success

  /** What the caller gets: a body, or an exception. The last two kinds are not errors of the
      client's own, and the executor does not catch them. */
  datatype Result = Body | AuthError | ApiError | RaisedTransport | RaisedValue

  const NO_NUMBER := TooManyRequests(Unreadable)

  predicate Retried(r: Reply) {
    (r.TransportError? || r.TooManyRequests? || r.ServerError?) && r != NO_NUMBER
  }

  function Verdict(r: Reply): Result
    requires !Retried(r)
  {
    match r
    case Success => Body
    case AuthRefused => AuthError
    case ClientError => ApiError
    case TooManyRequests(_) => RaisedValue
  }

  /** The sleep after a retried reply to the attempt of that number, from zero. */
  function Pause(r: Reply, attempt: nat): real {
    match r
    case TransportError => Pow2(attempt) as real
    case ServerError => Pow2(attempt) as real
    case TooManyRequests(Missing) => 1.5
    case TooManyRequests(Seconds(x)) => Sleep(x + 0.5)
    case _ => 0.0
  }

  function Slept(replies: nat -> Reply, n: nat): real {
    if n == 0 then 0.0 else Slept(replies, n - 1) + Pause(replies(n - 1), n - 1)
  }

  /** The last of the first n replies that left an exception behind; 429s leave none. */
  function LastFailure(replies: nat -> Reply, n: nat): Option<Reply> {
    if n == 0 then None
    else if replies(n - 1).TransportError? || replies(n - 1).ServerError? then Some(replies(n - 1))
    else LastFailure(replies, n - 1)
  }

  /** The request ends with the n-th post: the first reply that is not retried, or the last
      of the budget. */
  ghost predicate EndsAt(replies: nat -> Reply, maxRetries: nat, n: nat) {
    && n <= maxRetries
    && (forall i :: 0 <= i < n - 1 ==> Retried(replies(i)))
    && (n < maxRetries ==> n > 0 && !Retried(replies(n - 1)))
  }

  function PostCount(replies: nat -> Reply, maxRetries: nat): (n: nat)
    ensures EndsAt(replies, maxRetries, n)
  {
    if maxRetries == 0 then 0
    else
      var n := PostCount(replies, maxRetries - 1);
      if n == maxRetries - 1 && (n == 0 || Retried(replies(n - 1))) then maxRetries else n
  }

  /** The verdict on the reply that ended the request, else what the failures left behind. */
  function Outcome(replies: nat -> Reply, maxRetries: nat): Result {
    var n := PostCount(replies, maxRetries);
    if n > 0 && !Retried(replies(n - 1)) then Verdict(replies(n - 1))
    else if LastFailure(replies, n) == Some(TransportError) then RaisedTransport
    else ApiError
  }

  /** `_request`: posts at most `max_retries` times. */
  method Request(replies: nat -> Reply, maxRetries: nat) returns (result: Result, posts: nat, slept: real)
    ensures EndsAt(replies, maxRetries, posts) && posts == PostCount(replies, maxRetries)
    ensures result == Outcome(replies, maxRetries)
    ensures slept == Slept(replies, posts)
  {
    var last: Option<Reply> := None;
    posts, slept := 0, 0.0;
    while posts < maxRetries
      invariant 0 <= posts <= maxRetries
      invariant forall i :: 0 <= i < posts ==> Retried(replies(i))
      invariant last == LastFailure(replies, posts)
      invariant slept == Slept(replies, posts)
    {
      var r := replies(posts);
      posts := posts + 1;
      if r.TransportError? || r.ServerError? {
        last := Some(r);
        slept := slept + Pow2(posts - 1) as real;
      } else if r.TooManyRequests? {
        if r.retryAfter.Unreadable? {
          EndsOnce(replies, maxRetries, posts, PostCount(replies, maxRetries));
          return RaisedValue, posts, slept;
        }
        var wait := if r.retryAfter.Seconds? then r.retryAfter.value else 1.0;
        slept := slept + Sleep(wait + 0.5);
      } else {
        EndsOnce(replies, maxRetries, posts, PostCount(replies, maxRetries));
        return Verdict(r), posts, slept;
      }
    }
    EndsOnce(replies, maxRetries, posts, PostCount(replies, maxRetries));
    result := if last == Some(TransportError) then RaisedTransport else ApiError;
  }

  /** The number of posts is determined by the replies. */
  lemma EndsOnce(replies: nat -> Reply, maxRetries: nat, m: nat, n: nat)
    requires EndsAt(replies, maxRetries, m) && EndsAt(replies, maxRetries, n)
    ensures m == n
  {
  }

  /** The seconds the server asked for, where it did. */
  function Asked(replies: nat -> Reply, n: nat): real {
    if n == 0 then 0.0
    else Asked(replies, n - 1) + if replies(n - 1).TooManyRequests? then Pause(replies(n - 1), n - 1) else 0.0
  }

  /** n attempts sleep at most 2^n - 1 seconds beyond what the server asked for; unlike the LLM
      client's, that share has no cap. */
  lemma {:induction false} SleptBounded(replies: nat -> Reply, n: nat)
    ensures 0.0 <= Asked(replies, n) <= Slept(replies, n) <= Asked(replies, n) + Pow2(n) as real - 1.0
  {
    if n > 0 {
      SleptBounded(replies, n - 1);
      assert Pow2(n) == 2 * Pow2(n - 1);
      Pow2Monotone(0, n - 1);
    }
  }

  predicate Escapes(r: Result) {
    r == RaisedTransport || r == RaisedValue
  }

  /** A failed request escapes its caller's handler in exactly two cases: a 429 whose header is
      no number comes before any reply that ends the request; or every post failed retryably
      and only 429s follow the last transport error. */
  lemma EscapesIff(replies: nat -> Reply, maxRetries: nat)
    ensures Escapes(Outcome(replies, maxRetries)) <==>
            || (exists k :: 0 <= k < maxRetries && replies(k) == NO_NUMBER && forall i :: 0 <= i < k ==> Retried(replies(i)))
            || ((forall i :: 0 <= i < maxRetries ==> Retried(replies(i))) && TransportLast(replies, maxRetries))
  {
    var n := PostCount(replies, maxRetries);
    if n > 0 && !Retried(replies(n - 1)) {
      if k :| 0 <= k < maxRetries && replies(k) == NO_NUMBER && forall i :: 0 <= i < k ==> Retried(replies(i)) {
        EndsOnce(replies, maxRetries, k + 1, n);
      }
    } else {
      assert n == maxRetries && forall i :: 0 <= i < n ==> Retried(replies(i));
      LastFailureIs(replies, n);
    }
  }

  ghost predicate TransportLast(replies: nat -> Reply, n: nat) {
    exists k :: 0 <= k < n && replies(k) == TransportError && forall i :: k < i < n ==> replies(i).TooManyRequests?
  }

  lemma {:induction false} LastFailureIs(replies: nat -> Reply, n: nat)
    requires forall i :: 0 <= i < n ==> Retried(replies(i))
    ensures LastFailure(replies, n) == Some(TransportError) <==> TransportLast(replies, n)
  {
    if n > 0 {
      LastFailureIs(replies, n - 1);
    }
  }

  /** The back-off is exact. Transport and server errors alone double it from one second. */
  lemma {:induction false} ErrorsBackOff(replies: nat -> Reply, n: nat)
    requires forall i :: 0 <= i < n ==> replies(i).TransportError? || replies(i).ServerError?
    ensures Slept(replies, n) == Pow2(n) as real - 1.0
  {
    if n > 0 {
      ErrorsBackOff(replies, n - 1);
      assert Pow2(n) == 2 * Pow2(n - 1);
    }
  }

  /** Each 429 costs half a second more than it asks for, or a second and a half if it asks
      for nothing, whichever attempt it answers. */
  lemma {:induction false} LimitsWaitAsAsked(replies: nat -> Reply, n: nat, seconds: real, given: bool)
    requires seconds >= 0.0
    requires forall i :: 0 <= i < n ==> replies(i) == TooManyRequests(if given then Seconds(seconds) else Missing)
    ensures Slept(replies, n) == n as real * if given then seconds + 0.5 else 1.5
  {
    if n > 0 {
      LimitsWaitAsAsked(replies, n - 1, seconds, given);
      var each := if given then seconds + 0.5 else 1.5;
      assert n as real * each == (n - 1) as real * each + each;
    }
  }

  /** Transport errors, server errors and readable 429s are retried, and nothing else is: while
      only those come, the whole budget is spent. */
  lemma SpendsBudget(replies: nat -> Reply, maxRetries: nat)
    requires forall i :: 0 <= i < maxRetries ==>
               match replies(i)
               case TransportError => true
               case ServerError => true
               case TooManyRequests(hint) => hint != Unreadable
               case _ => false
    ensures PostCount(replies, maxRetries) == maxRetries
    ensures Outcome(replies, maxRetries) == if TransportLast(replies, maxRetries) then RaisedTransport else ApiError
  {
    assert forall i :: 0 <= i < maxRetries ==> Retried(replies(i));
    EndsOnce(replies, maxRetries, maxRetries, PostCount(replies, maxRetries));
    LastFailureIs(replies, maxRetries);
  }

  /** Any other reply ends the request at once, with its own result. */
  lemma EndsAtOnce(replies: nat -> Reply, maxRetries: nat, k: nat)
    requires k < maxRetries && forall i :: 0 <= i < k ==> Retried(replies(i))
    ensures replies(k) == Success ==> PostCount(replies, maxRetries) == k + 1 && Outcome(replies, maxRetries) == Body
    ensures replies(k) == AuthRefused ==> PostCount(replies, maxRetries) == k + 1 && Outcome(replies, maxRetries) == AuthError
    ensures replies(k) == ClientError ==> PostCount(replies, maxRetries) == k + 1 && Outcome(replies, maxRetries) == ApiError
    ensures replies(k) == TooManyRequests(Unreadable) ==> PostCount(replies, maxRetries) == k + 1 && Outcome(replies, maxRetries) == RaisedValue
  {
    if !Retried(replies(k)) {
      EndsOnce(replies, maxRetries, k + 1, PostCount(replies, maxRetries));
    }
  }
}
