/** The order-rate and error-spike guards count time stamps in a deque that keeps only the
    newest 200. */
module SlidingWindow {
  import opened Ticks

  const MAXLEN: nat := 200

  predicate Sorted(s: seq<real>) {
    forall i, j :: 0 <= i < j < |s| ==> s[i] <= s[j]
  }

  /** `deque(maxlen=200).append`. */
  function Push(d: seq<real>, t: real): seq<real> {
    if |d| < MAXLEN then d + [t] else d[1..] + [t]
  }

  /** The newest entries of a complete log. */
  function Recent(log: seq<real>): seq<real> {
    if |log| <= MAXLEN then log else log[|log| - MAXLEN..]
  }

  function CountSince(s: seq<real>, cutoff: real): nat {
    if s == [] then 0
    else CountSince(s[..|s| - 1], cutoff) + if s[|s| - 1] >= cutoff then 1 else 0
  }

  function CountWithin(s: seq<real>, from: real, to: real): nat {
    if s == [] then 0
    else CountWithin(s[..|s| - 1], from, to) + if from <= s[|s| - 1] <= to then 1 else 0
  }

  lemma PushIsRecent(log: seq<real>, t: real)
    ensures Push(Recent(log), t) == Recent(log + [t])
  {
  }

  lemma SortedPush(log: seq<real>, t: real)
    requires Sorted(log) && forall x :: x in log ==> x <= t
    ensures Sorted(log + [t])
  {
    forall i, j | 0 <= i < j < |log + [t]|
      ensures (log + [t])[i] <= (log + [t])[j]
    {
      assert (log + [t])[i] in log;
    }
  }

  lemma {:induction false} CountAtMostLength(s: seq<real>, cutoff: real)
    ensures CountSince(s, cutoff) <= |s|
  {
    if s != [] { CountAtMostLength(s[..|s| - 1], cutoff); }
  }

  lemma {:induction false} CountNone(s: seq<real>, cutoff: real)
    requires forall i :: 0 <= i < |s| ==> s[i] < cutoff
    ensures CountSince(s, cutoff) == 0
  {
    if s != [] { CountNone(s[..|s| - 1], cutoff); }
  }

  lemma {:induction false} CountAll(s: seq<real>, cutoff: real)
    requires forall i :: 0 <= i < |s| ==> s[i] >= cutoff
    ensures CountSince(s, cutoff) == |s|
  {
    if s != [] { CountAll(s[..|s| - 1], cutoff); }
  }

  lemma {:induction false} CountConcat(s: seq<real>, t: seq<real>, cutoff: real)
    ensures CountSince(s + t, cutoff) == CountSince(s, cutoff) + CountSince(t, cutoff)
  {
    if t == [] {
      assert s + t == s;
    } else {
      assert (s + t)[..|s + t| - 1] == s + t[..|t| - 1];
      CountConcat(s, t[..|t| - 1], cutoff);
    }
  }

  lemma {:induction false} CountAntitone(s: seq<real>, early: real, late: real)
    requires early <= late
    ensures CountSince(s, late) <= CountSince(s, early)
  {
    if s != [] { CountAntitone(s[..|s| - 1], early, late); }
  }

  lemma {:induction false} WithinAtMostSince(s: seq<real>, from: real, to: real)
    ensures CountWithin(s, from, to) <= CountSince(s, from)
  {
    if s != [] { WithinAtMostSince(s[..|s| - 1], from, to); }
  }

  /** With a clock that never runs back, the bounded deque counts what the complete log
      would, saturating at 200. */
  lemma DequeCountsTheLog(log: seq<real>, cutoff: real)
    requires Sorted(log)
    ensures CountSince(Recent(log), cutoff) == Min(MAXLEN, CountSince(log, cutoff))
  {
    if |log| <= MAXLEN {
      CountAtMostLength(log, cutoff);
    } else {
      var cut := |log| - MAXLEN;
      assert log == log[..cut] + log[cut..];
      CountConcat(log[..cut], log[cut..], cutoff);
      CountAtMostLength(log[cut..], cutoff);
      if log[cut] >= cutoff {
        CountAll(log[cut..], cutoff);
      } else {
        CountNone(log[..cut], cutoff);
      }
    }
  }

  // ---- The order-rate guard over whole runs --------------------------------------------

  /** An order attempt: the clock when the risk check counted, and when it was recorded. */
  datatype Attempt = Attempt(checked: real, recorded: real)

  function Log(run: seq<Attempt>): (log: seq<real>)
    ensures |log| == |run|
  {
    if run == [] then [] else Log(run[..|run| - 1]) + [run[|run| - 1].recorded]
  }

  /** Attempts are serialized by the executor's lock: each is checked after the previous was
      recorded, and passes the guard on the deque as it then stands. */
  ghost predicate Guarded(run: seq<Attempt>, limit: int) {
    run == [] || (Guarded(run[..|run| - 1], limit) && Passes(run[..|run| - 1], run[|run| - 1], limit))
  }

  predicate Passes(run: seq<Attempt>, next: Attempt, limit: int) {
    && (run != [] ==> run[|run| - 1].recorded <= next.checked)
    && next.checked <= next.recorded
    && CountSince(Recent(Log(run)), next.checked - 60.0) < limit
  }

  /** Attempts recorded in the closed minute that begins at `start`. */
  function InMinute(run: seq<Attempt>, start: real): nat {
    CountWithin(Log(run), start, start + 60.0)
  }

  /** No closed window of sixty seconds holds more than `limit` attempts. */
  ghost predicate RateHeld(run: seq<Attempt>, limit: int) {
    forall start: real :: InMinute(run, start) <= Max(limit, 0)
  }

  lemma {:induction false} GuardedIsSorted(run: seq<Attempt>, limit: int)
    requires Guarded(run, limit)
    ensures Sorted(Log(run))
    ensures run != [] ==> forall i :: 0 <= i < |run| ==> Log(run)[i] <= run[|run| - 1].recorded
  {
    hide CountSince, Recent;
    if run != [] {
      GuardedIsSorted(run[..|run| - 1], limit);
    }
  }

  /** One more attempt that passed the guard, against the complete log. */
  lemma AttemptFits(log: seq<real>, next: Attempt, limit: int, start: real)
    requires Sorted(log) && limit <= MAXLEN && next.checked <= next.recorded
    requires CountSince(Recent(log), next.checked - 60.0) < limit
    requires start <= next.recorded <= start + 60.0
    ensures CountWithin(log, start, start + 60.0) < limit
  {
    hide Recent, Sorted, CountSince, CountWithin;
    DequeCountsTheLog(log, next.checked - 60.0);
    CountAntitone(log, next.checked - 60.0, start);
    WithinAtMostSince(log, start, start + 60.0);
  }

  lemma {:induction false} GuardHolds(run: seq<Attempt>, limit: int, start: real)
    requires Guarded(run, limit) && limit <= MAXLEN
    ensures InMinute(run, start) <= Max(limit, 0)
  {
    hide Recent, Sorted, CountSince, CountWithin;
    if run != [] {
      var init, last := run[..|run| - 1], run[|run| - 1];
      GuardHolds(init, limit, start);
      GuardedIsSorted(init, limit);
      if start <= last.recorded <= start + 60.0 {
        AttemptFits(Log(init), last, limit, start);
      }
      WithinLast(Log(init), last.recorded, start, start + 60.0);
      assert Log(run) == Log(init) + [last.recorded];
    } else {
      WithinNone(start, start + 60.0);
    }
  }

  lemma WithinNone(from: real, to: real)
    ensures CountWithin([], from, to) == 0
  {
  }

  lemma WithinLast(log: seq<real>, t: real, from: real, to: real)
    ensures CountWithin(log + [t], from, to) == CountWithin(log, from, to) + if from <= t <= to then 1 else 0
  {
    assert (log + [t])[..|log|] == log;
  }

  /** n attempts at one instant. */
  function Burst(n: nat): (run: seq<Attempt>)
    ensures |run| == n
  {
    if n == 0 then [] else Burst(n - 1) + [Attempt(0.0, 0.0)]
  }

  lemma OneMore(run: seq<Attempt>, next: Attempt, limit: int)
    ensures Guarded(run, limit) && Passes(run, next, limit) ==> Guarded(run + [next], limit)
    ensures Log(run + [next]) == Log(run) + [next.recorded]
  {
    hide Passes;
    assert (run + [next])[..|run|] == run;
  }

  lemma BurstNextPasses(n: nat, limit: int)
    requires n < limit || limit > MAXLEN
    ensures Passes(Burst(n), Attempt(0.0, 0.0), limit)
  {
    hide CountSince;
    CountAtMostLength(Recent(Log(Burst(n))), 0.0 - 60.0);
  }

  lemma {:induction false} BurstPasses(n: nat, limit: int)
    requires n <= limit || limit > MAXLEN
    ensures Guarded(Burst(n), limit)
    ensures InMinute(Burst(n), 0.0) == n
  {
    hide Guarded, Passes, Log, CountWithin;
    if n > 0 {
      BurstPasses(n - 1, limit);
      BurstNextPasses(n - 1, limit);
      OneMore(Burst(n - 1), Attempt(0.0, 0.0), limit);
      WithinLast(Log(Burst(n - 1)), 0.0, 0.0, 60.0);
    } else {
      EmptyBurst(limit);
    }
  }

  lemma EmptyBurst(limit: int)
    ensures Guarded([], limit) && InMinute([], 0.0) == 0
  {
  }

  /** All n of them are counted back to any earlier cutoff, as long as the deque holds them. */
  lemma BurstCounts(n: nat, cutoff: real)
    requires cutoff <= 0.0
    ensures CountSince(Log(Burst(n)), cutoff) == n
    ensures n <= MAXLEN ==> CountSince(Recent(Log(Burst(n))), cutoff) == n
  {
    hide Guarded, Passes, Burst, Log;
    BurstPasses(n, MAXLEN + 1);
    WithinAtMostSince(Log(Burst(n)), 0.0, 60.0);
    CountAntitone(Log(Burst(n)), cutoff, 0.0);
    CountAtMostLength(Log(Burst(n)), cutoff);
  }

  lemma GuardedIsHeld(run: seq<Attempt>, limit: int)
    requires Guarded(run, limit) && limit <= MAXLEN
    ensures RateHeld(run, limit)
  {
    hide Guarded, InMinute;
    forall start: real
      ensures InMinute(run, start) <= Max(limit, 0)
    {
      GuardHolds(run, limit, start);
    }
  }

  lemma BurstBreaksRate(limit: int)
    requires limit > MAXLEN
    ensures Guarded(Burst(limit + 1), limit) && !RateHeld(Burst(limit + 1), limit)
  {
    hide Guarded, InMinute, Burst;
    BurstPasses(limit + 1, limit);
    assert InMinute(Burst(limit + 1), 0.0) > Max(limit, 0);
  }

  /** The guard keeps the rate in every run and every window for exactly the limits the
      deque can count to. */
  lemma RateGuardSoundIffLimitFits(limit: int)
    ensures (forall run :: Guarded(run, limit) ==> RateHeld(run, limit)) <==> limit <= MAXLEN
  {
    hide Guarded, RateHeld;
    if limit <= MAXLEN {
      forall run | Guarded(run, limit)
        ensures RateHeld(run, limit)
      {
        GuardedIsHeld(run, limit);
      }
    } else {
      BurstBreaksRate(limit);
    }
  }

  // ---- Restarts ------------------------------------------------------------------------

  /** The attempts of one process after another; a new process starts with an empty deque. */
  ghost predicate GuardedLives(lives: seq<seq<Attempt>>, limit: int) {
    forall i :: 0 <= i < |lives| ==> Guarded(lives[i], limit)
  }

  function AllInMinute(lives: seq<seq<Attempt>>, start: real): nat {
    if lives == [] then 0 else AllInMinute(lives[..|lives| - 1], start) + InMinute(lives[|lives| - 1], start)
  }

  /** Processes with an attempt in that minute. */
  function LivesInMinute(lives: seq<seq<Attempt>>, start: real): nat {
    if lives == [] then 0
    else LivesInMinute(lives[..|lives| - 1], start) + if InMinute(lives[|lives| - 1], start) > 0 then 1 else 0
  }

  /** A crash forgets the window, so what holds over restarts is the limit times the number of
      processes that were active in the minute. */
  lemma {:induction false} RateOverRestarts(lives: seq<seq<Attempt>>, limit: int, start: real)
    requires GuardedLives(lives, limit) && limit <= MAXLEN
    ensures AllInMinute(lives, start) <= Max(limit, 0) * LivesInMinute(lives, start)
  {
    hide Guarded, InMinute;
    if lives != [] {
      var n := |lives| - 1;
      RateOverRestarts(lives[..n], limit, start);
      GuardHolds(lives[n], limit, start);
    }
  }

  /** And no less: each of any number of processes can use its limit up at one instant. */
  lemma {:induction false} RestartsMultiplyRate(limit: nat, k: nat)
    ensures var lives := seq(k, _ => Burst(limit));
            GuardedLives(lives, limit) && AllInMinute(lives, 0.0) == limit * k
  {
    hide Guarded, InMinute, Burst;
    BurstPasses(limit, limit);
    if k > 0 {
      RestartsMultiplyRate(limit, k - 1);
      assert seq(k, _ => Burst(limit))[..k - 1] == seq(k - 1, _ => Burst(limit));
    }
  }

  /** The deque's count meets a threshold exactly when the complete log's does. */
  ghost predicate SpikeSeen(log: seq<real>, cutoff: real, threshold: int) {
    CountSince(Recent(log), cutoff) >= threshold <==> CountSince(log, cutoff) >= threshold
  }

  lemma LongBurstUnseen(threshold: int)
    requires threshold > MAXLEN
    ensures var log := Log(Burst(threshold)); Sorted(log) && !SpikeSeen(log, -60.0, threshold)
  {
    hide Burst, Log, Guarded, Sorted;
    var log := Log(Burst(threshold));
    BurstPasses(threshold, threshold);
    GuardedIsSorted(Burst(threshold), threshold);
    WithinAtMostSince(log, 0.0, 60.0);
    CountAntitone(log, -60.0, 0.0);
    CountAtMostLength(Recent(log), -60.0);
  }

  /** A spike goes unnoticed in no log and no window for exactly the thresholds the deque can
      count to. */
  lemma SpikeSeenIffThresholdFits(threshold: int)
    ensures (forall log: seq<real>, cutoff: real :: Sorted(log) ==> SpikeSeen(log, cutoff, threshold)) <==> threshold <= MAXLEN
  {
    hide Sorted, Recent;
    if threshold <= MAXLEN {
      forall log: seq<real>, cutoff: real | Sorted(log)
        ensures SpikeSeen(log, cutoff, threshold)
      {
        DequeCountsTheLog(log, cutoff);
      }
    } else {
      LongBurstUnseen(threshold);
    }
  }
}
