/** Sliding-window rate limits: what a check decides, as a function of all recorded timestamps. */
module RateLimit {
  import opened Sequences
  import opened Wrappers

  const MINUTE: int := 60_000
  const HOUR: int := 3_600_000

  datatype Config = Config(maxPerMinute: int, maxPerHour: int)

  datatype Status = Status(
    allowed: bool, lastMinute: nat, lastHour: nat, limitPerMinute: int, limitPerHour: int)

  datatype Limit = PerMinute | PerHour

  /** `retryAfter` is absent when the window is empty, where the source computes NaN. */
  datatype Rejection = Rejection(limit: Limit, count: nat, retryAfter: Option<int>)

  /** The timestamps after a cutoff, in order. */
  function Since(ts: seq<int>, cutoff: int): seq<int> {
    if ts == [] then []
    else if ts[0] > cutoff then [ts[0]] + Since(ts[1..], cutoff)
    else Since(ts[1..], cutoff)
  }

  /** `n / d` rounded up, for positive `d`. */
  function CeilDiv(n: int, d: int): int
    requires d > 0
  {
    -((-n) / d)
  }

  function RetryAfter(window: seq<int>, span: int, now: int): Option<int> {
    if window == [] then None else Some(CeilDiv(window[0] + span - now, 1000))
  }

  /** What a check at `now` decides after the recorded timestamps `ts`. */
  function Decide(config: Config, ts: seq<int>, now: int): Result<Status, Rejection> {
    var minute, hour := Since(ts, now - MINUTE), Since(ts, now - HOUR);
    if |minute| >= config.maxPerMinute then
      Failure(Rejection(PerMinute, |minute|, RetryAfter(minute, MINUTE, now)))
    else if |hour| >= config.maxPerHour then
      Failure(Rejection(PerHour, |hour|, RetryAfter(hour, HOUR, now)))
    else Success(Status(true, |minute|, |hour|, config.maxPerMinute, config.maxPerHour))
  }

  function CurrentStatus(config: Config, ts: seq<int>, now: int): Status {
    var minute, hour := |Since(ts, now - MINUTE)|, |Since(ts, now - HOUR)|;
    Status(minute < config.maxPerMinute && hour < config.maxPerHour, minute, hour,
           config.maxPerMinute, config.maxPerHour)
  }

  /** The status query allows exactly what a check lets pass, with the same numbers. */
  lemma StatusAgreesWithCheck(config: Config, ts: seq<int>, now: int)
    ensures CurrentStatus(config, ts, now).allowed <==> Decide(config, ts, now).Success?
    ensures Decide(config, ts, now).Success? ==> Decide(config, ts, now).value == CurrentStatus(config, ts, now)
  {
  }

  // ----- Pruning -----

  lemma {:induction false} SinceSnoc(ts: seq<int>, t: int, cutoff: int)
    ensures Since(ts + [t], cutoff) == if t > cutoff then Since(ts, cutoff) + [t] else Since(ts, cutoff)
  {
    if ts == [] {
      assert ts + [t] == [t];
    } else {
      SinceSnoc(ts[1..], t, cutoff);
      assert (ts + [t])[0] == ts[0] && (ts + [t])[1..] == ts[1..] + [t];
      ConsSnoc(ts[0], Since(ts[1..], cutoff), t);
    }
  }

  lemma ConsSnoc(a: int, middle: seq<int>, b: int)
    ensures [a] + (middle + [b]) == [a] + middle + [b]
  {
  }

  lemma {:induction false} SinceTwice(ts: seq<int>, early: int, late: int)
    requires early <= late
    ensures Since(Since(ts, early), late) == Since(ts, late)
  {
    if ts == [] {
    } else {
      SinceTwice(ts[1..], early, late);
      if ts[0] > early {
        assert Since(ts, early)[1..] == Since(ts[1..], early);
      }
    }
  }

  lemma {:induction false} SinceShrinks(ts: seq<int>, early: int, late: int)
    requires early <= late
    ensures |Since(ts, late)| <= |Since(ts, early)|
  {
    if ts == [] {
    } else {
      SinceShrinks(ts[1..], early, late);
    }
  }

  /** A list pruned an hour before some past check still decides every later check. */
  lemma PrunedDecides(config: Config, ts: seq<int>, horizon: int, now: int)
    requires horizon <= now - HOUR
    ensures Decide(config, Since(ts, horizon), now) == Decide(config, ts, now)
    ensures CurrentStatus(config, Since(ts, horizon), now) == CurrentStatus(config, ts, now)
  {
    SinceTwice(ts, horizon, now - HOUR);
    SinceTwice(ts, horizon, now - MINUTE);
  }

  // ----- Every window is within its limit -----

  /** How many timestamps lie after `t - span` and not after `t`. */
  function CountIn(ts: seq<int>, span: int, t: int): nat {
    if ts == [] then 0
    else CountIn(ts[..|ts| - 1], span, t) + (if t - span < ts[|ts| - 1] <= t then 1 else 0)
  }

  ghost predicate WithinLimit(ts: seq<int>, span: int, limit: int) {
    forall t :: CountIn(ts, span, t) <= limit
  }

  ghost predicate WithinLimits(config: Config, ts: seq<int>) {
    WithinLimit(ts, MINUTE, config.maxPerMinute) && WithinLimit(ts, HOUR, config.maxPerHour)
  }

  ghost predicate Sorted(ts: seq<int>) {
    forall i, j :: 0 <= i <= j < |ts| ==> ts[i] <= ts[j]
  }

  ghost predicate UpTo(ts: seq<int>, now: int) {
    forall i :: 0 <= i < |ts| ==> ts[i] <= now
  }

  lemma {:induction false} CountBySince(ts: seq<int>, span: int, t: int, cutoff: int)
    requires cutoff <= t - span
    ensures CountIn(ts, span, t) <= |Since(ts, cutoff)|
  {
    if ts == [] {
    } else {
      var n := |ts| - 1;
      CountBySince(ts[..n], span, t, cutoff);
      SinceSnoc(ts[..n], ts[n], cutoff);
      assert ts == ts[..n] + [ts[n]];
    }
  }

  lemma {:induction false} CountUpTo(ts: seq<int>, span: int, t: int)
    requires UpTo(ts, t)
    ensures CountIn(ts, span, t) == |Since(ts, t - span)|
  {
    if ts == [] {
    } else {
      var n := |ts| - 1;
      CountUpTo(ts[..n], span, t);
      SinceSnoc(ts[..n], ts[n], t - span);
      assert ts == ts[..n] + [ts[n]];
    }
  }

  /** Recording at `r` after a check at `c` that saw less than the limit keeps every window within it. */
  lemma RecordKeepsLimit(ts: seq<int>, span: int, limit: int, c: int, r: int)
    requires WithinLimit(ts, span, limit)
    requires c <= r && |Since(ts, c - span)| < limit
    ensures WithinLimit(ts + [r], span, limit)
  {
    forall t
      ensures CountIn(ts + [r], span, t) <= limit
    {
      assert (ts + [r])[..|ts|] == ts;
      assert CountIn(ts, span, t) <= limit;
      if t >= r {
        CountBySince(ts, span, t, c - span);
      }
    }
  }

  /** One call of the service: a check, and a record if the check passed and the save succeeded. */
  datatype Attempt = Attempt(checkedAt: int, recordedAt: int, saved: bool)

  function AfterAttempt(config: Config, ts: seq<int>, a: Attempt): seq<int> {
    if Decide(config, ts, a.checkedAt).Success? && a.saved then ts + [a.recordedAt] else ts
  }

  function AfterRun(config: Config, run: seq<Attempt>): seq<int> {
    if run == [] then []
    else AfterAttempt(config, AfterRun(config, run[..|run| - 1]), run[|run| - 1])
  }

  /** The calls of one merchant do not overlap and the clock does not run backwards. */
  ghost predicate Timely(run: seq<Attempt>) {
    && (forall i :: 0 <= i < |run| ==> run[i].checkedAt <= run[i].recordedAt)
    && (forall i, j :: 0 <= i < j < |run| ==> run[i].recordedAt <= run[j].checkedAt)
  }

  lemma AttemptKeepsLimits(config: Config, ts: seq<int>, a: Attempt)
    requires WithinLimits(config, ts) && Sorted(ts) && UpTo(ts, a.checkedAt) && a.checkedAt <= a.recordedAt
    ensures var ts' := AfterAttempt(config, ts, a);
            WithinLimits(config, ts') && Sorted(ts') && UpTo(ts', a.recordedAt)
  {
    if Decide(config, ts, a.checkedAt).Success? && a.saved {
      RecordKeepsLimit(ts, MINUTE, config.maxPerMinute, a.checkedAt, a.recordedAt);
      RecordKeepsLimit(ts, HOUR, config.maxPerHour, a.checkedAt, a.recordedAt);
    }
  }

  lemma EmptyWithinLimits(config: Config)
    requires config.maxPerMinute >= 0 && config.maxPerHour >= 0
    ensures WithinLimits(config, [])
  {
  }

  /** In every run, every minute and every hour holds at most its limit of recorded transactions. */
  lemma {:induction false} RunWithinLimits(config: Config, run: seq<Attempt>)
    requires config.maxPerMinute >= 0 && config.maxPerHour >= 0 && Timely(run)
    ensures WithinLimits(config, AfterRun(config, run)) && Sorted(AfterRun(config, run))
    ensures run != [] ==> UpTo(AfterRun(config, run), run[|run| - 1].recordedAt)
  {
    if run == [] {
      EmptyWithinLimits(config);
    } else {
      var n := |run| - 1;
      RunWithinLimits(config, run[..n]);
      AttemptKeepsLimits(config, AfterRun(config, run[..n]), run[n]);
    }
  }

  // ----- The retry time is exact -----

  lemma {:induction false} SortedSince(ts: seq<int>, cutoff: int)
    requires Sorted(ts)
    ensures Sorted(Since(ts, cutoff))
    ensures forall i :: 0 <= i < |Since(ts, cutoff)| ==> Since(ts, cutoff)[i] > cutoff && Since(ts, cutoff)[i] in ts
  {
    if ts == [] {
    } else {
      SortedSince(ts[1..], cutoff);
    }
  }

  lemma {:induction false} AllSince(ts: seq<int>, cutoff: int)
    requires forall i :: 0 <= i < |ts| ==> ts[i] > cutoff
    ensures Since(ts, cutoff) == ts
  {
    if ts == [] {
    } else {
      AllSince(ts[1..], cutoff);
    }
  }

  lemma {:induction false} SinceAtMost(ts: seq<int>, cutoff: int)
    ensures |Since(ts, cutoff)| <= |ts|
    ensures ts != [] && ts[0] <= cutoff ==> |Since(ts, cutoff)| < |ts|
  {
    if ts == [] {
    } else {
      SinceAtMost(ts[1..], cutoff);
    }
  }

  /**
   * A window that is exactly full at `now` is full until its oldest entry leaves it, and not after.
   */
  lemma FullUntilOldestLeaves(ts: seq<int>, span: int, limit: int, now: int, later: int)
    requires Sorted(ts) && limit >= 1 && |Since(ts, now - span)| == limit && now <= later
    ensures |Since(ts, later - span)| >= limit <==> later < Since(ts, now - span)[0] + span
  {
    var window := Since(ts, now - span);
    SortedSince(ts, now - span);
    SinceTwice(ts, now - span, later - span);
    if later < window[0] + span {
      AllSince(window, later - span);
    } else {
      SinceAtMost(window, later - span);
    }
  }

  lemma CeilExact(n: int)
    requires n > 0
    ensures CeilDiv(n, 1000) >= 1 && CeilDiv(n, 1000) * 1000 >= n && (CeilDiv(n, 1000) - 1) * 1000 < n
  {
  }

  /** In a history within its limits, the check that finds a full window finds exactly the limit in it. */
  lemma RejectedIsFull(ts: seq<int>, span: int, limit: int, now: int)
    requires WithinLimit(ts, span, limit) && UpTo(ts, now) && |Since(ts, now - span)| >= limit
    ensures |Since(ts, now - span)| == limit
  {
    CountUpTo(ts, span, now);
    assert CountIn(ts, span, now) <= limit;
  }

  /** The retry time of a full window: within the span, and exact to the second. */
  lemma RetryIsExact(ts: seq<int>, span: int, limit: int, now: int)
    requires Sorted(ts) && UpTo(ts, now) && WithinLimit(ts, span, limit) && limit >= 1
    requires span > 0 && span % 1000 == 0 && |Since(ts, now - span)| >= limit
    ensures var retry := RetryAfter(Since(ts, now - span), span, now);
            && retry.Some? && 1 <= retry.value <= span / 1000
            && |Since(ts, now + 1000 * retry.value - span)| < limit
            && |Since(ts, now + 1000 * (retry.value - 1) - span)| >= limit
  {
    RejectedIsFull(ts, span, limit, now);
    SortedSince(ts, now - span);
    var oldest := Since(ts, now - span)[0];
    assert now - span < oldest <= now by {
      assert oldest in ts;
    }
    CeilExact(oldest + span - now);
    var s := CeilDiv(oldest + span - now, 1000);
    FullUntilOldestLeaves(ts, span, limit, now, now + 1000 * s);
    FullUntilOldestLeaves(ts, span, limit, now, now + 1000 * (s - 1));
  }

  /** After a rejection by the minute limit, that limit clears after exactly the retry time. */
  lemma MinuteRetry(config: Config, ts: seq<int>, now: int)
    requires Sorted(ts) && UpTo(ts, now) && WithinLimits(config, ts) && config.maxPerMinute >= 1
    requires Decide(config, ts, now).Failure? && Decide(config, ts, now).error.limit == PerMinute
    ensures var retry := Decide(config, ts, now).error.retryAfter;
            && retry.Some? && 1 <= retry.value <= 60
            && (var r := Decide(config, ts, now + 1000 * retry.value); r.Failure? ==> r.error.limit == PerHour)
            && (var r := Decide(config, ts, now + 1000 * (retry.value - 1)); r.Failure? && r.error.limit == PerMinute)
  {
    RetryIsExact(ts, MINUTE, config.maxPerMinute, now);
  }

  /** After a rejection by the hour limit, the whole check passes after exactly the retry time. */
  lemma HourRetry(config: Config, ts: seq<int>, now: int)
    requires Sorted(ts) && UpTo(ts, now) && WithinLimits(config, ts) && config.maxPerHour >= 1
    requires Decide(config, ts, now).Failure? && Decide(config, ts, now).error.limit == PerHour
    ensures var retry := Decide(config, ts, now).error.retryAfter;
            && retry.Some? && 1 <= retry.value <= 3600
            && Decide(config, ts, now + 1000 * retry.value).Success?
            && Decide(config, ts, now + 1000 * (retry.value - 1)).Failure?
  {
    RetryIsExact(ts, HOUR, config.maxPerHour, now);
    var s := Decide(config, ts, now).error.retryAfter.value;
    SinceShrinks(ts, now - MINUTE, now + 1000 * s - MINUTE);
  }

  /** The retry time of a rejection is exact: then its limit has cleared, and one second earlier it has not. */
  ghost predicate ExactRetry(config: Config, ts: seq<int>, now: int, rejection: Rejection) {
    && rejection.retryAfter.Some?
    && 1 <= rejection.retryAfter.value <= (if rejection.limit == PerMinute then 60 else 3600)
    && (var after := Decide(config, ts, now + 1000 * rejection.retryAfter.value);
        after.Success? || (rejection.limit == PerMinute && after.error.limit == PerHour))
    && Decide(config, ts, now + 1000 * (rejection.retryAfter.value - 1)).Failure?
  }

  lemma HistoryRetryIsExact(config: Config, ts: seq<int>, now: int)
    requires config.maxPerMinute >= 1 && config.maxPerHour >= 1
    requires Sorted(ts) && UpTo(ts, now) && WithinLimits(config, ts) && Decide(config, ts, now).Failure?
    ensures ExactRetry(config, ts, now, Decide(config, ts, now).error)
  {
    if Decide(config, ts, now).error.limit == PerMinute {
      MinuteRetry(config, ts, now);
    } else {
      HourRetry(config, ts, now);
    }
  }

  /** In the runs of the service every rejection's retry time is exact. */
  lemma RunRetryIsExact(config: Config, run: seq<Attempt>, now: int)
    requires config.maxPerMinute >= 1 && config.maxPerHour >= 1 && Timely(run)
    requires run != [] ==> run[|run| - 1].recordedAt <= now
    requires Decide(config, AfterRun(config, run), now).Failure?
    ensures ExactRetry(config, AfterRun(config, run), now, Decide(config, AfterRun(config, run), now).error)
  {
    RunWithinLimits(config, run);
    HistoryRetryIsExact(config, AfterRun(config, run), now);
  }


  // ----- The limits in milliseconds and counts -----

  /** The recorded times after `from`, up to and including `to`. */
  function Between(ts: seq<int>, from: int, to: int): seq<int> {
    Filter(ts, (t: int) => from < t <= to)
  }

  lemma {:induction false} SinceIsBetween(ts: seq<int>, from: int, to: int)
    requires UpTo(ts, to)
    ensures Since(ts, from) == Between(ts, from, to)
  {
    if ts == [] {
    } else {
      SinceIsBetween(ts[1..], from, to);
    }
  }

  lemma {:induction false} CountIsBetween(ts: seq<int>, span: int, t: int)
    ensures CountIn(ts, span, t) == |Between(ts, t - span, t)|
  {
    if ts == [] {
    } else {
      var n := |ts| - 1;
      CountIsBetween(ts[..n], span, t);
      assert ts == ts[..n] + [ts[n]];
      FilterAppend(ts[..n], [ts[n]], (x: int) => t - span < x <= t);
    }
  }

  /**
   * A check passes exactly if the last 60 seconds and the last 3600 seconds each hold fewer records than
   * their limit, the shorter span being judged first; it reports the numbers it found.
   */
  lemma DecidesExactly(config: Config, ts: seq<int>, now: int)
    requires UpTo(ts, now)
    ensures var minute, hour := |Between(ts, now - 60_000, now)|, |Between(ts, now - 3_600_000, now)|;
            var r := Decide(config, ts, now);
            && (r.Success? <==> minute < config.maxPerMinute && hour < config.maxPerHour)
            && (r.Success? ==> r.value == Status(true, minute, hour, config.maxPerMinute, config.maxPerHour))
            && (r.Failure? && minute >= config.maxPerMinute ==> r.error.limit == PerMinute && r.error.count == minute)
            && (r.Failure? && minute < config.maxPerMinute ==> r.error.limit == PerHour && r.error.count == hour)
  {
    SinceIsBetween(ts, now - 60_000, now);
    SinceIsBetween(ts, now - 3_600_000, now);
  }

  /** After any run, no 60 seconds and no 3600 seconds hold more records than their limit. */
  lemma EveryWindowIsWithinLimits(config: Config, run: seq<Attempt>, t: int)
    requires config.maxPerMinute >= 0 && config.maxPerHour >= 0 && Timely(run)
    ensures |Between(AfterRun(config, run), t - 60_000, t)| <= config.maxPerMinute
    ensures |Between(AfterRun(config, run), t - 3_600_000, t)| <= config.maxPerHour
  {
    var ts := AfterRun(config, run);
    RunWithinLimits(config, run);
    CountIsBetween(ts, 60_000, t);
    CountIsBetween(ts, 3_600_000, t);
    assert CountIn(ts, MINUTE, t) <= config.maxPerMinute && CountIn(ts, HOUR, t) <= config.maxPerHour;
  }
}
