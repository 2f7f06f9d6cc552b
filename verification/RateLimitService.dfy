/** The rate limiter as the service keeps it: pruned lists per merchant, updated by each check and record. */
module RateLimitService {
  import opened Wrappers
  import opened Sequences
  import opened RateLimit

  /**
   * A merchant's kept list is its history, or its history after a pruning cutoff at least an hour
   * before the clock; the history is in order and not in the future.
   */
  ghost predicate Tracked(kept: seq<int>, full: seq<int>, horizon: Option<int>, clock: int) {
    && (if horizon.None? then kept == full else horizon.value <= clock - HOUR && kept == Since(full, horizon.value))
    && Sorted(full) && UpTo(full, clock)
  }

  lemma TrackedDecides(config: Config, kept: seq<int>, full: seq<int>, horizon: Option<int>, clock: int, now: int)
    requires Tracked(kept, full, horizon, clock) && clock <= now
    ensures Decide(config, kept, now) == Decide(config, full, now)
    ensures CurrentStatus(config, kept, now) == CurrentStatus(config, full, now)
    ensures Tracked(Since(kept, now - HOUR), full, Some(now - HOUR), now)
    ensures Since(kept, now - HOUR) == Since(full, now - HOUR)
  {
    if horizon.Some? {
      PrunedDecides(config, full, horizon.value, now);
      SinceTwice(full, horizon.value, now - HOUR);
    }
  }

  lemma TrackedRecord(kept: seq<int>, full: seq<int>, horizon: Option<int>, clock: int, now: int)
    requires Tracked(kept, full, horizon, clock) && clock <= now
    ensures Tracked(kept + [now], full + [now], horizon, now)
    ensures Tracked(kept, full, horizon, now)
  {
    if horizon.Some? {
      SinceSnoc(full, now, horizon.value);
    }
  }

  class Limiter {
    const config: Config
    var timestamps: map<string, seq<int>>

    /** Every timestamp ever recorded, the last pruning cutoff of each merchant, and the latest time seen. */
    ghost var history: map<string, seq<int>>
    ghost var horizon: map<string, int>
    ghost var clock: int

    ghost function Horizon(merchant: string): Option<int>
      reads this
    {
      if merchant in horizon then Some(horizon[merchant]) else None
    }

    ghost predicate Valid()
      reads this
    {
      forall m :: Tracked(Get(timestamps, m), Get(history, m), Horizon(m), clock)
    }

    constructor (config: Config)
      ensures Valid() && this.config == config && history == map[]
      ensures config.maxPerMinute >= 0 && config.maxPerHour >= 0 ==> AllWithinLimits()
    {
      this.config := config;
      timestamps, history, horizon, clock := map[], map[], map[], 0;
    }

    /** Checks and prunes; the decision is the one the whole history would give. */
    method Check(merchant: string, now: int) returns (r: Result<Status, Rejection>)
      requires Valid() && clock <= now
      modifies this
      ensures Valid() && clock == now && history == old(history)
      ensures r == Decide(config, Get(history, merchant), now)
      ensures timestamps == old(timestamps)[merchant := Since(Get(history, merchant), now - HOUR)]
    {
      var all := Get(timestamps, merchant);
      TrackedDecides(config, all, Get(history, merchant), Horizon(merchant), clock, now);
      var recent := Since(all, now - HOUR);
      SinceTwice(all, now - HOUR, now - MINUTE);
      Prune(merchant, recent, now);

      var window := Since(recent, now - MINUTE);
      var lastMinute, lastHour := |window|, |recent|;
      if lastMinute >= config.maxPerMinute {
        return Failure(Rejection(PerMinute, lastMinute, RetryAfter(window, MINUTE, now)));
      }
      if lastHour >= config.maxPerHour {
        return Failure(Rejection(PerHour, lastHour, RetryAfter(recent, HOUR, now)));
      }
      r := Success(Status(true, lastMinute, lastHour, config.maxPerMinute, config.maxPerHour));
    }

    method Prune(merchant: string, recent: seq<int>, now: int)
      requires Valid() && clock <= now
      requires recent == Since(Get(timestamps, merchant), now - HOUR)
      modifies this
      ensures Valid() && clock == now && history == old(history)
      ensures timestamps == old(timestamps)[merchant := recent]
    {
      timestamps := timestamps[merchant := recent];
      horizon, clock := horizon[merchant := now - HOUR], now;
      forall m
        ensures Tracked(Get(timestamps, m), Get(history, m), Horizon(m), clock)
      {
        TrackedRecord(Get(old(timestamps), m), Get(history, m), old(Horizon(m)), old(clock), now);
        TrackedDecides(config, Get(old(timestamps), m), Get(history, m), old(Horizon(m)), old(clock), now);
      }
    }

    method Record(merchant: string, now: int)
      requires Valid() && clock <= now
      modifies this
      ensures Valid() && clock == now
      ensures history == old(history)[merchant := Get(old(history), merchant) + [now]]
      ensures timestamps == old(timestamps)[merchant := Get(old(timestamps), merchant) + [now]]
    {
      timestamps := timestamps[merchant := Get(timestamps, merchant) + [now]];
      history := history[merchant := Get(history, merchant) + [now]];
      clock := now;
      forall m
        ensures Tracked(Get(timestamps, m), Get(history, m), Horizon(m), clock)
      {
        TrackedRecord(Get(old(timestamps), m), Get(old(history), m), old(Horizon(m)), old(clock), now);
      }
    }

    method GetStatus(merchant: string, now: int) returns (status: Status)
      requires Valid() && clock <= now
      ensures status == CurrentStatus(config, Get(history, merchant), now)
    {
      TrackedDecides(config, Get(timestamps, merchant), Get(history, merchant), Horizon(merchant), clock, now);
      var recent := Since(Get(timestamps, merchant), now - HOUR);
      SinceTwice(Get(timestamps, merchant), now - HOUR, now - MINUTE);
      var lastMinute, lastHour := |Since(recent, now - MINUTE)|, |recent|;
      status := Status(lastMinute < config.maxPerMinute && lastHour < config.maxPerHour,
                       lastMinute, lastHour, config.maxPerMinute, config.maxPerHour);
    }

    /** Every merchant's history keeps both limits in every window. */
    ghost predicate AllWithinLimits()
      reads this
    {
      forall m :: WithinLimits(config, Get(history, m))
    }

    /**
     * Saving a transaction: check, save, record. `attempt` gives the two clock readings and whether
     * the save succeeded. Limits are kept in every window of every merchant.
     */
    method RecordTransaction(merchant: string, attempt: Attempt) returns (r: Result<Status, Rejection>)
      requires Valid() && AllWithinLimits() && clock <= attempt.checkedAt <= attempt.recordedAt
      modifies this
      ensures Valid() && AllWithinLimits()
      ensures r == Decide(config, Get(old(history), merchant), attempt.checkedAt)
      ensures Get(history, merchant) == AfterAttempt(config, Get(old(history), merchant), attempt)
      ensures forall m :: m != merchant ==> Get(history, m) == Get(old(history), m)
    {
      assert Tracked(Get(timestamps, merchant), Get(history, merchant), Horizon(merchant), clock);
      AttemptKeepsLimits(config, Get(history, merchant), attempt);
      r := Check(merchant, attempt.checkedAt);
      if r.Success? && attempt.saved {
        Record(merchant, attempt.recordedAt);
      }
      forall m
        ensures WithinLimits(config, Get(history, m))
      {
        assert WithinLimits(config, Get(old(history), m));
      }
    }
  }
}
