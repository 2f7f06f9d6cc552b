/** Failover between the RPC providers of one chain, and the fetch loop that relies on it. */
module RpcFailover {

  datatype Health = Health(healthy: bool, lastChecked: nat, responseTime: nat, errorCount: nat, successCount: nat)

  /** When a probe ended and how long it took. */
  datatype Timing = Timing(now: nat, elapsed: nat)

  const PROBE_TIMEOUT_MS: nat := 2000

  /** One probe's mark on the record of its provider. */
  function Probed(h: Health, up: bool, t: Timing, timeout: nat): Health {
    if up then Health(true, t.now, t.elapsed, h.errorCount, h.successCount + 1)
    else Health(false, t.now, timeout, h.errorCount + 1, h.successCount)
  }

  /** The record of one URL after the probes of all providers in order. */
  function HealthAfter(h: Health, u: string, urls: seq<string>, up: bool, timings: seq<Timing>, timeout: nat): Health
    requires |timings| == |urls|
  {
    if urls == [] then h
    else
      var n := |urls| - 1;
      var before := HealthAfter(h, u, urls[..n], up, timings[..n], timeout);
      if urls[n] == u then Probed(before, up, timings[n], timeout) else before
  }

  /** Every probe of a provider is counted, on one side only. */
  lemma {:induction false} ProbesAreCounted(h: Health, u: string, urls: seq<string>, up: bool, timings: seq<Timing>, timeout: nat)
    requires |timings| == |urls|
    ensures var after := HealthAfter(h, u, urls, up, timings, timeout);
            && after.successCount == h.successCount + (if up then multiset(urls)[u] else 0)
            && after.errorCount == h.errorCount + (if up then 0 else multiset(urls)[u])
  {
    if urls == [] {
    } else {
      var n := |urls| - 1;
      assert urls == urls[..n] + [urls[n]];
      ProbesAreCounted(h, u, urls[..n], up, timings[..n], timeout);
    }
  }

  /** A provider's record shows its last probe. */
  lemma {:induction false} LastProbeShows(h: Health, u: string, urls: seq<string>, up: bool, timings: seq<Timing>, timeout: nat, k: nat)
    requires |timings| == |urls| && k < |urls| && urls[k] == u && u !in urls[k + 1..]
    ensures var after := HealthAfter(h, u, urls, up, timings, timeout);
            && after.healthy == up && after.lastChecked == timings[k].now
            && after.responseTime == (if up then timings[k].elapsed else timeout)
  {
    var n := |urls| - 1;
    if k < n {
      assert urls[n] == urls[k + 1..][n - k - 1];
      assert forall j :: k + 1 <= j < n ==> urls[..n][j] == urls[k + 1..][j - k - 1];
      LastProbeShows(h, u, urls[..n], up, timings[..n], timeout, k);
    }
  }

  lemma {:induction false} MarkedByAnswer(h: Health, u: string, urls: seq<string>, up: bool, timings: seq<Timing>, timeout: nat)
    requires |timings| == |urls| && u in urls
    ensures HealthAfter(h, u, urls, up, timings, timeout).healthy == up
  {
    var n := |urls| - 1;
    if urls[n] != u {
      assert urls == urls[..n] + [urls[n]];
      MarkedByAnswer(h, u, urls[..n], up, timings[..n], timeout);
    }
  }

  class ProviderManager {
    /** The provider URLs in priority order. */
    const urls: seq<string>
    var health: map<string, Health>
    var current: nat

    ghost predicate Valid()
      reads this
    {
      && (forall u :: u in urls ==> u in health)
      && (urls != [] ==> current < |urls|)
    }

    constructor (urls: seq<string>)
      ensures Valid() && this.urls == urls && current == 0
      ensures health.Keys == (set u | u in urls)
      ensures forall u :: u in urls ==> health[u] == Health(true, 0, 0, 0, 0)
    {
      this.urls := urls;
      health := map u | u in urls :: Health(true, 0, 0, 0, 0);
      current := 0;
    }

    predicate Healthy(i: nat)
      requires i < |urls|
      reads this
    {
      urls[i] in health && health[urls[i]].healthy
    }

    /** The position `k` steps after `from` in cyclic order. */
    function Cyclic(from: nat, k: nat): (i: nat)
      requires urls != []
      ensures i < |urls|
    {
      (from + k) % |urls|
    }

    /** Probes every provider in order, a URL as often as it is listed; `up` are those that answer in time. */
    method CheckHealth(up: set<string>, timings: seq<Timing>, timeout: nat)
      requires Valid() && |timings| == |urls|
      modifies this`health
      ensures Valid() && health.Keys == old(health.Keys)
      ensures forall u :: u in health ==> health[u] == HealthAfter(old(health)[u], u, urls, u in up, timings, timeout)
      ensures forall u :: u in urls ==> health[u].healthy == (u in up)
    {
      for i := 0 to |urls|
        invariant Valid() && health.Keys == old(health.Keys)
        invariant forall u :: u in health ==> health[u] == HealthAfter(old(health)[u], u, urls[..i], u in up, timings[..i], timeout)
      {
        var u := urls[i];
        health := health[u := Probed(health[u], u in up, timings[i], timeout)];
        assert urls[..i + 1][..i] == urls[..i] && timings[..i + 1][..i] == timings[..i];
      }
      assert urls[..|urls|] == urls && timings[..|urls|] == timings;
      forall u | u in urls
        ensures health[u].healthy == (u in up)
      {
        MarkedByAnswer(old(health)[u], u, urls, u in up, timings, timeout);
      }
    }

    /** Moves to the first healthy provider after the current one, coming back to it last. */
    method Failover() returns (moved: bool)
      requires Valid()
      modifies this`current
      ensures Valid()
      ensures moved <==> exists i: nat :: i < |urls| && Healthy(i)
      ensures !moved ==> current == old(current)
      ensures moved ==> exists k: nat ::
                && 1 <= k <= |urls| && current == Cyclic(old(current), k) && Healthy(current)
                && forall j: nat :: 1 <= j < k ==> !Healthy(Cyclic(old(current), j))
    {
      for i := 0 to |urls|
        invariant forall j: nat :: 1 <= j <= i ==> !Healthy(Cyclic(current, j))
      {
        var idx := Cyclic(current, i + 1);
        if Healthy(idx) {
          ghost var start := current;
          current := idx;
          assert current == Cyclic(start, i + 1) && Healthy(current);
          return true;
        }
      }
      forall i: nat | i < |urls|
        ensures !Healthy(i)
      {
        CyclicReaches(current, i);
      }
      moved := false;
    }

    /** Every position is reached within one round. */
    lemma CyclicReaches(from: nat, i: nat)
      requires from < |urls| && i < |urls|
      ensures exists k: nat :: 1 <= k <= |urls| && Cyclic(from, k) == i
    {
      if i > from {
        assert Cyclic(from, i - from) == i;
      } else {
        WrapsAround(i, |urls|);
        assert Cyclic(from, i + |urls| - from) == i;
      }
    }

    /**
     * The fetch loop: on a failed read it probes all providers, fails over and tries again, at most as
     * often as there are providers. `up(2 * k)` are the providers that answer the read of attempt `k`,
     * `up(2 * k + 1)` those that answer the probes after it.
     */
    method Fetch(up: nat -> set<string>, timings: nat -> seq<Timing>) returns (success: bool, attempts: nat)
      requires Valid() && urls != [] && forall t :: |timings(t)| == |urls|
      modifies this`health, this`current
      ensures Valid() && attempts <= |urls|
      ensures success ==> attempts < |urls| && urls[current] in up(2 * attempts)
      ensures (forall t :: up(t) == up(0)) ==> (success <==> exists u :: u in urls && u in up(0))
      ensures (forall t :: up(t) == up(0)) && success ==> attempts <= 1 && urls[current] in up(0)
    {
      success, attempts := false, 0;
      while !success && attempts < |urls|
        invariant Valid() && attempts <= |urls|
        invariant success ==> attempts < |urls| && urls[current] in up(2 * attempts)
        invariant (forall s :: up(s) == up(0)) && success ==> attempts <= 1 && urls[current] in up(0)
        invariant (forall s :: up(s) == up(0)) && !success && attempts == 1 && (exists u :: u in urls && u in up(0)) ==>
                    urls[current] in up(0) && |urls| >= 2
        invariant (forall s :: up(s) == up(0)) && !success && attempts >= 2 ==> forall u :: u in urls ==> u !in up(0)
        decreases |urls| - attempts, !success
      {
        if urls[current] in up(2 * attempts) {
          success := true;
        } else {
          ghost var failed := current;
          CheckHealth(up(2 * attempts + 1), timings(attempts), PROBE_TIMEOUT_MS);
          var moved := Failover();
          if u :| u in urls && u in up(2 * attempts + 1) {
            var i: nat :| i < |urls| && urls[i] == u;
            assert Healthy(i);
            assert moved && urls[current] in up(2 * attempts + 1);
            assert (forall s :: up(s) == up(0)) ==> i != failed;
          }
          attempts := attempts + 1;
        }
      }
    }
  }

  lemma WrapsAround(i: nat, n: nat)
    requires i < n
    ensures (i + n) % n == i
  {
  }
}
