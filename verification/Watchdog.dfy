/** The watchdog that restarts ordinal 0 for a single-node recovery (internal/server/server.go,
    watchSingleNodeRecovery). */
module Watchdog {
  import opened Basics

  // One tick: whether a leader is known, the clock, and the StatefulSet's replica count if it can be read.
  datatype Tick = Tick(leader: bool, now: Time, replicas: Option<int>)

  /** The first tick of the leaderless stretch that tick k belongs to. */
  function StretchStart(ticks: seq<Tick>, k: nat): (j: nat)
    requires k < |ticks| && !ticks[k].leader
    ensures j <= k && (forall m :: j <= m <= k ==> !ticks[m].leader) && (j > 0 ==> ticks[j - 1].leader)
  {
    if k == 0 || ticks[k - 1].leader then k else StretchStart(ticks, k - 1)
  }

  /** A restart is due at tick k: no leader was seen for the timeout, over at least two ticks, and the
      StatefulSet is scaled to one replica. */
  ghost predicate Due(ticks: seq<Tick>, timeout: int, k: nat)
    requires k < |ticks|
  {
    && !ticks[k].leader
    && StretchStart(ticks, k) < k
    && ticks[k].now - ticks[StretchStart(ticks, k)].now >= timeout
    && ticks[k].replicas == Some(1)
  }

  /** In terms of the ticks alone, for a clock that does not run backwards. */
  lemma DueIff(ticks: seq<Tick>, timeout: int, k: nat)
    requires k < |ticks| && forall i, j :: 0 <= i < j < |ticks| ==> ticks[i].now <= ticks[j].now
    ensures Due(ticks, timeout, k) <==>
              ticks[k].replicas == Some(1)
              && exists j :: 0 <= j < k && ticks[k].now - ticks[j].now >= timeout && AllLeaderless(ticks, j, k)
  {
    if Due(ticks, timeout, k) {
      assert AllLeaderless(ticks, StretchStart(ticks, k), k);
    }
    if j :| 0 <= j < k && ticks[k].now - ticks[j].now >= timeout && AllLeaderless(ticks, j, k) {
      assert !ticks[k].leader && StretchStart(ticks, k) <= j;
    }
  }

  ghost predicate AllLeaderless(ticks: seq<Tick>, j: int, k: int)
    requires 0 <= j <= k < |ticks|
  {
    forall m :: j <= m <= k ==> !ticks[m].leader
  }

  /** Restarts at the first tick where it is due, and only there. */
  method Watch(ticks: seq<Tick>, timeout: int) returns (restart: Option<nat>)
    requires forall i :: 0 <= i < |ticks| ==> ticks[i].now != ZERO_TIME
    ensures restart.Some? ==> restart.value < |ticks| && Due(ticks, timeout, restart.value)
                                && forall m :: 0 <= m < restart.value ==> !Due(ticks, timeout, m)
    ensures restart.None? ==> forall m :: 0 <= m < |ticks| ==> !Due(ticks, timeout, m)
  {
    var leaderlessSince := ZERO_TIME;
    for k := 0 to |ticks|
      invariant forall m :: 0 <= m < k ==> !Due(ticks, timeout, m)
      invariant leaderlessSince == ZERO_TIME <==> k == 0 || ticks[k - 1].leader
      invariant k > 0 && !ticks[k - 1].leader ==> leaderlessSince == ticks[StretchStart(ticks, k - 1)].now
    {
      var tick := ticks[k];
      if tick.leader {
        leaderlessSince := ZERO_TIME;
        continue;
      }
      if leaderlessSince == ZERO_TIME {
        leaderlessSince := tick.now;
        continue;
      }
      if tick.now - leaderlessSince < timeout {
        continue;
      }
      if tick.replicas != Some(1) {
        continue;
      }
      return Some(k);
    }
    return None;
  }

  /** A deployment that keeps more than one replica, or sees a leader in time, is never restarted. */
  lemma NeverDueIf(ticks: seq<Tick>, timeout: int, k: nat)
    requires k < |ticks| && forall i, j :: 0 <= i < j < |ticks| ==> ticks[i].now <= ticks[j].now
    requires ticks[k].replicas != Some(1)
          || exists m :: 0 <= m <= k && ticks[m].leader && ticks[k].now - ticks[m].now < timeout
    ensures !Due(ticks, timeout, k)
  {
    if ticks[k].replicas == Some(1) && !ticks[k].leader {
      var m :| 0 <= m <= k && ticks[m].leader && ticks[k].now - ticks[m].now < timeout;
      assert m < StretchStart(ticks, k);
    }
  }
}
