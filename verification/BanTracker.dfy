/** Bans after repeated credential failures (internal/service/ratelimit.go, BanTracker). */
module BanTrackers {
  import opened Basics

  datatype Failure = Failure(fingerprint: string, timestamp: Time)

  function LaterThan(start: Time): Failure -> bool { (f: Failure) => f.timestamp > start }
  function NotBefore(start: Time): Failure -> bool { (f: Failure) => f.timestamp >= start }

  function Recent(s: seq<Failure>, start: Time): seq<Failure> { Filter(s, LaterThan(start)) }

  /** At least n of the failures are later than `start`. */
  predicate AtLeast(s: seq<Failure>, start: Time, n: int) { |Recent(s, start)| >= n }

  type FailureTable = map<string, seq<Failure>>

  function At(t: FailureTable, ip: string): seq<Failure> {
    if ip in t then t[ip] else []
  }

  predicate Mentions(s: seq<Failure>, fingerprint: string) {
    exists i :: 0 <= i < |s| && s[i].fingerprint == fingerprint
  }

  function Fingerprints(s: seq<Failure>): set<string> {
    set i | 0 <= i < |s| :: s[i].fingerprint
  }

  // ---------------------------------------------------------------- single operations, as values

  /** The same fingerprint again within the window changes nothing. */
  function Recorded(s: seq<Failure>, fingerprint: string, window: int, now: Time): seq<Failure> {
    if Mentions(Recent(s, now - window), fingerprint) then s
    else Recent(s, now - window) + [Failure(fingerprint, now)]
  }

  function InWindow(s: seq<Failure>, window: int, now: Time): seq<Failure> {
    Filter(s, NotBefore(now - window))
  }

  predicate Suspicious(s: seq<Failure>, maxUnique: int, window: int, now: Time) {
    |Fingerprints(InWindow(s, window, now))| >= maxUnique
  }

  function SweptFailures(t: FailureTable, cutoff: Time): FailureTable {
    map ip | ip in t && Recent(t[ip], cutoff) != [] :: Recent(t[ip], cutoff)
  }

  function SweptBans(banned: map<string, Time>, now: Time): map<string, Time> {
    map ip | ip in banned && now < banned[ip] :: banned[ip]
  }

  datatype BanInfo = BanInfo(until: Time, uniqueFailures: nat)

  datatype Tracker = Tracker(failures: FailureTable, banned: map<string, Time>, lastSweep: Time)

  function SweepTracker(t: Tracker, window: int, now: Time): Tracker {
    Tracker(SweptFailures(t.failures, now - window), SweptBans(t.banned, now), t.lastSweep)
  }

  function MaybeSwept(t: Tracker, window: int, now: Time): Tracker {
    if t.lastSweep != ZERO_TIME && now - t.lastSweep < window then t
    else SweepTracker(t.(lastSweep := now), window, now)
  }

  // One credential failure with the configuration in force.
  datatype Attempt = Attempt(ip: string, fingerprint: string, maxUnique: int, duration: int, window: int, now: Time)

  /** The failures of the IP right before the ban decision. */
  function AfterRecording(t: Tracker, a: Attempt): seq<Failure> {
    Recorded(At(MaybeSwept(t, a.window, a.now).failures, a.ip), a.fingerprint, a.window, a.now)
  }

  predicate Bans(t: Tracker, a: Attempt) {
    Suspicious(AfterRecording(t, a), a.maxUnique, a.window, a.now)
  }

  function AfterAttempt(t: Tracker, a: Attempt): Tracker {
    var swept := MaybeSwept(t, a.window, a.now);
    Tracker(swept.failures[a.ip := InWindow(AfterRecording(t, a), a.window, a.now)],
            if Bans(t, a) then swept.banned[a.ip := a.now + a.duration] else swept.banned,
            swept.lastSweep)
  }

  predicate InForce(banned: map<string, Time>, ip: string, now: Time) {
    ip in banned && now < banned[ip]
  }

  // ---------------------------------------------------------------- the object

  class BanTracker {
    var failures: FailureTable
    var banned: map<string, Time>
    var lastSweep: Time

    constructor ()
      ensures State() == Tracker(map[], map[], ZERO_TIME)
    {
      failures, banned, lastSweep := map[], map[], ZERO_TIME;
    }

    ghost function State(): Tracker
      reads this
    {
      Tracker(failures, banned, lastSweep)
    }

    method RecordFailure(ip: string, fingerprint: string, window: int, now: Time)
      modifies this`failures
      ensures At(failures, ip) == Recorded(At(old(failures), ip), fingerprint, window, now)
      ensures failures == old(failures) || failures == old(failures)[ip := At(failures, ip)]
    {
      var entries := At(failures, ip);
      var start := now - window;
      for i := 0 to |entries|
        invariant failures == old(failures) && !Mentions(Recent(entries[..i], start), fingerprint)
      {
        FilterStep(entries, i, LaterThan(start));
        if entries[i].timestamp > start && entries[i].fingerprint == fingerprint {
          SeenInPrefix(entries, i, start, fingerprint);
          return;
        }
        if entries[i].timestamp > start {
          NotSeenSnoc(Recent(entries[..i], start), entries[i], fingerprint);
        }
      }
      assert entries[..|entries|] == entries;
      var valid := CompactInPlace(entries, LaterThan(start));
      failures := failures[ip := valid + [Failure(fingerprint, now)]];
    }

    method BanIfSuspicious(ip: string, maxUnique: int, duration: int, window: int, now: Time) returns (ban: bool)
      modifies this`failures, this`banned
      ensures ban == Suspicious(At(old(failures), ip), maxUnique, window, now)
      ensures failures == old(failures)[ip := InWindow(At(old(failures), ip), window, now)]
      ensures banned == if ban then old(banned)[ip := now + duration] else old(banned)
    {
      var entries := At(failures, ip);
      var valid := CompactInPlace(entries, NotBefore(now - window));
      var unique := CountUnique(valid);
      failures := failures[ip := valid];
      ban := unique >= maxUnique;
      if ban {
        banned := banned[ip := now + duration];
      }
    }

    method SweepAt(now: Time, window: int)
      modifies this`failures, this`banned
      ensures State() == SweepTracker(old(State()), window, now)
    {
      SweepFailures(now - window);
      SweepBans(now);
    }

    method SweepFailures(cutoff: Time)
      modifies this`failures
      ensures failures == SweptFailures(old(failures), cutoff)
    {
      var todo, swept := failures.Keys, map[];
      while todo != {}
        invariant todo <= failures.Keys && failures == old(failures)
        invariant forall ip :: ip in swept <==> ip in failures && ip !in todo && Recent(failures[ip], cutoff) != []
        invariant forall ip :: ip in swept ==> swept[ip] == Recent(failures[ip], cutoff)
        decreases todo
      {
        var ip :| ip in todo;
        todo := todo - {ip};
        var kept := CompactInPlace(failures[ip], LaterThan(cutoff));
        if |kept| != 0 {
          swept := swept[ip := kept];
        }
      }
      failures := swept;
    }

    method SweepBans(now: Time)
      modifies this`banned
      ensures banned == SweptBans(old(banned), now)
    {
      var todo, left := banned.Keys, banned;
      while todo != {}
        invariant todo <= banned.Keys && banned == old(banned)
        invariant forall ip :: ip in left <==> ip in banned && (ip in todo || now < banned[ip])
        invariant forall ip :: ip in left ==> left[ip] == banned[ip]
        decreases todo
      {
        var ip :| ip in todo;
        todo := todo - {ip};
        if !(now < banned[ip]) {
          left := left - {ip};
        }
      }
      banned := left;
    }

    method MaybeSweep(now: Time, window: int)
      modifies this
      ensures State() == MaybeSwept(old(State()), window, now)
    {
      if lastSweep != ZERO_TIME && now - lastSweep < window {
        return;
      }
      lastSweep := now;
      SweepAt(now, window);
    }

    method RecordAndBan(a: Attempt)
      modifies this
      ensures State() == AfterAttempt(old(State()), a)
    {
      MaybeSweep(a.now, a.window);
      ghost var swept := failures;
      RecordFailure(a.ip, a.fingerprint, a.window, a.now);
      ghost var basis := At(failures, a.ip);
      assert basis == AfterRecording(old(State()), a);
      var ban := BanIfSuspicious(a.ip, a.maxUnique, a.duration, a.window, a.now);
      assert failures == swept[a.ip := InWindow(basis, a.window, a.now)];
    }

    /** Deletes an expired ban on the way. */
    method IsBanned(ip: string, now: Time) returns (yes: bool)
      modifies this`banned
      ensures yes == InForce(old(banned), ip, now)
      ensures banned == if ip in old(banned) && !yes then old(banned) - {ip} else old(banned)
    {
      if ip !in banned {
        return false;
      }
      if now < banned[ip] {
        return true;
      }
      banned := banned - {ip};
      return false;
    }

    /** Lists the bans in force, each with its number of distinct fingerprints stored, and deletes the expired
        ones. */
    method ListBans(now: Time) returns (listed: map<string, BanInfo>)
      modifies this`banned
      ensures banned == SweptBans(old(banned), now)
      ensures listed.Keys == banned.Keys
      ensures forall ip :: ip in listed ==> listed[ip] == BanInfo(banned[ip], |Fingerprints(At(failures, ip))|)
    {
      var todo, left := banned.Keys, banned;
      listed := map[];
      while todo != {}
        invariant todo <= banned.Keys && banned == old(banned)
        invariant forall ip :: ip in left <==> ip in banned && (ip in todo || now < banned[ip])
        invariant forall ip :: ip in left ==> left[ip] == banned[ip]
        invariant forall ip :: ip in listed <==> ip in banned && ip !in todo && now < banned[ip]
        invariant forall ip :: ip in listed ==> listed[ip] == BanInfo(banned[ip], |Fingerprints(At(failures, ip))|)
        decreases todo
      {
        var ip :| ip in todo;
        todo := todo - {ip};
        if now < banned[ip] {
          var n := CountUnique(At(failures, ip));
          listed := listed[ip := BanInfo(banned[ip], n)];
        } else {
          left := left - {ip};
        }
      }
      banned := left;
    }

    method CountUnique(entries: seq<Failure>) returns (n: nat)
      ensures n == |Fingerprints(entries)|
    {
      var fingerprints: set<string> := {};
      for i := 0 to |entries|
        invariant fingerprints == set j | 0 <= j < i :: entries[j].fingerprint
      {
        fingerprints := fingerprints + {entries[i].fingerprint};
      }
      n := |fingerprints|;
    }

    method Unban(ip: string)
      modifies this`banned
      ensures banned == old(banned) - {ip}
    {
      banned := banned - {ip};
    }
  }

  lemma NotSeenSnoc(s: seq<Failure>, f: Failure, fingerprint: string)
    requires !Mentions(s, fingerprint) && f.fingerprint != fingerprint
    ensures !Mentions(s + [f], fingerprint)
  {
  }

  lemma SeenInPrefix(s: seq<Failure>, i: nat, start: Time, fingerprint: string)
    requires i < |s| && s[i].timestamp > start && s[i].fingerprint == fingerprint
    ensures Mentions(Recent(s, start), fingerprint)
  {
    FilterMembers(s, LaterThan(start));
    assert s[i] in Recent(s, start);
  }

  // ---------------------------------------------------------------- whole runs

  datatype Event =
    | Fail(attempt: Attempt)
    | Query(ip: string, now: Time)   // IsBanned
    | List(now: Time)                // ListBans
    | Sweep(window: int, now: Time)
    | Unban(ip: string)

  function Next(t: Tracker, e: Event): Tracker {
    match e
    case Fail(a) => AfterAttempt(t, a)
    case Query(ip, now) => if InForce(t.banned, ip, now) then t else t.(banned := t.banned - {ip})
    case List(now) => t.(banned := SweptBans(t.banned, now))
    case Sweep(window, now) => SweepTracker(t.(lastSweep := now), window, now)
    case Unban(ip) => t.(banned := t.banned - {ip})
  }

  function Run(events: seq<Event>): Tracker {
    if events == [] then EMPTY_TRACKER else Next(Run(events[..|events| - 1]), events[|events| - 1])
  }

  function ClockOf(e: Event, otherwise: Time): Time {
    match e
    case Fail(a) => a.now
    case Query(_, now) => now
    case List(now) => now
    case Sweep(_, now) => now
    case Unban(_) => otherwise
  }

  /** The clock never runs backwards; it stands at `clock` after the events. */
  predicate Monotone(events: seq<Event>, clock: Time) {
    if events == [] then true
    else
      var at := ClockOf(events[|events| - 1], clock);
      at <= clock && Monotone(events[..|events| - 1], at)
  }

  // ---------------------------------------------------------------- what is stored about an IP

  ghost predicate DistinctFingerprints(s: seq<Failure>) {
    forall i, j :: 0 <= i < j < |s| ==> s[i].fingerprint != s[j].fingerprint
  }

  ghost predicate InTimeOrder(s: seq<Failure>, clock: Time) {
    && (forall i :: 0 <= i < |s| ==> s[i].timestamp <= clock)
    && (forall i, j :: 0 <= i < j < |s| ==> s[i].timestamp <= s[j].timestamp)
  }

  ghost predicate Tidy(s: seq<Failure>, clock: Time) {
    DistinctFingerprints(s) && InTimeOrder(s, clock)
  }

  /** All failures the IP really had, in order. */
  function RealFailures(events: seq<Event>, ip: string): seq<Failure> {
    if events == [] then []
    else
      var earlier := RealFailures(events[..|events| - 1], ip);
      RealNext(earlier, events[|events| - 1], ip)
  }

  ghost predicate AllIn(s: seq<Failure>, actual: seq<Failure>) {
    forall i :: 0 <= i < |s| ==> s[i] in actual
  }

  lemma {:induction false} FilterKeepsTidy(s: seq<Failure>, keep: Failure -> bool, clock: Time)
    requires Tidy(s, clock)
    ensures Tidy(Filter(s, keep), clock)
  {
    if s != [] {
      var front, last := s[..|s| - 1], s[|s| - 1];
      FilterKeepsTidy(front, keep, clock);
      FilterMembers(front, keep);
      if keep(last) {
        SnocKeepsTidy(Filter(front, keep), last, clock);
      }
    }
  }

  lemma SnocKeepsTidy(s: seq<Failure>, f: Failure, clock: Time)
    requires Tidy(s, clock) && f.timestamp <= clock
    requires forall x :: x in s ==> x.timestamp <= f.timestamp && x.fingerprint != f.fingerprint
    ensures Tidy(s + [f], clock)
  {
    assert forall i :: 0 <= i < |s| ==> s[i] in s;
  }

  ghost predicate Good(s: seq<Failure>, actual: seq<Failure>, clock: Time) {
    Tidy(s, clock) && AllIn(s, actual)
  }

  lemma FilterKeepsGood(s: seq<Failure>, keep: Failure -> bool, actual: seq<Failure>, clock: Time)
    requires Good(s, actual, clock)
    ensures Good(Filter(s, keep), actual, clock)
  {
    FilterKeepsTidy(s, keep, clock);
    FilterMembers(s, keep);
    forall i | 0 <= i < |Filter(s, keep)| ensures Filter(s, keep)[i] in actual {
      var x := Filter(s, keep)[i];
      assert x in Filter(s, keep);
      var j :| 0 <= j < |s| && s[j] == x;
    }
  }

  lemma RecordedKeepsGood(s: seq<Failure>, fingerprint: string, window: int, actual: seq<Failure>, now: Time)
    requires Good(s, actual, now)
    ensures Good(Recorded(s, fingerprint, window, now), actual + [Failure(fingerprint, now)], now)
  {
    var kept := Recent(s, now - window);
    FilterKeepsGood(s, LaterThan(now - window), actual, now);
    assert forall x :: x in actual ==> x in actual + [Failure(fingerprint, now)];
    if !Mentions(kept, fingerprint) {
      assert forall i :: 0 <= i < |kept| ==> kept[i].fingerprint != fingerprint;
    }
  }

  function RealNext(actual: seq<Failure>, e: Event, ip: string): seq<Failure> {
    if e.Fail? && e.attempt.ip == ip then actual + [Failure(e.attempt.fingerprint, e.attempt.now)] else actual
  }

  /** A sweep may or may not have come first. */
  ghost predicate MaybeCut(s: seq<Failure>, left: seq<Failure>, cutoff: Time) {
    left == s || left == Recent(s, cutoff)
  }

  /** How one event changes what is stored about an IP; `left` is what a sweep on the way leaves. */
  ghost predicate Evolves(s: seq<Failure>, left: seq<Failure>, s': seq<Failure>, e: Event, ip: string) {
    match e
    case Fail(a) =>
      && MaybeCut(s, left, a.now - a.window)
      && s' == if a.ip == ip then AfterOwn(left, a) else left
    case Sweep(window, now) => s' == Recent(s, now - window)
    case _ => s' == s
  }

  function AfterOwn(left: seq<Failure>, a: Attempt): seq<Failure> {
    InWindow(Recorded(left, a.fingerprint, a.window, a.now), a.window, a.now)
  }

  lemma SweptAt(t: FailureTable, cutoff: Time, ip: string)
    ensures At(SweptFailures(t, cutoff), ip) == Recent(At(t, ip), cutoff)
  {
  }

  lemma MaybeSweptAt(t: Tracker, window: int, now: Time, ip: string)
    ensures MaybeCut(At(t.failures, ip), At(MaybeSwept(t, window, now).failures, ip), now - window)
  {
    SweptAt(t.failures, now - window, ip);
  }

  lemma AttemptAt(t: Tracker, a: Attempt, ip: string)
    ensures At(AfterAttempt(t, a).failures, ip)
         == (var left := At(MaybeSwept(t, a.window, a.now).failures, ip); if a.ip == ip then AfterOwn(left, a) else left)
  {
  }

  lemma NextEvolves(t: Tracker, e: Event, ip: string) returns (left: seq<Failure>)
    ensures Evolves(At(t.failures, ip), left, At(Next(t, e).failures, ip), e, ip)
  {
    left := [];
    match e
    case Fail(a) =>
      MaybeSweptAt(t, a.window, a.now, ip);
      left := At(MaybeSwept(t, a.window, a.now).failures, ip);
      AttemptAt(t, a, ip);
    case Sweep(window, now) => SweptAt(t.failures, now - window, ip);
    case _ =>
  }

  lemma OwnKeepsGood(left: seq<Failure>, a: Attempt, actual: seq<Failure>)
    requires Good(left, actual, a.now)
    ensures Good(Recorded(left, a.fingerprint, a.window, a.now), actual + [Failure(a.fingerprint, a.now)], a.now)
    ensures Good(AfterOwn(left, a), actual + [Failure(a.fingerprint, a.now)], a.now)
  {
    RecordedKeepsGood(left, a.fingerprint, a.window, actual, a.now);
    FilterKeepsGood(Recorded(left, a.fingerprint, a.window, a.now), NotBefore(a.now - a.window),
                    actual + [Failure(a.fingerprint, a.now)], a.now);
  }

  lemma CutKeepsGood(s: seq<Failure>, left: seq<Failure>, cutoff: Time, actual: seq<Failure>, clock: Time)
    requires MaybeCut(s, left, cutoff) && Good(s, actual, clock)
    ensures Good(left, actual, clock)
  {
    FilterKeepsGood(s, LaterThan(cutoff), actual, clock);
  }

  lemma EvolvingKeepsGood(s: seq<Failure>, left: seq<Failure>, s': seq<Failure>, e: Event, ip: string,
                          actual: seq<Failure>, clock: Time)
    requires Evolves(s, left, s', e, ip) && Good(s, actual, clock) && clock == ClockOf(e, clock)
    ensures Good(s', RealNext(actual, e, ip), clock)
  {
    match e {
      case Fail(a) =>
        CutKeepsGood(s, left, a.now - a.window, actual, clock);
        if a.ip == ip {
          OwnKeepsGood(left, a, actual);
        }
      case Sweep(window, now) => CutKeepsGood(s, s', now - window, actual, clock);
      case _ =>
    }
  }

  /** In every state the stored fingerprints of an IP are pairwise distinct and in time order, and each
      belongs to a real failure of that IP. */
  lemma {:induction false} RunKeepsStored(events: seq<Event>, ip: string, clock: Time)
    requires Monotone(events, clock)
    ensures Good(At(Run(events).failures, ip), RealFailures(events, ip), clock)
  {
    if events != [] {
      var front, last := events[..|events| - 1], events[|events| - 1];
      var at := ClockOf(last, clock);
      RunKeepsStored(front, ip, at);
      var left := NextEvolves(Run(front), last, ip);
      EvolvingKeepsGood(At(Run(front).failures, ip), left, At(Run(events).failures, ip), last, ip, RealFailures(front, ip), at);
    }
  }

  /** The failures that a ban is decided on are the stored ones, perhaps swept, and the new one. */
  lemma DecisionBasis(t: Tracker, a: Attempt) returns (left: seq<Failure>)
    ensures MaybeCut(At(t.failures, a.ip), left, a.now - a.window)
    ensures AfterRecording(t, a) == Recorded(left, a.fingerprint, a.window, a.now)
    ensures Bans(t, a) == Suspicious(Recorded(left, a.fingerprint, a.window, a.now), a.maxUnique, a.window, a.now)
  {
    MaybeSweptAt(t, a.window, a.now, a.ip);
    left := At(MaybeSwept(t, a.window, a.now).failures, a.ip);
  }

  lemma WindowWitnesses(s: seq<Failure>, actual: seq<Failure>, window: int, now: Time)
    requires Good(s, actual, now)
    ensures var w := InWindow(s, window, now);
            && DistinctFingerprints(w) && AllIn(w, actual) && |w| == |Fingerprints(w)|
            && forall i :: 0 <= i < |w| ==> now - window <= w[i].timestamp <= now
  {
    var w := InWindow(s, window, now);
    FilterKeepsGood(s, NotBefore(now - window), actual, now);
    FilterMembers(s, NotBefore(now - window));
    forall i | 0 <= i < |w| ensures now - window <= w[i].timestamp <= now {
      assert w[i] in w;
    }
    CountFingerprints(w);
  }

  /** maxUnique distinct fingerprints with real failures of the IP in [now - window, now]. */
  ghost predicate Justifies(witnesses: seq<Failure>, a: Attempt, actual: seq<Failure>) {
    && DistinctFingerprints(witnesses) && |witnesses| >= a.maxUnique
    && AllIn(witnesses, actual)
    && forall i :: 0 <= i < |witnesses| ==> a.now - a.window <= witnesses[i].timestamp <= a.now
  }

  lemma BasisJustifies(s: seq<Failure>, left: seq<Failure>, a: Attempt, actual: seq<Failure>)
    requires MaybeCut(s, left, a.now - a.window) && Good(s, actual, a.now)
    requires Suspicious(Recorded(left, a.fingerprint, a.window, a.now), a.maxUnique, a.window, a.now)
    ensures Justifies(AfterOwn(left, a), a, actual + [Failure(a.fingerprint, a.now)])
  {
    CutKeepsGood(s, left, a.now - a.window, actual, a.now);
    OwnKeepsGood(left, a, actual);
    SuspiciousJustifies(Recorded(left, a.fingerprint, a.window, a.now), a, actual + [Failure(a.fingerprint, a.now)]);
  }

  lemma SuspiciousJustifies(s: seq<Failure>, a: Attempt, actual: seq<Failure>)
    requires Good(s, actual, a.now) && Suspicious(s, a.maxUnique, a.window, a.now)
    ensures Justifies(InWindow(s, a.window, a.now), a, actual)
  {
    WindowWitnesses(s, actual, a.window, a.now);
  }

  /** A ban at time now means at least maxUnique distinct fingerprints with real failures of that IP in
      [now - window, now]. */
  lemma BanIsJustified(events: seq<Event>, a: Attempt) returns (witnesses: seq<Failure>)
    requires Monotone(events, a.now) && Bans(Run(events), a)
    ensures Justifies(witnesses, a, RealFailures(events, a.ip) + [Failure(a.fingerprint, a.now)])
  {
    RunKeepsStored(events, a.ip, a.now);
    var left := DecisionBasis(Run(events), a);
    BasisJustifies(At(Run(events).failures, a.ip), left, a, RealFailures(events, a.ip));
    witnesses := AfterOwn(left, a);
  }

  lemma {:induction false} CountFingerprints(s: seq<Failure>)
    ensures |Fingerprints(s)| <= |s|
    ensures DistinctFingerprints(s) ==> |Fingerprints(s)| == |s|
  {
    if s == [] {
      assert Fingerprints(s) == {};
    } else {
      var front, last := s[..|s| - 1], s[|s| - 1];
      CountFingerprints(front);
      assert Fingerprints(s) == Fingerprints(front) + {last.fingerprint};
      if DistinctFingerprints(s) {
        assert last.fingerprint !in Fingerprints(front);
      }
    }
  }

  // ---------------------------------------------------------------- bans

  /** The expiry that the latest ban since the last Unban set. */
  function LatestBan(events: seq<Event>, ip: string): Option<Time> {
    if events == [] then None
    else
      var front := events[..|events| - 1];
      LatestNext(LatestBan(front, ip), Run(front), events[|events| - 1], ip)
  }

  function LatestNext(latest: Option<Time>, t: Tracker, e: Event, ip: string): Option<Time> {
    match e
    case Fail(a) => if a.ip == ip && Bans(t, a) then Some(a.now + a.duration) else latest
    case Unban(i) => if i == ip then None else latest
    case _ => latest
  }

  /** What is stored of an unexpired ban is exact; an expired one may be stored or not. */
  ghost predicate BanStored(banned: map<string, Time>, ip: string, latest: Option<Time>, clock: Time) {
    && (ip in banned ==> latest == Some(banned[ip]))
    && (latest.Some? && clock < latest.value ==> ip in banned)
  }

  lemma {:induction false} RunKeepsBans(events: seq<Event>, ip: string, clock: Time)
    requires Monotone(events, clock)
    ensures BanStored(Run(events).banned, ip, LatestBan(events, ip), clock)
  {
    if events != [] {
      RunKeepsBans(events[..|events| - 1], ip, ClockOf(events[|events| - 1], clock));
    }
  }

  /** Lazy deletion and sweeping of bans cannot be observed: an IP is banned exactly while the latest ban
      since the last Unban has not expired. */
  lemma BannedIffLatestInForce(events: seq<Event>, ip: string, now: Time)
    requires Monotone(events, now)
    ensures InForce(Run(events).banned, ip, now)
       <==> LatestBan(events, ip).Some? && now < LatestBan(events, ip).value
  {
    RunKeepsBans(events, ip, now);
  }

  /** A ban holds until it expires, unless the IP is unbanned or a later ban of it ends sooner. */
  lemma BanHolds(before: seq<Event>, a: Attempt, after: seq<Event>, now: Time)
    requires Bans(Run(before), a) && Monotone(before + [Fail(a)] + after, now)
    requires KeepsBan(after, a)
    requires now < a.now + a.duration
    ensures InForce(Run(before + [Fail(a)] + after).banned, a.ip, now)
  {
    LatestBanStep(before, Fail(a), a.ip);
    LatestBanOutlasts(before + [Fail(a)], a, after);
    BannedIffLatestInForce(before + [Fail(a)] + after, a.ip, now);
  }

  /** No Unban of the IP, and no failure of it whose ban would end sooner. */
  predicate KeepsBan(after: seq<Event>, a: Attempt) {
    after == [] || (KeepsBan(after[..|after| - 1], a) && EventKeepsBan(after[|after| - 1], a))
  }

  predicate EventKeepsBan(e: Event, a: Attempt) {
    e != Unban(a.ip) && (e.Fail? && e.attempt.ip == a.ip ==> EndsNoSooner(e.attempt, a))
  }

  predicate EndsNoSooner(later: Attempt, a: Attempt) {
    later.now + later.duration >= a.now + a.duration
  }

  lemma LatestBanStep(events: seq<Event>, e: Event, ip: string)
    ensures LatestBan(events + [e], ip) == LatestNext(LatestBan(events, ip), Run(events), e, ip)
  {
    assert (events + [e])[..|events|] == events;
  }

  lemma {:induction false} LatestBanOutlasts(events: seq<Event>, a: Attempt, after: seq<Event>)
    requires LatestBan(events, a.ip).Some? && LatestBan(events, a.ip).value >= a.now + a.duration
    requires KeepsBan(after, a)
    ensures var latest := LatestBan(events + after, a.ip); latest.Some? && latest.value >= a.now + a.duration
  {
    if after == [] {
      assert events + after == events;
    } else {
      var front, last := after[..|after| - 1], after[|after| - 1];
      assert events + after == (events + front) + [last];
      LatestBanOutlasts(events, a, front);
      LatestBanStep(events + front, last, a.ip);
      BanOutlastsEvent(LatestBan(events + front, a.ip), Run(events + front), last, a);
    }
  }

  lemma BanOutlastsEvent(latest: Option<Time>, t: Tracker, e: Event, a: Attempt)
    requires latest.Some? && latest.value >= a.now + a.duration && EventKeepsBan(e, a)
    ensures LatestNext(latest, t, e, a.ip).Some? && LatestNext(latest, t, e, a.ip).value >= a.now + a.duration
  {
  }

  // ---------------------------------------------------------------- which failures count

  /** The failures that count: one counts unless its fingerprint already has a counted failure within the
      window before it. Repeats do not refresh the time. */
  function Counted(events: seq<Event>, ip: string): seq<Failure> {
    if events == [] then [] else CountedNext(Counted(events[..|events| - 1], ip), events[|events| - 1], ip)
  }

  function CountNext(earlier: seq<Failure>, fingerprint: string, window: int, now: Time): seq<Failure> {
    if Mentions(Recent(earlier, now - window), fingerprint) then earlier else earlier + [Failure(fingerprint, now)]
  }

  predicate HasWindow(e: Event, window: int) {
    (e.Fail? ==> e.attempt.window == window) && (e.Sweep? ==> e.window == window)
  }

  predicate FixedWindow(events: seq<Event>, window: int) {
    forall i :: 0 <= i < |events| ==> HasWindow(events[i], window)
  }

  /** Everything counted that can still matter is stored. */
  ghost predicate Covers(s: seq<Failure>, counted: seq<Failure>, from: Time) {
    forall start :: start >= from ==> SameSince(s, counted, start)
  }

  ghost predicate SameSince(s: seq<Failure>, counted: seq<Failure>, start: Time) {
    Recent(s, start) == Recent(counted, start)
  }

  lemma WeakFilterKeepsCover(s: seq<Failure>, counted: seq<Failure>, from: Time, weak: Failure -> bool)
    requires Covers(s, counted, from) && forall f :: LaterThan(from)(f) ==> weak(f)
    ensures Covers(Filter(s, weak), counted, from)
  {
    forall start | start >= from ensures SameSince(Filter(s, weak), counted, start) {
      assert SameSince(s, counted, start);
      FilterTwice(s, weak, LaterThan(start));
    }
  }

  lemma RecentSnoc(s: seq<Failure>, f: Failure, start: Time)
    ensures Recent(s + [f], start) == Recent(s, start) + (if f.timestamp > start then [f] else [])
  {
    assert (s + [f])[..|s|] == s;
  }

  lemma SnocKeepsCover(s: seq<Failure>, counted: seq<Failure>, from: Time, f: Failure)
    requires Covers(s, counted, from)
    ensures Covers(s + [f], counted + [f], from)
  {
    forall start | start >= from ensures SameSince(s + [f], counted + [f], start) {
      assert SameSince(s, counted, start);
      RecentSnoc(s, f, start);
      RecentSnoc(counted, f, start);
    }
  }

  lemma OwnKeepsCover(left: seq<Failure>, a: Attempt, counted: seq<Failure>)
    requires Covers(left, counted, a.now - a.window)
    ensures var counted' := CountNext(counted, a.fingerprint, a.window, a.now);
            && Covers(Recorded(left, a.fingerprint, a.window, a.now), counted', a.now - a.window)
            && Covers(AfterOwn(left, a), counted', a.now - a.window)
  {
    var cutoff := a.now - a.window;
    assert SameSince(left, counted, cutoff);
    if !Mentions(Recent(left, cutoff), a.fingerprint) {
      WeakFilterKeepsCover(left, counted, cutoff, LaterThan(cutoff));
      SnocKeepsCover(Recent(left, cutoff), counted, cutoff, Failure(a.fingerprint, a.now));
    }
    WeakFilterKeepsCover(Recorded(left, a.fingerprint, a.window, a.now),
                         CountNext(counted, a.fingerprint, a.window, a.now), cutoff, NotBefore(cutoff));
  }

  lemma CutKeepsCover(s: seq<Failure>, left: seq<Failure>, cutoff: Time, counted: seq<Failure>)
    requires MaybeCut(s, left, cutoff) && Covers(s, counted, cutoff)
    ensures Covers(left, counted, cutoff)
  {
    WeakFilterKeepsCover(s, counted, cutoff, LaterThan(cutoff));
  }

  function CountedNext(counted: seq<Failure>, e: Event, ip: string): seq<Failure> {
    if e.Fail? && e.attempt.ip == ip
    then CountNext(counted, e.attempt.fingerprint, e.attempt.window, e.attempt.now) else counted
  }

  lemma EvolvingKeepsCover(s: seq<Failure>, left: seq<Failure>, s': seq<Failure>, e: Event, ip: string,
                           counted: seq<Failure>, window: int, clock: Time)
    requires Evolves(s, left, s', e, ip) && Covers(s, counted, clock - window) && clock == ClockOf(e, clock)
    requires HasWindow(e, window)
    ensures Covers(s', CountedNext(counted, e, ip), clock - window)
  {
    match e {
      case Fail(a) =>
        CutKeepsCover(s, left, clock - window, counted);
        if a.ip == ip {
          OwnKeepsCover(left, a, counted);
        }
      case Sweep(w, now) => CutKeepsCover(s, s', clock - window, counted);
      case _ =>
    }
  }

  lemma {:induction false} RunKeepsCover(events: seq<Event>, ip: string, window: int, clock: Time)
    requires Monotone(events, clock) && FixedWindow(events, window)
    ensures Covers(At(Run(events).failures, ip), Counted(events, ip), clock - window)
  {
    if events != [] {
      var front, last := events[..|events| - 1], events[|events| - 1];
      var at := ClockOf(last, clock);
      RunKeepsCover(front, ip, window, at);
      var left := NextEvolves(Run(front), last, ip);
      EvolvingKeepsCover(At(Run(front).failures, ip), left, At(Run(events).failures, ip), last, ip, Counted(front, ip), window, at);
    }
  }

  lemma CoveredAreSuspicious(s: seq<Failure>, counted: seq<Failure>, maxUnique: int, window: int, now: Time)
    requires Tidy(s, now) && Covers(s, counted, now - window)
    requires AtLeast(counted, now - window, maxUnique)
    ensures Suspicious(s, maxUnique, window, now)
  {
    var cutoff := now - window;
    assert SameSince(s, counted, cutoff);
    FilterTwice(s, NotBefore(cutoff), LaterThan(cutoff));
    FilterKeepsTidy(s, NotBefore(cutoff), now);
    CountFingerprints(InWindow(s, window, now));
  }

  lemma BasisIsSuspicious(s: seq<Failure>, left: seq<Failure>, a: Attempt, actual: seq<Failure>, counted: seq<Failure>)
    requires MaybeCut(s, left, a.now - a.window) && Good(s, actual, a.now) && Covers(s, counted, a.now - a.window)
    requires AtLeast(CountNext(counted, a.fingerprint, a.window, a.now), a.now - a.window, a.maxUnique)
    ensures Suspicious(Recorded(left, a.fingerprint, a.window, a.now), a.maxUnique, a.window, a.now)
  {
    CutKeepsCover(s, left, a.now - a.window, counted);
    OwnKeepsCover(left, a, counted);
    CutKeepsGood(s, left, a.now - a.window, actual, a.now);
    OwnKeepsGood(left, a, actual);
    CoveredAreSuspicious(Recorded(left, a.fingerprint, a.window, a.now),
                         CountNext(counted, a.fingerprint, a.window, a.now), a.maxUnique, a.window, a.now);
  }

  /** The counted failures up to and including the attempt itself. */
  function CountedWith(events: seq<Event>, a: Attempt): seq<Failure> {
    CountNext(Counted(events, a.ip), a.fingerprint, a.window, a.now)
  }

  /** Completeness: as soon as maxUnique counted failures lie in (now - window, now], the IP is banned. */
  lemma CountedFailuresBan(events: seq<Event>, a: Attempt)
    requires Monotone(events, a.now) && FixedWindow(events, a.window)
    requires AtLeast(CountedWith(events, a), a.now - a.window, a.maxUnique)
    ensures Bans(Run(events), a)
  {
    RunKeepsCover(events, a.ip, a.window, a.now);
    RunKeepsStored(events, a.ip, a.now);
    var left := DecisionBasis(Run(events), a);
    BasisIsSuspicious(At(Run(events).failures, a.ip), left, a, RealFailures(events, a.ip), Counted(events, a.ip));
  }

  // ---------------------------------------------------------------- and no other

  /** Nothing is stored that does not count. */
  ghost predicate NoMore(s: seq<Failure>, counted: seq<Failure>) {
    forall start :: FewerSince(s, counted, start)
  }

  ghost predicate FewerSince(s: seq<Failure>, counted: seq<Failure>, start: Time) {
    |Recent(s, start)| <= |Recent(counted, start)|
  }

  lemma FilterKeepsNoMore(s: seq<Failure>, counted: seq<Failure>, keep: Failure -> bool)
    requires NoMore(s, counted)
    ensures NoMore(Filter(s, keep), counted)
  {
    forall start ensures FewerSince(Filter(s, keep), counted, start) {
      assert FewerSince(s, counted, start);
      FilterCommutes(s, keep, LaterThan(start));
    }
  }

  lemma CutKeepsNoMore(s: seq<Failure>, left: seq<Failure>, cutoff: Time, counted: seq<Failure>)
    requires MaybeCut(s, left, cutoff) && NoMore(s, counted)
    ensures NoMore(left, counted)
  {
    FilterKeepsNoMore(s, counted, LaterThan(cutoff));
  }

  lemma SnocKeepsNoMore(s: seq<Failure>, counted: seq<Failure>, f: Failure)
    requires NoMore(s, counted)
    ensures NoMore(s + [f], counted + [f])
  {
    forall start ensures FewerSince(s + [f], counted + [f], start) {
      assert FewerSince(s, counted, start);
      RecentSnoc(s, f, start);
      RecentSnoc(counted, f, start);
    }
  }

  lemma RecordedKeepsNoMore(left: seq<Failure>, a: Attempt, counted: seq<Failure>)
    requires NoMore(left, counted) && SameSince(left, counted, a.now - a.window)
    ensures NoMore(Recorded(left, a.fingerprint, a.window, a.now), CountNext(counted, a.fingerprint, a.window, a.now))
  {
    var cutoff := a.now - a.window;
    var seen := Mentions(Recent(left, cutoff), a.fingerprint);
    assert seen == Mentions(Recent(counted, cutoff), a.fingerprint);
    CutAndAdd(left, counted, cutoff, Failure(a.fingerprint, a.now));
    if seen {
      assert Recorded(left, a.fingerprint, a.window, a.now) == left;
    } else {
      assert Recorded(left, a.fingerprint, a.window, a.now) == Recent(left, cutoff) + [Failure(a.fingerprint, a.now)];
    }
  }

  lemma CutAndAdd(left: seq<Failure>, counted: seq<Failure>, cutoff: Time, f: Failure)
    requires NoMore(left, counted)
    ensures NoMore(Recent(left, cutoff) + [f], counted + [f])
  {
    FilterKeepsNoMore(left, counted, LaterThan(cutoff));
    SnocKeepsNoMore(Recent(left, cutoff), counted, f);
  }

  lemma OwnKeepsNoMore(left: seq<Failure>, a: Attempt, counted: seq<Failure>)
    requires NoMore(left, counted) && SameSince(left, counted, a.now - a.window)
    ensures NoMore(AfterOwn(left, a), CountNext(counted, a.fingerprint, a.window, a.now))
  {
    RecordedKeepsNoMore(left, a, counted);
    FilterKeepsNoMore(Recorded(left, a.fingerprint, a.window, a.now),
                      CountNext(counted, a.fingerprint, a.window, a.now), NotBefore(a.now - a.window));
  }

  lemma EvolvingKeepsNoMore(s: seq<Failure>, left: seq<Failure>, s': seq<Failure>, e: Event, ip: string,
                            counted: seq<Failure>, window: int, clock: Time)
    requires Evolves(s, left, s', e, ip) && Covers(s, counted, clock - window) && clock == ClockOf(e, clock)
    requires HasWindow(e, window) && NoMore(s, counted)
    ensures NoMore(s', CountedNext(counted, e, ip))
  {
    match e {
      case Fail(a) =>
        CutIsSame(s, left, clock - window, counted);
        if a.ip == ip {
          OwnKeepsNoMore(left, a, counted);
        }
      case Sweep(w, now) => CutKeepsNoMore(s, s', clock - window, counted);
      case _ =>
    }
  }

  lemma {:induction false} RunKeepsNoMore(events: seq<Event>, ip: string, window: int, clock: Time)
    requires Monotone(events, clock) && FixedWindow(events, window)
    ensures NoMore(At(Run(events).failures, ip), Counted(events, ip))
  {
    if events != [] {
      var front, last := events[..|events| - 1], events[|events| - 1];
      var at := ClockOf(last, clock);
      RunKeepsNoMore(front, ip, window, at);
      RunKeepsCover(front, ip, window, at);
      var left := NextEvolves(Run(front), last, ip);
      EvolvingKeepsNoMore(At(Run(front).failures, ip), left, At(Run(events).failures, ip), last, ip, Counted(front, ip), window, at);
    }
  }

  lemma SuspiciousAreCounted(s: seq<Failure>, counted: seq<Failure>, maxUnique: int, window: int, now: Time)
    requires NoMore(s, counted) && Suspicious(s, maxUnique, window, now)
    ensures AtLeast(counted, now - window - 1, maxUnique)
  {
    var cutoff := now - window;
    CountFingerprints(InWindow(s, window, now));
    FilterTwice(s, LaterThan(cutoff - 1), NotBefore(cutoff));
    assert FewerSince(s, counted, cutoff - 1);
  }

  /** The converse: a ban has at least maxUnique counted failures in [now - window, now]. */
  lemma BanNeedsCountedFailures(events: seq<Event>, a: Attempt)
    requires Monotone(events, a.now) && FixedWindow(events, a.window) && Bans(Run(events), a)
    ensures AtLeast(CountedWith(events, a), a.now - a.window - 1, a.maxUnique)
  {
    RunKeepsCover(events, a.ip, a.window, a.now);
    RunKeepsNoMore(events, a.ip, a.window, a.now);
    var t, counted := Run(events), Counted(events, a.ip);
    BasisNeedsCounted(t, a, counted);
  }

  lemma BasisIsCounted(left: seq<Failure>, a: Attempt, counted: seq<Failure>)
    requires SameSince(left, counted, a.now - a.window) && NoMore(left, counted)
    requires Suspicious(Recorded(left, a.fingerprint, a.window, a.now), a.maxUnique, a.window, a.now)
    ensures AtLeast(CountNext(counted, a.fingerprint, a.window, a.now), a.now - a.window - 1, a.maxUnique)
  {
    RecordedKeepsNoMore(left, a, counted);
    SuspiciousAreCounted(Recorded(left, a.fingerprint, a.window, a.now),
                         CountNext(counted, a.fingerprint, a.window, a.now), a.maxUnique, a.window, a.now);
  }

  lemma BasisNeedsCounted(t: Tracker, a: Attempt, counted: seq<Failure>)
    requires Bans(t, a)
    requires Covers(At(t.failures, a.ip), counted, a.now - a.window) && NoMore(At(t.failures, a.ip), counted)
    ensures AtLeast(CountNext(counted, a.fingerprint, a.window, a.now), a.now - a.window - 1, a.maxUnique)
  {
    var left := DecisionBasis(t, a);
    CutIsSame(At(t.failures, a.ip), left, a.now - a.window, counted);
    BasisIsCounted(left, a, counted);
  }

  lemma CutIsSame(s: seq<Failure>, left: seq<Failure>, cutoff: Time, counted: seq<Failure>)
    requires MaybeCut(s, left, cutoff) && Covers(s, counted, cutoff) && NoMore(s, counted)
    ensures SameSince(left, counted, cutoff) && NoMore(left, counted)
  {
    CutKeepsCover(s, left, cutoff, counted);
    CutKeepsNoMore(s, left, cutoff, counted);
  }

  function SameTime(t: Time): Failure -> bool { (f: Failure) => f.timestamp == t }

  predicate NoneAt(s: seq<Failure>, t: Time) { Filter(s, SameTime(t)) == [] }

  lemma {:induction false} SplitAtBoundary(s: seq<Failure>, start: Time)
    ensures |Recent(s, start - 1)| == |Recent(s, start)| + |Filter(s, SameTime(start))|
  {
    if s != [] {
      SplitAtBoundary(s[..|s| - 1], start);
    }
  }

  lemma NothingAtBoundary(s: seq<Failure>, start: Time, n: int)
    requires NoneAt(s, start)
    ensures AtLeast(s, start - 1, n) <==> AtLeast(s, start, n)
  {
    SplitAtBoundary(s, start);
  }

  /** The exact rule: unless a counted failure is exactly a window old, an IP is banned if and only if
      maxUnique counted failures lie in the window. */
  lemma BansIffCounted(events: seq<Event>, a: Attempt)
    requires Monotone(events, a.now) && FixedWindow(events, a.window)
    requires NoneAt(CountedWith(events, a), a.now - a.window)
    ensures Bans(Run(events), a) <==> AtLeast(CountedWith(events, a), a.now - a.window, a.maxUnique)
  {
    NothingAtBoundary(CountedWith(events, a), a.now - a.window, a.maxUnique);
    if Bans(Run(events), a) {
      BanNeedsCountedFailures(events, a);
    } else if AtLeast(CountedWith(events, a), a.now - a.window, a.maxUnique) {
      CountedFailuresBan(events, a);
    }
  }

  /** What ListBans reports as unique failures is the number of stored failures. */
  lemma UniqueFailuresAreStored(events: seq<Event>, ip: string, clock: Time)
    requires Monotone(events, clock)
    ensures var s := At(Run(events).failures, ip); |Fingerprints(s)| == |s|
  {
    RunKeepsStored(events, ip, clock);
    CountFingerprints(At(Run(events).failures, ip));
  }

  /** Repeats are not counted: f fails at 1 and again at 9, g at 12. With a limit of two and a window of
      ten, both fail within the window at 12, and yet no ban follows. */
  lemma RepeatDoesNotRefresh(ip: string, f: string, g: string)
    requires f != g
    ensures var events := [Fail(Example(ip, f, 1)), Fail(Example(ip, f, 9))];
            && !Bans(Run(events), Example(ip, g, 12))
            && RealFailures(events, ip) == [Failure(f, 1), Failure(f, 9)]
  {
    TwoSteps(Fail(Example(ip, f, 1)), Fail(Example(ip, f, 9)), ip);
    FirstFailure(ip, f);
    SecondFailure(ip, f);
    ThirdFailure(ip, f, g);
  }

  const EMPTY_TRACKER := Tracker(map[], map[], ZERO_TIME)

  lemma TwoSteps(e1: Event, e2: Event, ip: string)
    ensures Run([e1, e2]) == Next(Next(EMPTY_TRACKER, e1), e2)
    ensures RealFailures([e1, e2], ip) == RealNext(RealNext([], e1, ip), e2, ip)
  {
    assert [e1, e2] == [] + [e1] + [e2];
    RunStep([], e1, ip);
    RunStep([] + [e1], e2, ip);
  }

  lemma RunStep(events: seq<Event>, e: Event, ip: string)
    ensures Run(events + [e]) == Next(Run(events), e)
    ensures RealFailures(events + [e], ip) == RealNext(RealFailures(events, ip), e, ip)
  {
    assert (events + [e])[..|events|] == events;
  }

  function Example(ip: string, fingerprint: string, now: Time): Attempt {
    Attempt(ip, fingerprint, 2, 60, 10, now)
  }

  function OneFailure(ip: string, f: string): Tracker {
    Tracker(map[ip := [Failure(f, 1)]], map[], 1)
  }

  lemma SingleIsNotSuspicious(f: Failure, now: Time)
    requires f.timestamp >= now - 10
    ensures InWindow([f], 10, now) == [f] && !Suspicious([f], 2, 10, now)
  {
    FilterOne(f, NotBefore(now - 10));
    CountFingerprints([f]);
  }

  lemma FirstFailure(ip: string, f: string)
    ensures Next(EMPTY_TRACKER, Fail(Example(ip, f, 1))) == OneFailure(ip, f)
  {
    assert AfterRecording(EMPTY_TRACKER, Example(ip, f, 1)) == [Failure(f, 1)];
    SingleIsNotSuspicious(Failure(f, 1), 1);
  }

  lemma SecondFailure(ip: string, f: string)
    ensures Next(OneFailure(ip, f), Fail(Example(ip, f, 9))) == OneFailure(ip, f)
  {
    var one := Failure(f, 1);
    FilterOne(one, LaterThan(-1));
    assert [one][0].fingerprint == f;
    assert AfterRecording(OneFailure(ip, f), Example(ip, f, 9)) == [one];
    SingleIsNotSuspicious(one, 9);
  }

  lemma ThirdFailure(ip: string, f: string, g: string)
    requires f != g
    ensures !Bans(OneFailure(ip, f), Example(ip, g, 12))
  {
    FilterOne(Failure(f, 1), LaterThan(2));
    assert AfterRecording(OneFailure(ip, f), Example(ip, g, 12)) == [Failure(g, 12)];
    SingleIsNotSuspicious(Failure(g, 12), 12);
  }
}
