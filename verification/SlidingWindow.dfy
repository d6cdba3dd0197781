/** The sliding-window limiters of internal/service/ratelimit.go: RateLimiter (per IP, with throttled
    sweeping) and LoginThrottle (per account, cleared after a login). */
module SlidingWindow {
  import opened Basics

  function ClampWindow(seconds: int): (r: int)
    ensures r > 0
  {
    if seconds <= 0 then 300 else seconds
  }

  function LaterThan(start: Time): Time -> bool { t => t > start }

  /** The times after `start`, in order. */
  function Recent(times: seq<Time>, start: Time): seq<Time> {
    Filter(times, LaterThan(start))
  }

  type Table = map<string, seq<Time>>

  function At(entries: Table, id: string): seq<Time> {
    if id in entries then entries[id] else []
  }

  /** Admits a request at `now` unless `max` are recorded in the window before it. */
  predicate Admits(times: seq<Time>, max: int, window: int, now: Time) {
    |Recent(times, now - window)| < max
  }

  function Admit(times: seq<Time>, max: int, window: int, now: Time): seq<Time> {
    var valid := Recent(times, now - window);
    if Admits(times, max, window, now) then valid + [now] else valid
  }

  /** What a sweep deletes: IDs without times, or whose last time lies before the cutoff. */
  predicate Idle(times: seq<Time>, cutoff: Time) {
    times == [] || times[|times| - 1] < cutoff
  }

  function Swept(entries: Table, cutoff: Time): Table {
    map id | id in entries && !Idle(entries[id], cutoff) :: entries[id]
  }

  class RateLimiter {
    var entries: Table
    var lastSweep: Time

    constructor ()
      ensures entries == map[] && lastSweep == ZERO_TIME
    {
      entries, lastSweep := map[], ZERO_TIME;
    }

    method SweepAt(now: Time, windowSeconds: int)
      modifies this`entries
      ensures entries == Swept(old(entries), now - windowSeconds * SECOND)
    {
      var cutoff := now - windowSeconds * SECOND;
      var todo := entries.Keys;
      while todo != {}
        invariant todo <= old(entries).Keys
        invariant forall id :: id in todo ==> id in entries && entries[id] == old(entries)[id]
        invariant forall id :: id in entries <==> id in todo || id in Swept(old(entries), cutoff)
        invariant forall id :: id in entries ==> entries[id] == old(entries)[id]
        decreases todo
      {
        var id :| id in todo;
        todo := todo - {id};
        if Idle(entries[id], cutoff) {
          entries := entries - {id};
        }
      }
      assert entries.Keys == Swept(old(entries), cutoff).Keys;
    }

    method Sweep(windowSeconds: int, now: Time)
      modifies this`entries
      ensures entries == Swept(old(entries), now - ClampWindow(windowSeconds) * SECOND)
      ensures var c := Config(0, (if windowSeconds <= 0 then 300 else windowSeconds) * SECOND, true);
              Limiter(entries, lastSweep) == Next(c, old(Limiter(entries, lastSweep)), Event.Sweep(now))
    {
      SweepAt(now, ClampWindow(windowSeconds));
    }

    method MaybeSweep(now: Time, windowSeconds: int)
      modifies this
      ensures Limiter(entries, lastSweep) == MaybeSwept(old(Limiter(entries, lastSweep)), now, windowSeconds * SECOND)
    {
      if lastSweep != ZERO_TIME && now - lastSweep < windowSeconds * SECOND {
        return;
      }
      lastSweep := now;
      SweepAt(now, windowSeconds);
    }

    method Allow(ip: string, maxRequests: int, windowSeconds: int, now: Time) returns (ok: bool)
      modifies this
      ensures windowSeconds > 0 ==>
                var c := Config(maxRequests, windowSeconds * SECOND, true);
                && ok == Decides(c, old(Limiter(entries, lastSweep)), ip, now)
                && Limiter(entries, lastSweep) == Next(c, old(Limiter(entries, lastSweep)), Event.Allow(ip, now))
      ensures var swept := MaybeSwept(old(Limiter(entries, lastSweep)), now, ClampWindow(windowSeconds) * SECOND);
              && ok == Admits(At(swept.entries, ip), maxRequests, windowSeconds * SECOND, now)
              && Limiter(entries, lastSweep) == swept.(entries :=
                   swept.entries[ip := Admit(At(swept.entries, ip), maxRequests, windowSeconds * SECOND, now)])
    {
      MaybeSweep(now, ClampWindow(windowSeconds));
      var times := if ip in entries then entries[ip] else [];
      var valid := CompactInPlace(times, LaterThan(now - windowSeconds * SECOND));
      if |valid| >= maxRequests {
        entries := entries[ip := valid];
        return false;
      }
      entries := entries[ip := valid + [now]];
      return true;
    }
  }

  class LoginThrottle {
    var attempts: Table

    constructor ()
      ensures attempts == map[]
    {
      attempts := map[];
    }

    method Allow(key: string, maxAttempts: int, windowSeconds: int, now: Time) returns (ok: bool)
      modifies this
      ensures var c := Config(if maxAttempts <= 0 then 10 else maxAttempts,
                              (if windowSeconds <= 0 then 300 else windowSeconds) * SECOND, false);
              forall last ::
                && ok == Decides(c, Limiter(old(attempts), last), key, now)
                && Limiter(attempts, last) == Next(c, Limiter(old(attempts), last), Event.Allow(key, now))
      ensures var max, window := if maxAttempts <= 0 then 10 else maxAttempts, ClampWindow(windowSeconds) * SECOND;
              && ok == Admits(At(old(attempts), key), max, window, now)
              && attempts == old(attempts)[key := Admit(At(old(attempts), key), max, window, now)]
    {
      var max := if maxAttempts <= 0 then 10 else maxAttempts;
      var cutoff := now - ClampWindow(windowSeconds) * SECOND;
      var times := if key in attempts then attempts[key] else [];
      var valid := CompactInPlace(times, LaterThan(cutoff));
      if |valid| >= max {
        attempts := attempts[key := valid];
        return false;
      }
      attempts := attempts[key := valid + [now]];
      return true;
    }

    method Clear(key: string)
      modifies this
      ensures attempts == old(attempts) - {key}
      ensures forall c, last :: Limiter(attempts, last) == Next(c, Limiter(old(attempts), last), Event.Clear(key))
    {
      attempts := attempts - {key};
    }
  }

  // ---------------------------------------------------------------- whole runs

  datatype Limiter = Limiter(entries: Table, lastSweep: Time)

  function MaybeSwept(l: Limiter, now: Time, window: int): Limiter {
    if l.lastSweep != ZERO_TIME && now - l.lastSweep < window then l
    else Limiter(Swept(l.entries, now - window), now)
  }

  // `sweeps` tells RateLimiter from LoginThrottle.
  datatype Config = Config(max: int, window: int, sweeps: bool)

  datatype Event = Allow(id: string, now: Time) | Sweep(now: Time) | Clear(id: string)

  function Before(c: Config, l: Limiter, now: Time): Limiter {
    if c.sweeps then MaybeSwept(l, now, c.window) else l
  }

  function Next(c: Config, l: Limiter, e: Event): Limiter {
    match e
    case Allow(id, now) =>
      var b := Before(c, l, now);
      b.(entries := b.entries[id := Admit(At(b.entries, id), c.max, c.window, now)])
    case Sweep(now) => l.(entries := Swept(l.entries, now - c.window))
    case Clear(id) => l.(entries := l.entries - {id})
  }

  function Run(c: Config, events: seq<Event>): Limiter {
    if events == [] then Limiter(map[], ZERO_TIME) else Next(c, Run(c, events[..|events| - 1]), events[|events| - 1])
  }

  /** The answer to a request in a state, and after some events. */
  predicate Decides(c: Config, l: Limiter, id: string, now: Time) {
    Admits(At(Before(c, l, now).entries, id), c.max, c.window, now)
  }

  predicate Decision(c: Config, events: seq<Event>, id: string, now: Time) {
    Decides(c, Run(c, events), id, now)
  }

  /** The requests of an ID that the limiter accepted since the ID was last cleared (RateLimiter never clears). */
  function Accepted(c: Config, events: seq<Event>, id: string): seq<Time> {
    if events == [] then []
    else
      var front := events[..|events| - 1];
      var accepted := Accepted(c, front, id);
      match events[|events| - 1]
      case Allow(i, now) => if i == id && Decision(c, front, id, now) then accepted + [now] else accepted
      case Sweep(_) => accepted
      case Clear(i) => if i == id then [] else accepted
  }

  /** The reference: a log that is never compacted or swept, and decides by itself. */
  function FullLog(c: Config, events: seq<Event>, id: string): seq<Time> {
    if events == [] then []
    else
      var log := FullLog(c, events[..|events| - 1], id);
      match events[|events| - 1]
      case Allow(i, now) => if i == id then Logged(log, c.max, c.window, now) else log
      case Sweep(_) => log
      case Clear(i) => if i == id then [] else log
  }

  /** The clock never runs backwards; it stands at `clock` after the events. */
  predicate Monotone(events: seq<Event>, clock: Time) {
    if events == [] then true
    else
      var front, last := events[..|events| - 1], events[|events| - 1];
      if last.Clear? then Monotone(front, clock) else last.now <= clock && Monotone(front, last.now)
  }

  predicate Ordered(times: seq<Time>, clock: Time) {
    (forall i :: 0 <= i < |times| ==> times[i] <= clock) && (forall i, j :: 0 <= i < j < |times| ==> times[i] <= times[j])
  }

  lemma RecentOfSnoc(times: seq<Time>, t: Time, start: Time)
    ensures Recent(times + [t], start) == Recent(times, start) + (if t > start then [t] else [])
  {
    assert (times + [t])[..|times|] == times;
  }

  lemma RecentOfRecent(times: seq<Time>, start: Time, later: Time)
    requires start <= later
    ensures Recent(Recent(times, start), later) == Recent(times, later)
  {
    FilterTwice(times, LaterThan(start), LaterThan(later));
  }

  lemma IdleHasNothingRecent(times: seq<Time>, clock: Time, cutoff: Time, start: Time)
    requires Ordered(times, clock) && Idle(times, cutoff) && cutoff <= start
    ensures Recent(times, start) == []
  {
    FilterAllOrNone(times, LaterThan(start));
  }

  lemma RecentIsOrdered(times: seq<Time>, clock: Time, start: Time)
    requires Ordered(times, clock)
    ensures Ordered(Recent(times, start), clock)
  {
    FilterUpward(times, LaterThan(start));
  }

  /** The table keeps everything of the log that can still fall into a window. */
  ghost predicate Covers(times: seq<Time>, log: seq<Time>, from: Time) {
    forall start :: start >= from ==> SameSince(times, log, start)
  }

  ghost predicate SameSince(times: seq<Time>, log: seq<Time>, start: Time) {
    Recent(times, start) == Recent(log, start)
  }

  ghost predicate Inv(c: Config, l: Limiter, log: seq<Time>, id: string, clock: Time) {
    Ordered(At(l.entries, id), clock) && Ordered(log, clock) && Covers(At(l.entries, id), log, clock - c.window)
  }

  lemma SweepKeepsInv(c: Config, l: Limiter, log: seq<Time>, id: string, clock: Time, now: Time)
    requires Inv(c, l, log, id, clock) && clock <= now
    ensures Inv(c, l.(entries := Swept(l.entries, now - c.window)), log, id, now)
  {
    var times, left := At(l.entries, id), At(Swept(l.entries, now - c.window), id);
    if left != times {
      forall start | start >= now - c.window ensures SameSince(left, log, start) {
        assert SameSince(times, log, start);
        IdleHasNothingRecent(times, clock, now - c.window, start);
      }
    }
  }

  function Logged(log: seq<Time>, max: int, window: int, now: Time): seq<Time> {
    if Admits(log, max, window, now) then log + [now] else log
  }

  lemma AdmitCovers(times: seq<Time>, log: seq<Time>, max: int, window: int, now: Time)
    requires window > 0 && Covers(times, log, now - window)
    ensures Admits(times, max, window, now) == Admits(log, max, window, now)
    ensures Covers(Admit(times, max, window, now), Logged(log, max, window, now), now - window)
  {
    var cutoff := now - window;
    assert SameSince(times, log, cutoff);
    forall start | start >= cutoff
      ensures SameSince(Admit(times, max, window, now), Logged(log, max, window, now), start)
    {
      assert SameSince(times, log, start);
      AdmitAt(times, log, max, window, now, start);
    }
  }

  lemma AdmitAt(times: seq<Time>, log: seq<Time>, max: int, window: int, now: Time, start: Time)
    requires start >= now - window && SameSince(times, log, now - window) && SameSince(times, log, start)
    ensures SameSince(Admit(times, max, window, now), Logged(log, max, window, now), start)
  {
    var valid := Recent(times, now - window);
    CutAndAdd(times, log, now - window, now, start);
    if |valid| < max {
      assert Admit(times, max, window, now) == valid + [now] && Logged(log, max, window, now) == log + [now];
    } else {
      assert Admit(times, max, window, now) == valid && Logged(log, max, window, now) == log;
    }
  }

  lemma CutAndAdd(times: seq<Time>, log: seq<Time>, cutoff: Time, now: Time, start: Time)
    requires start >= cutoff && SameSince(times, log, start)
    ensures SameSince(Recent(times, cutoff), log, start)
    ensures SameSince(Recent(times, cutoff) + [now], log + [now], start)
  {
    RecentOfRecent(times, cutoff, start);
    RecentOfSnoc(Recent(times, cutoff), now, start);
    RecentOfSnoc(log, now, start);
  }

  lemma AdmitKeepsInv(c: Config, l: Limiter, log: seq<Time>, id: string, now: Time)
    requires c.window > 0 && Inv(c, l, log, id, now)
    ensures Admits(At(l.entries, id), c.max, c.window, now) == Admits(log, c.max, c.window, now)
    ensures Inv(c, l.(entries := l.entries[id := Admit(At(l.entries, id), c.max, c.window, now)]),
                Logged(log, c.max, c.window, now), id, now)
  {
    RecentIsOrdered(At(l.entries, id), now, now - c.window);
    AdmitCovers(At(l.entries, id), log, c.max, c.window, now);
  }

  lemma BeforeKeepsInv(c: Config, l: Limiter, log: seq<Time>, id: string, clock: Time, now: Time)
    requires Inv(c, l, log, id, clock) && clock <= now
    ensures Inv(c, Before(c, l, now), log, id, now)
  {
    SweepKeepsInv(c, l, log, id, clock, now);
  }

  lemma AllowKeepsInv(c: Config, l: Limiter, log: seq<Time>, id: string, e: Event)
    requires c.window > 0 && e.Allow? && Inv(c, l, log, id, e.now)
    ensures Inv(c, Next(c, l, e), if e.id == id then Logged(log, c.max, c.window, e.now) else log, id, e.now)
  {
    BeforeKeepsInv(c, l, log, id, e.now, e.now);
    if e.id == id {
      AdmitKeepsInv(c, Before(c, l, e.now), log, id, e.now);
    }
  }

  lemma LaterKeepsInv(c: Config, l: Limiter, log: seq<Time>, id: string, clock: Time, later: Time)
    requires Inv(c, l, log, id, clock) && clock <= later
    ensures Inv(c, l, log, id, later)
  {
  }

  lemma {:induction false} RunKeepsInv(c: Config, events: seq<Event>, id: string, clock: Time)
    requires c.window > 0 && Monotone(events, clock)
    ensures Inv(c, Run(c, events), FullLog(c, events, id), id, clock)
  {
    if events != [] {
      var front, last := events[..|events| - 1], events[|events| - 1];
      RunKeepsInv(c, front, id, if last.Clear? then clock else last.now);
      match last
      case Allow(i, now) =>
        AllowKeepsInv(c, Run(c, front), FullLog(c, front, id), id, last);
        LaterKeepsInv(c, Run(c, events), FullLog(c, events, id), id, now, clock);
      case Sweep(now) =>
        SweepKeepsInv(c, Run(c, front), FullLog(c, front, id), id, now, now);
        LaterKeepsInv(c, Run(c, events), FullLog(c, events, id), id, now, clock);
      case Clear(i) =>
    }
  }

  /** Compaction and throttled sweeping never change a decision: it is the one the full log gives. */
  lemma DecisionIsFullLogs(c: Config, events: seq<Event>, id: string, now: Time)
    requires c.window > 0 && Monotone(events, now)
    ensures Decision(c, events, id, now) <==> Admits(FullLog(c, events, id), c.max, c.window, now)
  {
    RunKeepsInv(c, events, id, now);
    BeforeKeepsInv(c, Run(c, events), FullLog(c, events, id), id, now, now);
    AdmitKeepsInv(c, Before(c, Run(c, events), now), FullLog(c, events, id), id, now);
  }

  /** So what the limiter accepts is what the reference accepts. */
  lemma {:induction false} AcceptedIsFullLog(c: Config, events: seq<Event>, id: string, clock: Time)
    requires c.window > 0 && Monotone(events, clock)
    ensures Accepted(c, events, id) == FullLog(c, events, id)
  {
    if events != [] {
      var front, last := events[..|events| - 1], events[|events| - 1];
      AcceptedIsFullLog(c, front, id, if last.Clear? then clock else last.now);
      if last.Allow? && last.id == id {
        DecisionIsFullLogs(c, front, id, last.now);
      }
    }
  }

  function Within(from: Time, to: Time): Time -> bool { t => from < t <= to }

  /** A request is denied exactly when at least max were accepted in (now - window, now]. */
  lemma DeniedIffWindowFull(c: Config, events: seq<Event>, id: string, now: Time)
    requires c.window > 0 && Monotone(events, now)
    ensures !Decision(c, events, id, now)
       <==> |Filter(Accepted(c, events, id), Within(now - c.window, now))| >= c.max
  {
    AcceptedIsFullLog(c, events, id, now);
    DecisionIsFullLogs(c, events, id, now);
    RunKeepsInv(c, events, id, now);
    SameFilter(FullLog(c, events, id), LaterThan(now - c.window), Within(now - c.window, now));
  }

  lemma {:induction false} SameFilter(s: seq<Time>, f: Time -> bool, g: Time -> bool)
    requires forall i :: 0 <= i < |s| ==> f(s[i]) == g(s[i])
    ensures Filter(s, f) == Filter(s, g)
  {
    if s != [] {
      SameFilter(s[..|s| - 1], f, g);
    }
  }

  lemma {:induction false} FewerLater(s: seq<Time>, start: Time, later: Time, to: Time)
    requires start <= later
    ensures |Filter(s, Within(later, to))| <= |Recent(s, start)|
  {
    if s != [] {
      FewerLater(s[..|s| - 1], start, later, to);
    }
  }

  /** At most max requests are accepted in every window (t - window, t], for every instant t. */
  lemma EveryWindowIsBounded(c: Config, events: seq<Event>, id: string, clock: Time, t: Time)
    requires c.window > 0 && Monotone(events, clock)
    ensures |Filter(Accepted(c, events, id), Within(t - c.window, t))| <= Max(c.max, 0)
  {
    AcceptedIsFullLog(c, events, id, clock);
    FullLogIsBounded(c, events, id, clock, t);
  }

  lemma {:induction false} FullLogIsBounded(c: Config, events: seq<Event>, id: string, clock: Time, t: Time)
    requires c.window > 0 && Monotone(events, clock)
    ensures |Filter(FullLog(c, events, id), Within(t - c.window, t))| <= Max(c.max, 0)
  {
    if events != [] {
      var front, last := events[..|events| - 1], events[|events| - 1];
      var log := FullLog(c, front, id);
      FullLogIsBounded(c, front, id, if last.Clear? then clock else last.now, t);
      if last.Allow? && last.id == id && Admits(log, c.max, c.window, last.now) {
        var now := last.now;
        assert (log + [now])[..|log|] == log;
        if t - c.window < now <= t {
          FewerLater(log, now - c.window, t - c.window, t);
        }
      }
    }
  }
}
