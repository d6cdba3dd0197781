/** Subscribing while messages arrive (pkg/nats/broker.go): the message callback appends to the ring and
    then fans out; a subscriber registers its queue and then reads history. The two run concurrently, and
    so do the periodic cleanup and TTL changes. Each step below is one critical section of the code. */
module SubscribeRace {
  import opened Basics
  import opened RingModel

  // The subscriber watched, and the bounds of the ring.
  datatype Config = Config(channel: string, drainLimit: int, maxAge: int, lim: Limits)

  datatype Subscription =
    | Idle
    | Registered(since: Time, base: int, offers: seq<Entry>)
    | Drained(base: int, offers: seq<Entry>, query: Query, history: seq<Entry>)

  // What the history lookup saw: the channel's appended and retained messages, and its arguments.
  datatype Query = Query(got: nat, retained: seq<Entry>, policy: Policy, since: Time, asked: Time)

  // pending is the message appended but not yet fanned out by the callback in progress.
  datatype State = State(log: seq<Entry>, ring: Ring, policy: Policy, pending: Option<Entry>, now: Time,
                         sub: Subscription)

  datatype Step =
    | Publish(channel: string, data: Payload, at: Time)
    | Fanout
    | Register(since: Time)
    | Drain(sinceDefaultAt: Time, at: Time)
    | Clean(at: Time)
    | SetTtl(channel: string, ttl: int)

  function Init(c: Config): State {
    State([], EMPTY_RING, Policy(c.maxAge, map[]), None, 1, Idle)
  }

  predicate Enabled(s: State, step: Step) {
    match step
    case Publish(_, _, at) => s.pending.None? && at >= s.now
    case Fanout => s.pending.Some?
    case Register(_) => s.sub.Idle?
    case Drain(d, at) => s.sub.Registered? && s.now <= d <= at
    case Clean(at) => at >= s.now
    case SetTtl(_, _) => true
  }

  function OnChannel(channel: string): Entry -> bool {
    (e: Entry) => e.channel == channel
  }

  function Of(c: Config, s: seq<Entry>): seq<Entry> {
    Filter(s, OnChannel(c.channel))
  }

  /** How many of the channel's messages have been fanned out. */
  function Fanned(c: Config, s: State): int {
    |Of(c, s.log)| - (if s.pending.Some? && s.pending.value.channel == c.channel then 1 else 0)
  }

  function Do(c: Config, s: State, step: Step): State
    requires Enabled(s, step)
  {
    match step
    case Publish(channel, data, at) =>
      var e := Entry(channel, data, at);
      s.(log := s.log + [e], ring := AppendTo(s.ring, c.lim, e), pending := Some(e), now := at)
    case Fanout =>
      var sub := if s.pending.value.channel == c.channel && !s.sub.Idle?
                 then s.sub.(offers := s.sub.offers + [s.pending.value]) else s.sub;
      s.(pending := None, sub := sub)
    case Register(since) =>
      s.(sub := Registered(since, Fanned(c, s), []))
    case Drain(d, at) =>
      var since := if s.sub.since == ZERO_TIME then d - c.maxAge else s.sub.since;
      var query := Query(|Of(c, s.log)|, Of(c, s.ring.live), s.policy, since, at);
      var history := Lookup(s.policy, s.ring.live, c.channel, since, at, c.drainLimit);
      s.(now := at, sub := Drained(s.sub.base, s.sub.offers, query, history))
    case Clean(at) =>
      s.(ring := CleanUp(s.ring, c.lim, s.policy, at), now := at)
    case SetTtl(channel, ttl) =>
      var ttls := if ttl <= 0 then s.policy.ttls - {channel} else s.policy.ttls[channel := ttl];
      s.(policy := s.policy.(ttls := ttls))
  }

  ghost predicate IsRun(c: Config, steps: seq<Step>, states: seq<State>) {
    && |states| == |steps| + 1
    && states[0] == Init(c)
    && forall i :: 0 <= i < |steps| ==> Enabled(states[i], steps[i]) && states[i + 1] == Do(c, states[i], steps[i])
  }

  // ---------------------------------------------------------------- the invariant

  /** Messages of the channel in time order, none later than now. */
  predicate InOrder(c: Config, s: seq<Entry>, now: Time) {
    s == [] ||
    var e := s[|s| - 1];
    e.channel == c.channel && ZERO_TIME < e.timestamp <= now && InOrder(c, s[..|s| - 1], e.timestamp)
  }

  lemma {:induction false} InOrderAt(c: Config, s: seq<Entry>, now: Time)
    requires InOrder(c, s, now)
    ensures forall i :: 0 <= i < |s| ==> s[i].channel == c.channel && ZERO_TIME < s[i].timestamp <= now
    ensures forall i, j :: 0 <= i < j < |s| ==> s[i].timestamp <= s[j].timestamp
  {
    if s != [] {
      InOrderAt(c, s[..|s| - 1], s[|s| - 1].timestamp);
    }
  }

  ghost predicate OffersCorrect(c: Config, s: State) {
    s.sub.Idle? ||
    (0 <= s.sub.base <= Fanned(c, s) <= |Of(c, s.log)| && s.sub.offers == Of(c, s.log)[s.sub.base..Fanned(c, s)])
  }

  ghost predicate HistoryCorrect(c: Config, s: State) {
    s.sub.Drained? ==>
      var q := s.sub.query;
      && s.sub.base <= q.got <= |Of(c, s.log)|
      && IsSuffix(q.retained, Of(c, s.log)[..q.got])
      && s.sub.history == Lookup(q.policy, q.retained, c.channel, q.since, q.asked, c.drainLimit)
  }

  ghost predicate Inv(c: Config, s: State) {
    && s.now > ZERO_TIME
    && InOrder(c, Of(c, s.log), s.now)
    && IsSuffix(Of(c, s.ring.live), Of(c, s.log))
    && (s.pending.Some? ==> s.log != [] && s.log[|s.log| - 1] == s.pending.value)
    && 0 <= Fanned(c, s) <= |Of(c, s.log)|
    && OffersCorrect(c, s)
    && HistoryCorrect(c, s)
  }

  lemma OfSnoc(c: Config, s: seq<Entry>, e: Entry)
    ensures Of(c, s + [e]) == Of(c, s) + (if e.channel == c.channel then [e] else [])
  {
    assert (s + [e])[..|s|] == s;
  }

  /** Appending, after dropping the d oldest entries, keeps what is retained of the channel a suffix of its log. */
  lemma RetainedAfterAppend(c: Config, live: seq<Entry>, log: seq<Entry>, d: nat, e: Entry)
    requires d <= |live| && IsSuffix(Of(c, live), Of(c, log))
    ensures IsSuffix(Of(c, live[d..] + [e]), Of(c, log + [e]))
  {
    OfSnoc(c, log, e);
    OfSnoc(c, live[d..], e);
    FilterDrop(live, d, OnChannel(c.channel));
    SuffixTransitive(Of(c, live[d..]), Of(c, live), Of(c, log));
    SuffixAppend(Of(c, live[d..]), Of(c, log), if e.channel == c.channel then [e] else []);
  }

  lemma PublishKeepsInv(c: Config, s: State, step: Step)
    requires Inv(c, s) && step.Publish? && Enabled(s, step)
    ensures Inv(c, Do(c, s, step))
  {
    var e := Entry(step.channel, step.data, step.at);
    var d := Dropped(s.ring, |e.data|, c.lim.maxBytes);
    var s' := Do(c, s, step);
    var more := if e.channel == c.channel then [e] else [];
    assert s'.log == s.log + [e] && s'.ring.live == s.ring.live[d..] + [e] && s'.sub == s.sub;
    assert Of(c, s'.log) == Of(c, s.log) + more by {
      OfSnoc(c, s.log, e);
    }
    assert InOrder(c, Of(c, s'.log), s'.now) by {
      AppendKeepsOrder(c, Of(c, s.log), e, s.now);
    }
    assert IsSuffix(Of(c, s'.ring.live), Of(c, s'.log)) by {
      RetainedAfterAppend(c, s.ring.live, s.log, d, e);
    }
    assert Fanned(c, s') == Fanned(c, s);
    LongerLogKeepsSub(c, s, s', more);
  }

  lemma AppendKeepsOrder(c: Config, s: seq<Entry>, e: Entry, now: Time)
    requires InOrder(c, s, now) && now <= e.timestamp && ZERO_TIME < now
    ensures InOrder(c, s + (if e.channel == c.channel then [e] else []), e.timestamp)
  {
    assert s + [] == s && (s + [e])[..|s|] == s;
  }

  /** What the subscriber has seen does not depend on messages appended since. */
  lemma LongerLogKeepsSub(c: Config, s: State, s': State, more: seq<Entry>)
    requires OffersCorrect(c, s) && HistoryCorrect(c, s) && s'.sub == s.sub && Fanned(c, s') == Fanned(c, s)
    requires Of(c, s'.log) == Of(c, s.log) + more
    ensures OffersCorrect(c, s') && HistoryCorrect(c, s')
  {
    if !s.sub.Idle? {
      SliceOfLonger(Of(c, s.log), more, s.sub.base, Fanned(c, s));
    }
    if s.sub.Drained? {
      SliceOfLonger(Of(c, s.log), more, 0, s.sub.query.got);
      assert (Of(c, s.log) + more)[..s.sub.query.got] == Of(c, s.log)[..s.sub.query.got];
    }
  }

  lemma SliceOfLonger<T>(s: seq<T>, more: seq<T>, lo: int, hi: int)
    requires 0 <= lo <= hi <= |s|
    ensures (s + more)[lo..hi] == s[lo..hi]
  {
  }

  lemma FanoutKeepsInv(c: Config, s: State)
    requires Inv(c, s) && s.pending.Some?
    ensures Inv(c, Do(c, s, Fanout))
  {
    var e := s.pending.value;
    assert s.log == s.log[..|s.log| - 1] + [e];
    OfSnoc(c, s.log[..|s.log| - 1], e);
    var s' := Do(c, s, Fanout);
    if e.channel == c.channel && !s.sub.Idle? {
      var chLog, f := Of(c, s.log), Fanned(c, s);
      assert chLog[f] == e && Fanned(c, s') == f + 1;
      assert chLog[s.sub.base..f + 1] == chLog[s.sub.base..f] + [e];
    }
  }

  /** What expires of a channel is its oldest part. */
  lemma ExpiryDropsOldest(c: Config, mine: seq<Entry>, p: Policy, at: Time, now: Time)
    requires InOrder(c, mine, now)
    ensures IsSuffix(Filter(mine, Unexpired(p, at)), mine)
  {
    InOrderAt(c, mine, now);
    forall i, j | 0 <= i < j < |mine| && Unexpired(p, at)(mine[i]) ensures Unexpired(p, at)(mine[j]) {
    }
    FilterUpward(mine, Unexpired(p, at));
  }

  lemma CleanKeepsSuffix(c: Config, live: seq<Entry>, chLog: seq<Entry>, p: Policy, at: Time, now: Time)
    requires IsSuffix(Of(c, live), chLog) && InOrder(c, chLog, now)
    ensures IsSuffix(Of(c, Filter(live, Unexpired(p, at))), chLog)
  {
    FilterCommutes(live, Unexpired(p, at), OnChannel(c.channel));
    SuffixInOrder(c, Of(c, live), chLog, now);
    ExpiryDropsOldest(c, Of(c, live), p, at, now);
    SuffixTransitive(Filter(Of(c, live), Unexpired(p, at)), Of(c, live), chLog);
  }

  /** The rest of the invariant does not look at the ring. */
  lemma RingChangeKeepsInv(c: Config, s: State, ring: Ring, at: Time)
    requires Inv(c, s) && at >= s.now && IsSuffix(Of(c, ring.live), Of(c, s.log))
    ensures Inv(c, s.(ring := ring, now := at))
  {
  }

  lemma {:induction false} SuffixInOrder(c: Config, a: seq<Entry>, b: seq<Entry>, now: Time)
    requires IsSuffix(a, b) && InOrder(c, b, now)
    ensures InOrder(c, a, now)
  {
    if a != [] {
      var e := a[|a| - 1];
      assert b[|b| - |a|..][|a| - 1] == b[|b| - 1];
      assert b[..|b| - 1][|b| - |a|..] == a[..|a| - 1];
      SuffixInOrder(c, a[..|a| - 1], b[..|b| - 1], e.timestamp);
    }
  }

  lemma DrainKeepsInv(c: Config, s: State, step: Step)
    requires Inv(c, s) && step.Drain? && Enabled(s, step)
    ensures Inv(c, Do(c, s, step))
  {
    var s' := Do(c, s, step);
    DrainedHistoryIsCorrect(c, s, step);
    assert InOrder(c, Of(c, s'.log), s'.now) && OffersCorrect(c, s');
  }

  /** A lookup on the whole ring finds what a lookup on the channel's messages finds. */
  lemma DrainedHistoryIsCorrect(c: Config, s: State, step: Step)
    requires step.Drain? && Enabled(s, step)
    requires IsSuffix(Of(c, s.ring.live), Of(c, s.log)) && 0 <= s.sub.base <= |Of(c, s.log)|
    ensures HistoryCorrect(c, Do(c, s, step))
  {
    var q := Do(c, s, step).sub.query;
    assert Of(c, s.log)[..q.got] == Of(c, s.log);
    FilterTwice(s.ring.live, OnChannel(c.channel), Wants(q.policy, c.channel, q.since, q.asked));
  }

  lemma StepKeepsInv(c: Config, s: State, step: Step)
    requires Inv(c, s) && Enabled(s, step)
    ensures Inv(c, Do(c, s, step))
  {
    match step
    case Publish(_, _, _) => PublishKeepsInv(c, s, step);
    case Fanout => FanoutKeepsInv(c, s);
    case Clean(at) =>
      CleanKeepsSuffix(c, s.ring.live, Of(c, s.log), s.policy, at, s.now);
      RingChangeKeepsInv(c, s, CleanUp(s.ring, c.lim, s.policy, at), at);
    case Drain(_, _) => DrainKeepsInv(c, s, step);
    case Register(_) =>
    case SetTtl(_, _) =>
  }

  lemma {:induction false} RunKeepsInv(c: Config, steps: seq<Step>, states: seq<State>, n: nat)
    requires IsRun(c, steps, states) && n < |states|
    ensures Inv(c, states[n])
  {
    if n > 0 {
      RunKeepsInv(c, steps, states, n - 1);
      StepKeepsInv(c, states[n - 1], steps[n - 1]);
    }
  }

  // ---------------------------------------------------------------- what subscribers see

  /** History covers the channel's messages number From .. To-1. */
  ghost function From(c: Config, s: State): int
    requires s.sub.Drained?
  {
    var q := s.sub.query;
    q.got - |Filter(q.retained, Wants(q.policy, c.channel, q.since, q.asked))|
  }

  ghost function To(c: Config, s: State): int
    requires s.sub.Drained?
  {
    From(c, s) + |s.sub.history|
  }

  /** Was message i still in the ring, unexpired and newer than `since` when history was read? */
  ghost predicate Eligible(c: Config, s: State, i: nat)
    requires s.sub.Drained?
  {
    var q := s.sub.query;
    && q.got - |q.retained| <= i < q.got <= |Of(c, s.log)|
    && Wanted(q.policy, c.channel, q.since, q.asked, Of(c, s.log)[i])
  }

  /** History is one contiguous run of the channel's messages: it starts at the oldest eligible one and
      goes on to the newest appended one unless the drain limit cuts it. */
  lemma HistoryIsContiguous(c: Config, s: State)
    requires Inv(c, s) && s.sub.Drained?
    ensures Contiguous(c, s)
  {
    WantedUpward(c, s);
    CutIsContiguous(c, s);
  }

  ghost predicate Contiguous(c: Config, s: State)
    requires s.sub.Drained?
  {
    var q, lo, hi := s.sub.query, From(c, s), To(c, s);
    && 0 <= lo <= hi <= q.got <= |Of(c, s.log)|
    && s.sub.history == Of(c, s.log)[lo..hi]
    && (forall i: nat :: i < q.got ==> (Eligible(c, s, i) <==> lo <= i))
    && (hi == q.got || (c.drainLimit > 0 && hi == lo + c.drainLimit))
  }

  lemma CutIsContiguous(c: Config, s: State)
    requires HistoryCorrect(c, s) && s.sub.Drained?
    requires var q := s.sub.query; TurnsOn(q.retained, Wants(q.policy, c.channel, q.since, q.asked))
    ensures Contiguous(c, s)
  {
    var q := s.sub.query;
    CutOfWindow(Of(c, s.log), q.got, q.retained, Wants(q.policy, c.channel, q.since, q.asked), c.drainLimit);
  }

  /** Among the retained messages, what follows a wanted one is wanted too. */
  lemma WantedUpward(c: Config, s: State)
    requires Inv(c, s) && s.sub.Drained?
    ensures var q := s.sub.query; TurnsOn(q.retained, Wants(q.policy, c.channel, q.since, q.asked))
  {
    var q, chLog := s.sub.query, Of(c, s.log);
    InOrderAt(c, chLog, s.now);
    var off := q.got - |q.retained|;
    assert forall i :: 0 <= i < |q.retained| ==> q.retained[i] == chLog[off + i];
  }

  ghost predicate TurnsOn<T(!new)>(s: seq<T>, keep: T -> bool) {
    forall i, j :: 0 <= i < j < |s| && keep(s[i]) ==> keep(s[j])
  }

  /** Filtering a window of s by a condition that only ever turns on, and cutting, leaves a shorter window. */
  lemma CutOfWindow<T(!new)>(s: seq<T>, end: nat, window: seq<T>, keep: T -> bool, limit: int)
    requires |window| <= end <= |s| && window == s[end - |window|..end] && TurnsOn(window, keep)
    ensures var lo, cut := end - |Filter(window, keep)|, Cut(Filter(window, keep), limit);
            && 0 <= lo && lo + |cut| <= end && cut == s[lo..lo + |cut|]
            && (lo + |cut| == end || (limit > 0 && |cut| == limit))
            && forall i :: 0 <= i < end ==> (end - |window| <= i && keep(s[i]) <==> lo <= i)
  {
    FilterUpward(window, keep);
    forall i | end - |window| <= i < end ensures keep(s[i]) <==> end - |Filter(window, keep)| <= i {
      assert window[i - (end - |window|)] == s[i];
    }
  }

  /** No gap: once history is read, each message of the channel was appended before that, or is offered to
      the live queue (number i of the channel is offer i - base). A message appended before is in history
      exactly when it was eligible and the drain limit had not been reached. */
  lemma NoGap(c: Config, steps: seq<Step>, states: seq<State>, n: nat, i: nat)
    requires IsRun(c, steps, states) && n < |states| && states[n].sub.Drained?
    requires i < |Of(c, states[n].log)|
    ensures var s := states[n];
            var q, msg := s.sub.query, Of(c, s.log)[i];
            && (i < q.got || s.sub.base <= i)
            && (s.sub.base <= i < Fanned(c, s) ==> i - s.sub.base < |s.sub.offers| && s.sub.offers[i - s.sub.base] == msg)
            && (i >= Fanned(c, s) ==> s.pending == Some(msg))
            && (i < q.got && Eligible(c, s, i) ==>
                  0 <= i - From(c, s) && (i < To(c, s) || |s.sub.history| == c.drainLimit)
                  && (i < To(c, s) ==> s.sub.history[i - From(c, s)] == msg))
            && (i < q.got && !Eligible(c, s, i) ==> i < From(c, s))
  {
    var s := states[n];
    RunKeepsInv(c, steps, states, n);
    HistoryIsContiguous(c, s);
    if i >= Fanned(c, s) {
      assert s.log == s.log[..|s.log| - 1] + [s.pending.value];
      OfSnoc(c, s.log[..|s.log| - 1], s.pending.value);
    }
  }

  /** Message i is in history and is a live offer too. */
  ghost predicate InBoth(c: Config, s: State, i: int)
    requires s.sub.Drained?
  {
    From(c, s) <= i < To(c, s) && s.sub.base <= i
  }

  /** How many messages a subscriber sees twice: in history and as live offers. */
  ghost function SeenTwice(c: Config, s: State): int
    requires s.sub.Drained?
  {
    Max(0, To(c, s) - Max(From(c, s), s.sub.base))
  }

  /** The messages seen twice are the newest ones of history, with no hole. */
  lemma DuplicatesEndHistory(c: Config, s: State)
    requires Inv(c, s) && s.sub.Drained?
    ensures var n, hi := SeenTwice(c, s), To(c, s);
            && 0 <= n <= |s.sub.history| && hi <= |Of(c, s.log)| && n <= hi
            && s.sub.history[|s.sub.history| - n..] == Of(c, s.log)[hi - n..hi]
            && forall i :: InBoth(c, s, i) <==> hi - n <= i < hi
  {
    HistoryIsContiguous(c, s);
    EndOfSlice(Of(c, s.log), From(c, s), To(c, s), SeenTwice(c, s));
  }

  lemma EndOfSlice<T>(s: seq<T>, lo: int, hi: int, n: int)
    requires 0 <= lo <= hi <= |s| && 0 <= n <= hi - lo
    ensures s[lo..hi][hi - lo - n..] == s[hi - n..hi]
  {
  }

  /** If there are any, they are also the first live offers exactly when the first offer was itself still eligible
      for history. */
  lemma DuplicatesLeadOffersIff(c: Config, s: State)
    requires Inv(c, s) && s.sub.Drained?
    ensures var n, hi, base := SeenTwice(c, s), To(c, s), s.sub.base;
            n > 0 ==> (hi - n == base <==> Eligible(c, s, base))
  {
    HistoryIsContiguous(c, s);
  }

  /** The exception happens: with room for one message, two messages arrive between registration and the
      history read. History is the second one; it is not the first live offer. */
  lemma DuplicateBehindFirstOffer(a: Entry, b: Entry)
    requires a == Entry("c", [1], 1) && b == Entry("c", [2], 2)
    ensures exists states: seq<State> :: IsRun(TinyConfig(), TinySteps(), states) && states[6].sub.Drained?
              && states[6].sub.offers == [a, b] && states[6].sub.history == [b]
  {
    var states := TinyStates(a, b);
    TinyFirstMessage(a, b);
    TinySecondMessage(a, b);
    TinyHistory(a, b);
    TinyLastFanout(a, b);
    forall i | 0 <= i < 6
      ensures Enabled(states[i], TinySteps()[i]) && states[i + 1] == Do(TinyConfig(), states[i], TinySteps()[i])
    {
      assert i == 0 || i == 1 || i == 2 || i == 3 || i == 4 || i == 5;
    }
    assert IsRun(TinyConfig(), TinySteps(), states);
  }

  ghost function TinyConfig(): Config { Config("c", 100, 0, Limits(1, 0)) }

  ghost function TinySteps(): (r: seq<Step>)
    ensures |r| == 6
  {
    [Register(1), Publish("c", [1], 1), Fanout, Publish("c", [2], 2), Drain(2, 2), Fanout]
  }

  ghost function TinyStates(a: Entry, b: Entry): (r: seq<State>)
    ensures |r| == 7
  {
    var p := Policy(0, map[]);
    [ Init(TinyConfig()),
      State([], EMPTY_RING, p, None, 1, Registered(1, 0, [])),
      State([a], Ring([a], true), p, Some(a), 1, Registered(1, 0, [])),
      State([a], Ring([a], true), p, None, 1, Registered(1, 0, [a])),
      State([a, b], Ring([b], true), p, Some(b), 2, Registered(1, 0, [a])),
      State([a, b], Ring([b], true), p, Some(b), 2, Drained(0, [a], Query(2, [b], p, 1, 2), [b])),
      State([a, b], Ring([b], true), p, None, 2, Drained(0, [a, b], Query(2, [b], p, 1, 2), [b])) ]
  }

  lemma TinyFirstMessage(a: Entry, b: Entry)
    requires a == Entry("c", [1], 1)
    ensures var s, t := TinyStates(a, b), TinySteps();
            forall i :: 0 <= i < 3 ==> Enabled(s[i], t[i]) && s[i + 1] == Do(TinyConfig(), s[i], t[i])
  {
    FilterAllOrNone<Entry>([], OnChannel("c"));
    RoomForOne(EMPTY_RING, a);
    assert [] + [a] == [a];
    var s, t := TinyStates(a, b), TinySteps();
    assert s[1] == Do(TinyConfig(), s[0], t[0]);
    assert s[2] == Do(TinyConfig(), s[1], t[1]);
    assert s[3] == Do(TinyConfig(), s[2], t[2]);
  }

  lemma TinySecondMessage(a: Entry, b: Entry)
    requires b == Entry("c", [2], 2)
    ensures var s, t := TinyStates(a, b), TinySteps();
            Enabled(s[3], t[3]) && s[4] == Do(TinyConfig(), s[3], t[3])
  {
    RoomForOne(Ring([a], true), b);
    assert [a] + [b] == [a, b];
  }

  lemma TinyHistory(a: Entry, b: Entry)
    requires a == Entry("c", [1], 1) && b == Entry("c", [2], 2)
    ensures var s, t := TinyStates(a, b), TinySteps();
            Enabled(s[4], t[4]) && s[5] == Do(TinyConfig(), s[4], t[4])
  {
    TinyLog(a, b);
    FilterOne(b, Wants(Policy(0, map[]), "c", 1, 2));
  }

  lemma TinyLog(a: Entry, b: Entry)
    requires a.channel == b.channel == "c"
    ensures Of(TinyConfig(), [b]) == [b] && Of(TinyConfig(), [a, b]) == [a, b]
  {
    OfSnoc(TinyConfig(), [], a);
    OfSnoc(TinyConfig(), [], b);
    OfSnoc(TinyConfig(), [a], b);
    assert [] + [a] == [a] && [] + [b] == [b] && [a] + [b] == [a, b];
  }

  lemma TinyLastFanout(a: Entry, b: Entry)
    requires b.channel == "c"
    ensures var s, t := TinyStates(a, b), TinySteps();
            Enabled(s[5], t[5]) && s[6] == Do(TinyConfig(), s[5], t[5])
  {
    assert [a] + [b] == [a, b];
  }

  lemma RoomForOne(r: Ring, e: Entry)
    requires r == EMPTY_RING || (|r.live| == 1 && r.full)
    ensures AppendTo(r, Limits(1, 0), e) == Ring([e], true)
  {
    assert r.live[Dropped(r, |e.data|, 0)..] == [];
  }
}
