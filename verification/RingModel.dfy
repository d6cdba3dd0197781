/** What the event ring buffer of pkg/nats/buffer.go holds, as values: the live entries in insertion
    order and the `full` flag, together with the meaning of append, cleanup and lookup. */
module RingModel {
  import opened Basics

  newtype byte = x: int | 0 <= x < 256
  type Payload = seq<byte>

  datatype Entry = Entry(channel: string, data: Payload, timestamp: Time)
  const EMPTY_ENTRY := Entry("", [], ZERO_TIME)

  // maxAge <= 0 means that entries never expire globally.
  datatype Policy = Policy(maxAge: int, ttls: map<string, int>)

  // Capacity in entries and in payload bytes (maxBytes <= 0 is unbounded).
  datatype Limits = Limits(maxSize: nat, maxBytes: int)

  // `full` may be out of date: it can stay set after evictions have made room.
  datatype Ring = Ring(live: seq<Entry>, full: bool)
  const EMPTY_RING := Ring([], false)

  function Bytes(s: seq<Entry>): nat {
    if s == [] then 0 else |s[0].data| + Bytes(s[1..])
  }

  lemma {:induction false} BytesConcat(a: seq<Entry>, b: seq<Entry>)
    ensures Bytes(a + b) == Bytes(a) + Bytes(b)
  {
    if a == [] {
      assert a + b == b;
    } else {
      assert (a + b)[1..] == a[1..] + b;
      BytesConcat(a[1..], b);
    }
  }

  lemma BytesSnoc(a: seq<Entry>, e: Entry)
    ensures Bytes(a + [e]) == Bytes(a) + |e.data|
  {
    BytesConcat(a, [e]);
    assert Bytes([e]) == |e.data| + Bytes([e][1..]);
  }

  lemma BytesDrop(s: seq<Entry>, d: nat)
    requires d <= |s|
    ensures Bytes(s[d..]) <= Bytes(s)
  {
    assert s == s[..d] + s[d..];
    BytesConcat(s[..d], s[d..]);
  }

  // ---------------------------------------------------------------- expiry

  function EffectiveAge(p: Policy, channel: string): int {
    if channel in p.ttls && p.ttls[channel] > 0 && (p.maxAge <= 0 || p.ttls[channel] < p.maxAge)
    then p.ttls[channel] else p.maxAge
  }

  predicate Expired(p: Policy, e: Entry, now: Time) {
    e.timestamp == ZERO_TIME ||
    var age := EffectiveAge(p, e.channel);
    age > 0 && e.timestamp <= now - age
  }

  function Unexpired(p: Policy, now: Time): Entry -> bool {
    e => !Expired(p, e, now)
  }

  /** Under a fixed policy an expired entry never becomes fresh again. */
  lemma ExpiryIsFinal(p: Policy, e: Entry, now: Time, later: Time)
    requires now <= later && Expired(p, e, now)
    ensures Expired(p, e, later)
  {
  }

  // ---------------------------------------------------------------- lookup

  predicate Wanted(p: Policy, channel: string, since: Time, now: Time, e: Entry) {
    e.channel == channel && e.timestamp > since && !Expired(p, e, now)
  }

  function Wants(p: Policy, channel: string, since: Time, now: Time): Entry -> bool {
    e => Wanted(p, channel, since, now, e)
  }

  function Cut<T>(s: seq<T>, limit: int): seq<T> {
    if limit > 0 && |s| > limit then s[..limit] else s
  }

  /** The entries a lookup returns: the oldest `limit` wanted ones, in insertion order. */
  function Lookup(p: Policy, live: seq<Entry>, channel: string, since: Time, now: Time, limit: int): seq<Entry> {
    Cut(Filter(live, Wants(p, channel, since, now)), limit)
  }

  /** Without a limit exactly the entries of the channel after `since` that are within the age in force for the
      channel; with one, the first of them. */
  lemma LookupMeans(p: Policy, live: seq<Entry>, channel: string, since: Time, now: Time, limit: int)
    ensures forall e :: e in Lookup(p, live, channel, since, now, 0) <==>
              && e in live && e.channel == channel && e.timestamp > since && e.timestamp != ZERO_TIME
              && (EffectiveAge(p, channel) <= 0 || now - e.timestamp < EffectiveAge(p, channel))
    ensures var whole, cut := Lookup(p, live, channel, since, now, 0), Lookup(p, live, channel, since, now, limit);
            |cut| <= |whole| && cut == whole[..|cut|]
            && |cut| == if limit > 0 then Min(limit, |whole|) else |whole|
  {
    FilterMembers(live, Wants(p, channel, since, now));
  }

  function Payloads(s: seq<Entry>): (r: seq<Payload>)
    ensures |r| == |s|
  {
    seq(|s|, i requires 0 <= i < |s| => s[i].data)
  }

  lemma PayloadsSnoc(s: seq<Entry>, e: Entry)
    ensures Payloads(s + [e]) == Payloads(s) + [e.data]
  {
  }

  /** Once `limit` wanted entries are found, the rest of the ring no longer matters. */
  lemma CutReached(live: seq<Entry>, i: nat, wants: Entry -> bool, limit: int)
    requires i <= |live| && limit == |Filter(live[..i], wants)| > 0
    ensures Cut(Filter(live, wants), limit) == Filter(live[..i], wants)
  {
    assert live == live[..i] + live[i..];
    FilterConcat(live[..i], live[i..], wants);
  }

  // ---------------------------------------------------------------- append

  /** How many of the oldest entries the byte budget forces out before `size` more bytes go in. */
  function Forced(live: seq<Entry>, size: nat, maxBytes: int): (k: nat)
    ensures k <= |live|
  {
    if maxBytes <= 0 || live == [] || Bytes(live) + size <= maxBytes then 0
    else 1 + Forced(live[1..], size, maxBytes)
  }

  function Dropped(r: Ring, size: nat, maxBytes: int): (d: nat)
    ensures d <= |r.live|
  {
    var k := Forced(r.live, size, maxBytes);
    if r.full && k < |r.live| then k + 1 else k
  }

  function AppendTo(r: Ring, lim: Limits, e: Entry): Ring {
    var d := Dropped(r, |e.data|, lim.maxBytes);
    var live := r.live[d..] + [e];
    Ring(live, (r.full && d < |r.live|) || |live| == lim.maxSize)
  }

  predicate Fits(s: seq<Entry>, lim: Limits, extra: nat) {
    lim.maxBytes <= 0 || Bytes(s) + extra <= lim.maxBytes
  }

  /** What every reachable ring satisfies. */
  ghost predicate Bounded(r: Ring, lim: Limits) {
    && |r.live| <= lim.maxSize
    && (|r.live| == lim.maxSize ==> r.full)
    && (r.live == [] ==> !r.full)
    && (Fits(r.live, lim, 0) || |r.live| == 1)
  }

  /** Forced is the least number of evictions after which the byte budget is met or nothing is left. */
  lemma {:induction false} ForcedIsLeast(live: seq<Entry>, size: nat, lim: Limits)
    ensures var k := Forced(live, size, lim.maxBytes);
            && (k == |live| || Fits(live[k..], lim, size))
            && forall j :: 0 <= j < k ==> !Fits(live[j..], lim, size)
  {
    var k := Forced(live, size, lim.maxBytes);
    assert live[0..] == live;
    if k > 0 {
      ForcedIsLeast(live[1..], size, lim);
      assert live[1..][k - 1..] == live[k..];
      forall j | 0 <= j < k ensures !Fits(live[j..], lim, size) {
        if j > 0 {
          assert live[1..][j - 1..] == live[j..];
        }
      }
    }
  }

  /** Dropping more than is needed keeps the budget. */
  lemma FitsAfterMore(live: seq<Entry>, k: nat, d: nat, lim: Limits, size: nat)
    requires k <= d <= |live| && Fits(live[k..], lim, size)
    ensures Fits(live[d..], lim, size)
  {
    assert live[k..][d - k..] == live[d..];
    BytesDrop(live[k..], d - k);
  }

  /** Append keeps the bounds: at most maxSize entries, and either within the byte budget or alone. */
  lemma AppendKeepsBounds(r: Ring, lim: Limits, e: Entry)
    requires lim.maxSize >= 1 && Bounded(r, lim)
    ensures Bounded(AppendTo(r, lim, e), lim)
    ensures Dropped(r, |e.data|, lim.maxBytes) < |r.live| ==> Fits(AppendTo(r, lim, e).live, lim, 0)
  {
    var size := |e.data|;
    var k, d := Forced(r.live, size, lim.maxBytes), Dropped(r, size, lim.maxBytes);
    ForcedIsLeast(r.live, size, lim);
    BytesSnoc(r.live[d..], e);
    if d < |r.live| {
      FitsAfterMore(r.live, k, d, lim, size);
    } else {
      assert r.live[d..] + [e] == [e];
    }
  }

  /** The least number of entries that must go for e to fit both budgets. */
  ghost predicate IsLeastDrop(live: seq<Entry>, lim: Limits, size: nat, m: nat) {
    && m <= |live|
    && Roomy(live, lim, size, m)
    && forall j :: 0 <= j < m ==> !Roomy(live, lim, size, j)
  }

  ghost predicate Roomy(live: seq<Entry>, lim: Limits, size: nat, m: nat)
    requires m <= |live|
  {
    |live| - m < lim.maxSize && (m == |live| || Fits(live[m..], lim, size))
  }

  /** A set flag costs one entry too many, unless the count demands an eviction and the bytes do not, or
      not even the newest entry can stay. */
  predicate EvictsOneMore(r: Ring, lim: Limits, size: nat) {
    && r.full && r.live != []
    && Fits(r.live[|r.live| - 1..], lim, size)
    && !(|r.live| == lim.maxSize && Fits(r.live, lim, size))
  }

  /** What append leaves, by the budgets alone: the old entries less the fewest that must go, or one fewer where
      a set flag costs one; then the new entry. The flag stays set unless the new entry is alone. */
  lemma AppendDropsLeast(r: Ring, lim: Limits, e: Entry) returns (m: nat)
    requires lim.maxSize >= 1 && Bounded(r, lim)
    ensures IsLeastDrop(r.live, lim, |e.data|, m)
    ensures var d := if EvictsOneMore(r, lim, |e.data|) then m + 1 else m;
            d <= |r.live| && AppendTo(r, lim, e).live == r.live[d..] + [e]
    ensures var after := AppendTo(r, lim, e);
            after.full <==> |after.live| == lim.maxSize || (r.full && |after.live| > 1)
  {
    var size := |e.data|;
    var k, d := Forced(r.live, size, lim.maxBytes), Dropped(r, size, lim.maxBytes);
    ForcedIsLeast(r.live, size, lim);
    m := if k == 0 && |r.live| == lim.maxSize then 1 else k;
    LeastDropIs(r, lim, size, k, m);
    if r.live != [] && k < |r.live| {
      FitsAfterMore(r.live, k, |r.live| - 1, lim, size);
    }
    assert r.live[0..] == r.live;
  }

  lemma LeastDropIs(r: Ring, lim: Limits, size: nat, k: nat, m: nat)
    requires lim.maxSize >= 1 && Bounded(r, lim) && k <= |r.live|
    requires k == |r.live| || Fits(r.live[k..], lim, size)
    requires forall j :: 0 <= j < k ==> !Fits(r.live[j..], lim, size)
    requires m == if k == 0 && |r.live| == lim.maxSize then 1 else k
    ensures IsLeastDrop(r.live, lim, size, m)
  {
    if m < |r.live| {
      FitsAfterMore(r.live, k, m, lim, size);
    }
    forall j | 0 <= j < m ensures !Roomy(r.live, lim, size, j) {
    }
  }

  lemma LeastDropUnique(live: seq<Entry>, lim: Limits, size: nat, m: nat, n: nat)
    requires IsLeastDrop(live, lim, size, m) && IsLeastDrop(live, lim, size, n)
    ensures m == n
  {
    assert !(m < n) && !(n < m);
  }

  /** Append evicts no more than it must exactly when no entry is lost to the flag. */
  lemma AppendEvictsMinimallyIff(r: Ring, lim: Limits, e: Entry)
    requires lim.maxSize >= 1 && Bounded(r, lim)
    ensures var dropped := |r.live| + 1 - |AppendTo(r, lim, e).live|;
            && 0 <= dropped <= |r.live|
            && (IsLeastDrop(r.live, lim, |e.data|, dropped) <==> !EvictsOneMore(r, lim, |e.data|))
  {
    var m := AppendDropsLeast(r, lim, e);
    var dropped := |r.live| + 1 - |AppendTo(r, lim, e).live|;
    if IsLeastDrop(r.live, lim, |e.data|, dropped) {
      LeastDropUnique(r.live, lim, |e.data|, m, dropped);
    }
  }

  /** In particular nothing goes where there is room and the flag is clear. */
  lemma AppendWithRoomDropsNothing(r: Ring, lim: Limits, e: Entry)
    requires lim.maxSize >= 1 && Bounded(r, lim) && !r.full && Fits(r.live, lim, |e.data|)
    ensures AppendTo(r, lim, e).live == r.live + [e]
  {
    var m := AppendDropsLeast(r, lim, e);
    assert r.live[0..] == r.live;
    assert Roomy(r.live, lim, |e.data|, 0);
  }

  /** The stale flag at work: a ring of three entries and four bytes evicts two one-byte entries for a
      two-byte payload although evicting one is enough. */
  lemma StaleFlagCostsAnEntry()
    ensures var one, two := Entry("c", [1], 1), Entry("c", [1, 2], 2);
            var r := Ring([one, one, one], true);
            Bounded(r, Limits(3, 4)) && IsLeastDrop(r.live, Limits(3, 4), 2, 1)
            && AppendTo(r, Limits(3, 4), two).live == [one, two]
  {
    var one, two := Entry("c", [1], 1), Entry("c", [1, 2], 2);
    var live := [one, one, one];
    var r, lim := Ring(live, true), Limits(3, 4);
    assert live[1..] == [one, one] && live[2..] == [one] && [one, one][1..] == [one] && [one][1..] == [];
    assert Bytes([one]) == 1 && Bytes([one, one]) == 2 && Bytes(live) == 3;
    assert live[0..] == live;
    assert !Roomy(live, lim, 2, 0) && Roomy(live, lim, 2, 1);
    var m := AppendDropsLeast(r, lim, two);
    LeastDropUnique(live, lim, 2, m, 1);
    assert [one] + [two] == [one, two];
  }

  // ---------------------------------------------------------------- cleanup

  function CleanUp(r: Ring, lim: Limits, p: Policy, now: Time): Ring {
    var kept := Filter(r.live, Unexpired(p, now));
    Ring(kept, |kept| == lim.maxSize)
  }

  lemma {:induction false} FilterBytes(s: seq<Entry>, keep: Entry -> bool)
    ensures Bytes(Filter(s, keep)) <= Bytes(s)
  {
    if s != [] {
      var front, last := s[..|s| - 1], s[|s| - 1];
      FilterBytes(front, keep);
      assert s == front + [last];
      BytesSnoc(front, last);
      BytesSnoc(Filter(front, keep), last);
      assert Filter(front, keep) + [] == Filter(front, keep);
    }
  }

  lemma CleanUpKeepsBounds(r: Ring, lim: Limits, p: Policy, now: Time)
    requires lim.maxSize >= 1 && Bounded(r, lim)
    ensures Bounded(CleanUp(r, lim, p, now), lim)
    ensures CleanUp(r, lim, p, now).full <==> |CleanUp(r, lim, p, now).live| == lim.maxSize
  {
    FilterBytes(r.live, Unexpired(p, now));
  }

  /** An entry goes exactly if it has expired. */
  lemma CleanUpKeepsUnexpired(r: Ring, lim: Limits, p: Policy, now: Time)
    ensures forall e :: e in CleanUp(r, lim, p, now).live <==> e in r.live && !Expired(p, e, now)
  {
    FilterMembers(r.live, Unexpired(p, now));
  }

  /** Does a cleanup at `now` under p change the answer of a lookup at `later` under q? */
  predicate Unaffected(live: seq<Entry>, p: Policy, q: Policy, channel: string, since: Time, now: Time, later: Time,
                       limit: int)
  {
    Lookup(q, Filter(live, Unexpired(p, now)), channel, since, later, limit) == Lookup(q, live, channel, since, later, limit)
  }

  /** With the ages in force for the channel at cleanup and at lookup: nothing that is still fresh at the
      lookup was expired at the cleanup. */
  predicate Outlives(p: Policy, q: Policy, channel: string, now: Time, later: Time) {
    var a, b := EffectiveAge(p, channel), EffectiveAge(q, channel);
    a <= 0 || now - a <= ZERO_TIME || (b > 0 && later - b >= now - a)
  }

  /** Entries carry real instants, which come after the zero one. */
  ghost predicate Dated(live: seq<Entry>) {
    forall e :: e in live ==> e.timestamp > ZERO_TIME
  }

  /** Exactly then a cleanup is invisible to every lookup, although TTLs may have changed in between. */
  lemma CleanUpInvisibleIff(p: Policy, q: Policy, channel: string, now: Time, later: Time)
    ensures (forall live, since, limit :: Dated(live) ==> Unaffected(live, p, q, channel, since, now, later, limit))
       <==> Outlives(p, q, channel, now, later)
  {
    if Outlives(p, q, channel, now, later) {
      forall live, since, limit | Dated(live) ensures Unaffected(live, p, q, channel, since, now, later, limit) {
        FilterTwice(live, Unexpired(p, now), Wants(q, channel, since, later));
      }
    } else {
      var t := now - EffectiveAge(p, channel);
      var e := Entry(channel, [], t);
      FilterOne(e, Unexpired(p, now));
      FilterOne(e, Wants(q, channel, t - 1, later));
      assert !Unaffected([e], p, q, channel, t - 1, now, later, 0);
    }
  }

  /** A later lookup under the same policy answers the same with or without a cleanup. */
  lemma CleanUpInvisible(r: Ring, lim: Limits, p: Policy, channel: string, since: Time,
                         now: Time, later: Time, limit: int)
    requires now <= later
    ensures Lookup(p, CleanUp(r, lim, p, now).live, channel, since, later, limit)
         == Lookup(p, r.live, channel, since, later, limit)
  {
    var strong := Wants(p, channel, since, later);
    forall x | x in r.live && strong(x) ensures Unexpired(p, now)(x) {
      if Expired(p, x, now) {
        ExpiryIsFinal(p, x, now, later);
      }
    }
    FilterTwice(r.live, Unexpired(p, now), strong);
  }

  /** The policy must stay fixed: raising a channel's TTL after a cleanup makes the cleanup visible. */
  lemma CleanUpVisibleAfterTtlChange()
    ensures var r, lim := Ring([Entry("c", [1], 1)], false), Limits(2, 0);
            var short, long := Policy(100, map["c" := 5]), Policy(100, map[]);
            && Lookup(long, r.live, "c", 0, 10, 0) != []
            && Lookup(long, CleanUp(r, lim, short, 10).live, "c", 0, 10, 0) == []
  {
    var e := Entry("c", [1], 1);
    var short, long := Policy(100, map["c" := 5]), Policy(100, map[]);
    assert [e][..0] == [];
    assert Filter([e], Unexpired(short, 10)) == [];
    assert Filter([e], Wants(long, "c", 0, 10)) == [e];
  }

  // ---------------------------------------------------------------- whole runs

  datatype Op = Append(entry: Entry) | Clean(policy: Policy, now: Time)

  function Apply(r: Ring, lim: Limits, op: Op): Ring {
    match op
    case Append(e) => AppendTo(r, lim, e)
    case Clean(p, now) => CleanUp(r, lim, p, now)
  }

  function Run(ops: seq<Op>, lim: Limits): Ring {
    if ops == [] then EMPTY_RING else Apply(Run(ops[..|ops| - 1], lim), lim, ops[|ops| - 1])
  }

  function Appended(ops: seq<Op>): seq<Entry> {
    if ops == [] then []
    else
      var older := Appended(ops[..|ops| - 1]);
      if ops[|ops| - 1].Append? then older + [ops[|ops| - 1].entry] else older
  }

  lemma {:induction false} RunStaysBounded(ops: seq<Op>, lim: Limits)
    requires lim.maxSize >= 1
    ensures Bounded(Run(ops, lim), lim)
  {
    if ops != [] {
      var front := Run(ops[..|ops| - 1], lim);
      RunStaysBounded(ops[..|ops| - 1], lim);
      match ops[|ops| - 1]
      case Append(e) => AppendKeepsBounds(front, lim, e);
      case Clean(p, now) => CleanUpKeepsBounds(front, lim, p, now);
    }
  }

  /** Without cleanup and without a byte budget the ring holds exactly the last maxSize entries. */
  lemma {:induction false} RunKeepsNewest(ops: seq<Op>, lim: Limits)
    requires lim.maxSize >= 1 && lim.maxBytes <= 0
    requires forall op :: op in ops ==> op.Append?
    ensures HoldsNewest(Run(ops, lim), Appended(ops), lim)
  {
    if ops != [] {
      var front, last := ops[..|ops| - 1], ops[|ops| - 1];
      assert last in ops && forall op :: op in front ==> op in ops;
      RunKeepsNewest(front, lim);
      AppendKeepsNewest(Run(front, lim), Appended(front), lim, last.entry);
    }
  }

  lemma AppendKeepsNewest(r: Ring, all: seq<Entry>, lim: Limits, e: Entry)
    requires lim.maxSize >= 1 && lim.maxBytes <= 0 && HoldsNewest(r, all, lim)
    ensures HoldsNewest(AppendTo(r, lim, e), all + [e], lim)
  {
    var d := Dropped(r, |e.data|, lim.maxBytes);
    assert d == if r.full then 1 else 0;
    assert IsSuffix(r.live[d..], r.live);
    SuffixTransitive(r.live[d..], r.live, all);
    SuffixAppend(r.live[d..], all, [e]);
  }

  ghost predicate HoldsNewest(r: Ring, all: seq<Entry>, lim: Limits) {
    |r.live| == Min(|all|, lim.maxSize) && IsSuffix(r.live, all) && (r.full <==> |r.live| == lim.maxSize)
  }

  // ---------------------------------------------------------------- runs under a byte budget

  /** The newest entries of `all`, as many as both budgets allow; the very newest in any case. */
  ghost predicate IsLongest(live: seq<Entry>, all: seq<Entry>, lim: Limits) {
    && IsSuffix(live, all) && |live| <= lim.maxSize
    && (Fits(live, lim, 0) || |live| == 1)
    && (|live| < |all| ==> TooBig(all[|all| - |live| - 1..], lim))
  }

  predicate TooBig(s: seq<Entry>, lim: Limits) { |s| > lim.maxSize || !Fits(s, lim, 0) }

  lemma AppendKeepsLongest(r: Ring, all: seq<Entry>, lim: Limits, e: Entry)
    requires lim.maxSize >= 1 && Bounded(r, lim) && IsLongest(r.live, all, lim)
    requires !EvictsOneMore(r, lim, |e.data|)
    ensures IsLongest(AppendTo(r, lim, e).live, all + [e], lim)
  {
    var m := AppendDropsLeast(r, lim, e);
    var kept := r.live[m..];
    assert IsSuffix(kept, r.live);
    SuffixTransitive(kept, r.live, all);
    SuffixAppend(kept, all, [e]);
    BytesSnoc(kept, e);
    if |kept| < |all| {
      LongerStaysTooBig(r.live, all, m, e, lim);
      assert (all + [e])[|all| - |kept| - 1..] == all[|all| - |kept| - 1..] + [e];
    }
  }

  lemma LongerStaysTooBig(live: seq<Entry>, all: seq<Entry>, m: nat, e: Entry, lim: Limits)
    requires IsLongest(live, all, lim) && IsLeastDrop(live, lim, |e.data|, m) && |live| - m < |all|
    ensures TooBig(all[|all| - (|live| - m) - 1..] + [e], lim)
  {
    var rest := all[|all| - (|live| - m) - 1..];
    BytesSnoc(rest, e);
    if m > 0 {
      assert rest == live[m - 1..];
      assert !Roomy(live, lim, |e.data|, m - 1);
    } else {
      assert TooBig(rest, lim);
    }
  }

  /** Over any appends under both budgets, as long as none is lost to the flag, the ring holds the newest
      entries, as many as the budgets allow. */
  lemma {:induction false} RunKeepsLongestFit(ops: seq<Op>, lim: Limits)
    requires lim.maxSize >= 1
    requires forall i :: 0 <= i < |ops| ==> ops[i].Append? && !EvictsOneMore(Run(ops[..i], lim), lim, |ops[i].entry.data|)
    ensures IsLongest(Run(ops, lim).live, Appended(ops), lim)
  {
    if ops != [] {
      var front, last := ops[..|ops| - 1], ops[|ops| - 1];
      forall i | 0 <= i < |front|
        ensures front[i].Append? && !EvictsOneMore(Run(front[..i], lim), lim, |front[i].entry.data|)
      {
        assert front[..i] == ops[..i];
      }
      RunKeepsLongestFit(front, lim);
      RunStaysBounded(front, lim);
      AppendKeepsLongest(Run(front, lim), Appended(front), lim, last.entry);
    }
  }

  /** Whatever the flag costs, what the ring holds is a run of the newest entries that ends with the last. */
  lemma {:induction false} RunKeepsSuffix(ops: seq<Op>, lim: Limits)
    requires lim.maxSize >= 1 && forall op :: op in ops ==> op.Append?
    ensures IsSuffix(Run(ops, lim).live, Appended(ops))
    ensures ops != [] ==> Run(ops, lim).live != []
  {
    if ops != [] {
      var front, last := ops[..|ops| - 1], ops[|ops| - 1];
      assert last in ops && forall op :: op in front ==> op in ops;
      RunKeepsSuffix(front, lim);
      RunStaysBounded(front, lim);
      var r := Run(front, lim);
      var m := AppendDropsLeast(r, lim, last.entry);
      var d := if EvictsOneMore(r, lim, |last.entry.data|) then m + 1 else m;
      assert IsSuffix(r.live[d..], r.live);
      SuffixTransitive(r.live[d..], r.live, Appended(front));
      SuffixAppend(r.live[d..], Appended(front), [last.entry]);
    }
  }
}
