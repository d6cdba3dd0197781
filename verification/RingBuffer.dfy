/** The in-place ring buffer of pkg/nats/buffer.go, proved to implement RingModel. */
module RingBuffers {
  import opened Basics
  import opened RingModel

  /** x % n for an index that overshoots the ring by less than one turn. */
  function Wrap(x: nat, n: nat): (r: nat)
    requires x < 2 * n
    ensures r < n
  {
    if x < n then x else x - n
  }

  lemma WrapIsModulo(x: nat, n: nat)
    requires x < 2 * n
    ensures Wrap(x, n) == x % n
  {
    var q, r := x / n, x % n;
    assert x == n * q + r && 0 <= r < n;
    assert n * (q - 2) == n * q - 2 * n < 0;
    assert q == 0 || q == 1;
  }

  /** How far slot j is from the tail, walking forward around the ring. */
  function Offset(tail: nat, j: nat, n: nat): (r: nat)
    requires tail < n && j < n
    ensures r < n && Wrap(tail + r, n) == j
  {
    if j >= tail then j - tail else n - tail + j
  }

  /** Moving the tail on brings every other slot one place nearer; the old tail becomes the last. */
  lemma OffsetsShift(tail: nat, n: nat)
    requires tail < n
    ensures forall j: nat :: j < n && j != tail ==> Offset(Wrap(tail + 1, n), j, n) == Offset(tail, j, n) - 1
    ensures Offset(Wrap(tail + 1, n), tail, n) == n - 1 && Offset(tail, tail, n) == 0
  {
  }

  lemma PrefixStep(s: seq<Entry>, i: nat, keep: Entry -> bool)
    requires i < |s|
    ensures Filter(s[..i + 1], keep) == Filter(s[..i], keep) + (if keep(s[i]) then [s[i]] else [])
    ensures Bytes(s[..i + 1]) == Bytes(s[..i]) + |s[i].data|
  {
    FilterStep(s, i, keep);
    assert s[..i + 1] == s[..i] + [s[i]];
    BytesSnoc(s[..i], s[i]);
  }

  lemma PayloadsOfStep(before: seq<Entry>, after: seq<Entry>, e: Entry, kept: bool)
    requires after == before + (if kept then [e] else [])
    ensures Payloads(after) == Payloads(before) + (if kept then [e.data] else [])
  {
    if !kept {
      assert after == before;
    }
  }

  class RingBuffer {
    const maxSize: nat
    const maxBytes: int
    const maxAge: int
    const entries: array<Entry>
    var currentBytes: int
    var channelTTLs: map<string, int>
    var head: nat
    var tail: nat
    var full: bool
    ghost var live: seq<Entry>

    /** The number of occupied slots; it differs from CountedLen while `full` is stale. */
    ghost function LiveLen(): nat
      reads this
      requires head < maxSize && tail < maxSize
    {
      if head == tail then (if full then maxSize else 0)
      else if head > tail then head - tail
      else maxSize - tail + head
    }

    ghost predicate Valid()
      reads this, entries
    {
      && 1 <= maxSize == entries.Length
      && head < maxSize && tail < maxSize
      && |live| == LiveLen()
      && (forall j :: 0 <= j < maxSize ==>
            entries[j] == if Offset(tail, j, maxSize) < |live| then live[Offset(tail, j, maxSize)] else EMPTY_ENTRY)
      && (forall i :: 0 <= i < |live| ==> live[i].timestamp != ZERO_TIME)
      && currentBytes == Bytes(live)
      && Bounded(Abs(), Lim())
    }

    ghost function Abs(): Ring reads this { Ring(live, full) }
    function Lim(): Limits { Limits(maxSize, maxBytes) }
    function Pol(): Policy reads this { Policy(maxAge, channelTTLs) }

    /** What the slot i places after the tail holds. */
    lemma SlotAt(i: nat)
      requires Valid() && i < maxSize
      ensures entries[Wrap(tail + i, maxSize)] == if i < |live| then live[i] else EMPTY_ENTRY
    {
      assert Offset(tail, Wrap(tail + i, maxSize), maxSize) == i;
    }

    /** A scan that skips zero entries filters the live ones. */
    lemma ScanStep(i: nat, keep: Entry -> bool)
      requires Valid() && i < maxSize && !keep(EMPTY_ENTRY)
      ensures var e := entries[Wrap(tail + i, maxSize)];
        Filter(live[..Min(i + 1, |live|)], keep)
          == Filter(live[..Min(i, |live|)], keep) + (if keep(e) then [e] else [])
        && Bytes(live[..Min(i + 1, |live|)]) == Bytes(live[..Min(i, |live|)]) + |e.data|
    {
      SlotAt(i);
      if i < |live| {
        PrefixStep(live, i, keep);
      }
    }

    lemma PayloadStep(i: nat, keep: Entry -> bool)
      requires Valid() && i < maxSize && !keep(EMPTY_ENTRY)
      ensures var e := entries[Wrap(tail + i, maxSize)];
        Payloads(Filter(live[..Min(i + 1, |live|)], keep))
          == Payloads(Filter(live[..Min(i, |live|)], keep)) + (if keep(e) then [e.data] else [])
    {
      ScanStep(i, keep);
      var e := entries[Wrap(tail + i, maxSize)];
      PayloadsOfStep(Filter(live[..Min(i, |live|)], keep), Filter(live[..Min(i + 1, |live|)], keep), e, keep(e));
    }

    constructor (size: int, bytes: int, age: int)
      ensures Valid() && fresh(entries) && Abs() == EMPTY_RING
      ensures maxSize == (if size <= 0 then 1 else size) && maxBytes == bytes
      ensures Pol() == Policy(age, map[])
    {
      var n := if size <= 0 then 1 else size;
      maxSize, maxBytes, maxAge := n, bytes, age;
      entries := new Entry[n](_ => EMPTY_ENTRY);
      currentBytes, channelTTLs := 0, map[];
      head, tail, full := 0, 0, false;
      live := [];
    }

    method SetChannelTTL(channel: string, ttl: int)
      requires Valid()
      modifies this`channelTTLs
      ensures Valid()
      ensures channelTTLs == if ttl <= 0 then old(channelTTLs) - {channel} else old(channelTTLs)[channel := ttl]
      ensures EffectiveAge(Pol(), channel) == if ttl > 0 && (maxAge <= 0 || ttl < maxAge) then ttl else maxAge
    {
      if ttl <= 0 {
        channelTTLs := channelTTLs - {channel};
      } else {
        channelTTLs := channelTTLs[channel := ttl];
      }
    }

    /** The entry count the code works with: exact unless `full` is stale, and zero only for an empty ring. */
    method LenLocked() returns (n: nat)
      requires Valid()
      ensures |live| <= n <= maxSize
      ensures n == 0 <==> live == []
      ensures n == |live| <==> (full ==> |live| == maxSize)
    {
      if full {
        return maxSize;
      }
      if head >= tail {
        return head - tail;
      }
      return maxSize - tail + head;
    }

    method EvictOldestLocked()
      requires Valid()
      modifies this`currentBytes, this`tail, this`full, this`live, entries
      ensures Valid()
      ensures old(live) == [] ==> live == [] && full == old(full)
      ensures old(live) != [] ==> live == old(live)[1..] && full == (old(full) && live != [])
      ensures unchanged(this`head)
    {
      var n := LenLocked();
      if n == 0 {
        return;
      }
      currentBytes := currentBytes - |entries[tail].data|;
      entries[tail] := EMPTY_ENTRY;
      OffsetsShift(tail, maxSize);
      tail := Wrap(tail + 1, maxSize);
      live := live[1..];
      if tail == head {
        full := false;
      }
    }

    /** Inserts e as the newest entry, after evicting what the byte budget and the flag demand. */
    method Append(channel: string, data: Payload, now: Time)
      requires Valid() && now != ZERO_TIME
      modifies this`currentBytes, this`head, this`tail, this`full, this`live, entries
      ensures Valid()
      ensures Abs() == AppendTo(old(Abs()), Lim(), Entry(channel, data, now))
    {
      ghost var before := Abs();
      if maxBytes > 0 {
        EvictForBytes(|data|);
      }
      if full {
        EvictOldestLocked();
      }
      AppendKeepsBounds(before, Lim(), Entry(channel, data, now));
      Insert(Entry(channel, data, now));
    }

    /** The byte-budget loop of Append: it drops as many entries as `size` more bytes force out. */
    method EvictForBytes(size: nat)
      requires Valid() && maxBytes > 0
      modifies this`currentBytes, this`tail, this`full, this`live, entries
      ensures Valid()
      ensures live == old(live)[Forced(old(live), size, maxBytes)..]
      ensures full == (old(full) && (live == old(live) || live != []))
    {
      ghost var before, k := live, 0;
      assert before[0..] == before;
      var n := LenLocked();
      while n > 0 && currentBytes + size > maxBytes
        invariant Valid()
        invariant n == 0 <==> live == []
        invariant k <= |before| && live == before[k..]
        invariant full == (old(full) && (k == 0 || live != []))
        invariant Forced(before, size, maxBytes) == k + Forced(live, size, maxBytes)
        decreases |live|
      {
        EvictOldestLocked();
        k := k + 1;
        n := LenLocked();
      }
    }

    /** The final store of Append: the slot at head is free by now. */
    method Insert(e: Entry)
      requires Valid() && e.timestamp != ZERO_TIME && |live| < maxSize
      requires Bounded(Ring(live + [e], full || |live| + 1 == maxSize), Lim())
      modifies this`currentBytes, this`head, this`full, this`live, entries
      ensures Valid()
      ensures Abs() == Ring(old(live) + [e], old(full) || |live| == maxSize)
    {
      BytesSnoc(live, e);
      assert Offset(tail, head, maxSize) == |live|;
      entries[head] := e;
      currentBytes := currentBytes + |e.data|;
      var next := Wrap(head + 1, maxSize);
      if next == tail {
        full := true;
      }
      head := next;
      live := live + [e];
    }

    method Get(channel: string, since: Time, limit: int, now: Time) returns (result: seq<Payload>)
      requires Valid()
      ensures result == Payloads(Lookup(Pol(), live, channel, since, now, limit))
    {
      var n := LenLocked();
      if n == 0 {
        assert Lookup(Pol(), live, channel, since, now, limit) == [];
        return [];
      }
      ghost var wants := Wants(Pol(), channel, since, now);
      result := [];
      var i := 0;
      while i < n
        invariant 0 <= i <= n
        invariant result == Payloads(Filter(live[..Min(i, |live|)], wants))
        invariant limit > 0 ==> |result| < limit
      {
        PayloadStep(i, wants);
        var e := entries[Wrap(tail + i, maxSize)];
        i := i + 1;
        if e.channel != channel || e.timestamp <= since {
          continue;
        }
        if Expired(Pol(), e, now) {
          continue;
        }
        result := result + [e.data];
        if limit > 0 && |result| >= limit {
          CutReached(live, Min(i, |live|), wants, limit);
          return;
        }
      }
      assert live[..|live|] == live;
    }

    method RetainedBytes() returns (n: int)
      requires Valid()
      ensures n == Bytes(live)
    {
      n := currentBytes;
    }

    /** Rebuilds the ring from slot 0 with the unexpired entries, and corrects a stale flag. */
    method EvictExpired(now: Time)
      requires Valid()
      modifies this`currentBytes, this`head, this`tail, this`full, this`live, entries
      ensures Valid()
      ensures Abs() == CleanUp(old(Abs()), Lim(), Pol(), now)
    {
      var n := LenLocked();
      if n == 0 {
        return;
      }
      ghost var was := live;
      var kept, freed := Survivors(n, now);
      currentBytes := currentBytes - freed;
      CleanUpKeepsBounds(Abs(), Lim(), Pol(), now);
      ghost var p := Pol();
      FilterMembers(was, Unexpired(p, now));
      assert forall i :: 0 <= i < |kept| ==> kept[i] in kept;
      Rebuild(kept);
    }

    /** The scan of EvictExpired: what stays, and how many payload bytes go. */
    method Survivors(n: nat, now: Time) returns (kept: seq<Entry>, freed: nat)
      requires Valid() && |live| <= n <= maxSize
      ensures kept == Filter(live, Unexpired(Pol(), now))
      ensures Bytes(kept) + freed == Bytes(live)
    {
      kept, freed := [], 0;
      ghost var unexpired := Unexpired(Pol(), now);
      for i := 0 to n
        invariant kept == Filter(live[..Min(i, |live|)], unexpired)
        invariant Bytes(kept) + freed == Bytes(live[..Min(i, |live|)])
      {
        ScanStep(i, unexpired);
        var e := entries[Wrap(tail + i, maxSize)];
        BytesSnoc(kept, e);
        if Expired(Pol(), e, now) {
          freed := freed + |e.data|;
          continue;
        }
        kept := kept + [e];
      }
      assert live[..|live|] == live;
    }

    /** The store-back of EvictExpired. */
    method Rebuild(kept: seq<Entry>)
      requires 1 <= maxSize == entries.Length && |kept| <= maxSize
      requires Bounded(Ring(kept, |kept| == maxSize), Lim()) && currentBytes == Bytes(kept)
      requires forall i :: 0 <= i < |kept| ==> kept[i].timestamp != ZERO_TIME
      modifies this`head, this`tail, this`full, this`live, entries
      ensures Valid()
      ensures Abs() == Ring(kept, |kept| == maxSize)
    {
      for i := 0 to maxSize
        modifies entries
        invariant forall j :: 0 <= j < i ==> entries[j] == EMPTY_ENTRY
      {
        entries[i] := EMPTY_ENTRY;
      }
      tail := 0;
      full := |kept| == maxSize;
      head := Wrap(|kept|, maxSize);
      for i := 0 to |kept|
        modifies entries
        invariant forall j :: 0 <= j < i ==> entries[j] == kept[j]
        invariant forall j :: i <= j < maxSize ==> entries[j] == EMPTY_ENTRY
      {
        entries[i] := kept[i];
      }
      live := kept;
    }
  }
}
