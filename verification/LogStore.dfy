/** The Raft log store of internal/repository/bolt.go: log entries under big-endian keys in one bbolt
    bucket, whose cursor walks the keys in byte order. */
module LogStore {
  import opened Basics

  const TWO_64 := 0x1_0000_0000_0000_0000
  type Index = n: int | 0 <= n < TWO_64
  type Byte = n: int | 0 <= n < 256
  type Key = seq<Byte>

  // ---------------------------------------------------------------- keys

  /** v >> 8k: one byte is shifted out at a time. */
  function Shift(v: nat, k: nat): nat {
    if k == 0 then v else Shift(v, k - 1) / 256
  }

  function LowByte(v: nat): Byte { v % 256 }

  /** Big-endian bytes: byte i is the low eight bits of v >> (56 - 8i). */
  function Itob(v: Index): (b: Key)
    ensures |b| == 8
  {
    seq(8, i requires 0 <= i < 8 => LowByte(Shift(v, 7 - i)))
  }

  /** 256 to the power 8 - i; byte i weighs Power(i + 1). */
  function Power(i: nat): nat
    requires i <= 8
    decreases 8 - i
  {
    if i == 8 then 1 else 256 * Power(i + 1)
  }

  /** The shifted bytes do not overlap, so combining them with "or" adds them up: from byte i on. */
  function Sum(b: Key, i: nat): nat
    requires |b| == 8 && i <= 8
    ensures Sum(b, i) < Power(i)
    decreases 8 - i
  {
    if i == 8 then 0
    else
      ByteFits(Power(i + 1), b[i], Sum(b, i + 1));
      Power(i + 1) * b[i] + Sum(b, i + 1)
  }

  lemma ByteFits(p: nat, x: nat, rest: nat)
    requires x < 256 && rest < p
    ensures 0 <= p * x + rest < 256 * p
  {
    assert p * x <= p * 255;
  }

  function Btoi(b: Key): Index
    requires |b| == 8
  {
    PowerOfEight();
    Sum(b, 0)
  }

  lemma PowerOfEight()
    ensures Power(0) == TWO_64
  {
    assert Power(6) == 0x1_0000;
    assert Power(4) == 0x1_0000_0000;
    assert Power(2) == 0x1_0000_0000_0000;
  }

  lemma {:induction false} SumOfItob(v: Index, i: nat)
    requires i <= 8
    ensures Sum(Itob(v), i) + Power(i) * Shift(v, 8 - i) == v
    decreases 8 - i
  {
    if i < 8 {
      SumOfItob(v, i + 1);
      var p, s := Power(i + 1), Shift(v, 7 - i);
      assert Itob(v)[i] == s % 256 && Shift(v, 8 - i) == s / 256;
      SplitByte(p, s);
    }
  }

  lemma SplitByte(p: nat, s: nat)
    ensures p * s == (256 * p) * (s / 256) + p * (s % 256)
  {
    var q, r := s / 256, s % 256;
    assert s == 256 * q + r;
    assert p * (256 * q + r) == (256 * p) * q + p * r;
  }

  lemma LexStep(p: nat, a: nat, b: nat, x: nat, y: nat)
    requires x < p && y < p
    ensures p * a + x < p * b + y <==> a < b || (a == b && x < y)
  {
    if a < b {
      LexGap(p, a, b);
    } else if b < a {
      LexGap(p, b, a);
    }
  }

  lemma LexGap(p: nat, a: nat, b: nat)
    requires a < b
    ensures p * a + p <= p * b
  {
    assert p * b == p * a + p * (b - a);
    assert p * (b - a) == p + p * (b - a - 1);
  }

  lemma ShiftedOut(v: Index)
    ensures Shift(v, 8) == 0
  {
    assert Shift(v, 1) < 0x100_0000_0000_0000;
    assert Shift(v, 2) < 0x1_0000_0000_0000;
    assert Shift(v, 3) < 0x100_0000_0000;
    assert Shift(v, 4) < 0x1_0000_0000;
    assert Shift(v, 5) < 0x100_0000;
    assert Shift(v, 6) < 0x1_0000;
    assert Shift(v, 7) < 0x100;
  }

  lemma BtoiInvertsItob(v: Index)
    ensures Btoi(Itob(v)) == v
  {
    SumOfItob(v, 0);
    ShiftedOut(v);
  }

  /** Byte order of keys, as bbolt compares them. */
  predicate BytesLess(a: Key, b: Key) {
    b != [] && (a == [] || a[0] < b[0] || (a[0] == b[0] && BytesLess(a[1..], b[1..])))
  }

  lemma {:induction false} SumOrder(a: Key, b: Key, i: nat)
    requires |a| == |b| == 8 && i <= 8
    ensures BytesLess(a[i..], b[i..]) <==> Sum(a, i) < Sum(b, i)
    decreases 8 - i
  {
    if i < 8 {
      SumOrder(a, b, i + 1);
      assert a[i..][1..] == a[i + 1..] && b[i..][1..] == b[i + 1..];
      LexStep(Power(i + 1), a[i], b[i], Sum(a, i + 1), Sum(b, i + 1));
    }
  }

  /** Byte order of the keys is numeric order of the indices. */
  lemma KeyOrderIsIndexOrder(x: Index, y: Index)
    ensures BytesLess(Itob(x), Itob(y)) <==> x < y
  {
    var a, b := Itob(x), Itob(y);
    SumOrder(a, b, 0);
    assert a[0..] == a && b[0..] == b;
    BtoiInvertsItob(x);
    BtoiInvertsItob(y);
  }

  lemma {:induction false} BytesLessTotal(a: Key, b: Key)
    requires |a| == |b|
    ensures a == b || BytesLess(a, b) || BytesLess(b, a)
  {
    if a != [] && a[0] == b[0] {
      BytesLessTotal(a[1..], b[1..]);
      assert a == [a[0]] + a[1..] && b == [b[0]] + b[1..];
    }
  }

  /** Every eight-byte key encodes an index. */
  lemma ItobInvertsBtoi(k: Key)
    requires |k| == 8
    ensures Itob(Btoi(k)) == k
  {
    var j := Itob(Btoi(k));
    BtoiInvertsItob(Btoi(k));
    SumOrder(j, k, 0);
    SumOrder(k, j, 0);
    assert j[0..] == j && k[0..] == k;
    BytesLessTotal(j, k);
  }

  lemma ItobInjective(x: Index, y: Index)
    ensures Itob(x) == Itob(y) <==> x == y
  {
    BtoiInvertsItob(x);
    BtoiInvertsItob(y);
  }

  // ---------------------------------------------------------------- the bucket

  // A log entry; its JSON encoding is taken to be faithful.
  datatype Entry = Entry(index: Index, term: nat, data: string)
  type Bucket = map<Key, Entry>

  /** Every key is eight bytes, hence an encoded index. */
  ghost predicate Encoded(b: Bucket) {
    forall k :: k in b ==> |k| == 8
  }

  /** The log that a bucket stands for. */
  ghost function Log(b: Bucket): map<int, Entry> {
    map i: int | 0 <= i < TWO_64 && Itob(i) in b :: b[Itob(i)]
  }

  lemma LogAfterPut(b: Bucket, i: Index, e: Entry)
    requires Encoded(b)
    ensures Encoded(b[Itob(i) := e]) && Log(b[Itob(i) := e]) == Log(b)[i := e]
  {
    BtoiInvertsItob(i);
    forall j: Index ensures Itob(j) == Itob(i) <==> i == j {
      ItobInjective(i, j);
    }
  }

  lemma LogAfterDelete(b: Bucket, i: Index)
    requires Encoded(b)
    ensures Encoded(b - {Itob(i)}) && Log(b - {Itob(i)}) == Log(b) - {i}
  {
    forall j: Index ensures Itob(j) == Itob(i) <==> i == j {
      ItobInjective(i, j);
    }
  }

  lemma LogOfKey(b: Bucket, k: Key)
    requires Encoded(b) && |k| == 8
    ensures k in b ==> Btoi(k) in Log(b) && Log(b)[Btoi(k)] == b[k]
  {
    ItobInvertsBtoi(k);
  }

  // ---------------------------------------------------------------- first and last

  ghost predicate IsFirst(b: Bucket, k: Key) {
    k in b && forall j :: j in b && j != k ==> BytesLess(k, j)
  }

  ghost predicate IsLast(b: Bucket, k: Key) {
    k in b && forall j :: j in b && j != k ==> BytesLess(j, k)
  }

  lemma KeyOrder(j: Key, k: Key)
    requires |j| == |k| == 8
    ensures BytesLess(j, k) <==> Btoi(j) < Btoi(k)
    ensures Btoi(j) == Btoi(k) ==> j == k
  {
    ItobInvertsBtoi(j);
    ItobInvertsBtoi(k);
    KeyOrderIsIndexOrder(Btoi(j), Btoi(k));
  }

  /** The cursor's first key encodes the least index. */
  lemma FirstKeyIffLeast(b: Bucket, k: Key)
    requires Encoded(b) && k in b
    ensures IsFirst(b, k) <==> IsMin(Log(b).Keys, Btoi(k))
  {
    LogOfKey(b, k);
    if IsFirst(b, k) {
      forall i | i in Log(b).Keys ensures Btoi(k) <= i {
        KeyOrder(k, Itob(i));
        BtoiInvertsItob(i);
      }
    }
    if IsMin(Log(b).Keys, Btoi(k)) {
      forall j | j in b && j != k ensures BytesLess(k, j) {
        LogOfKey(b, j);
        KeyOrder(k, j);
      }
    }
  }

  /** The cursor's last key encodes the greatest index. */
  lemma LastKeyIffGreatest(b: Bucket, k: Key)
    requires Encoded(b) && k in b
    ensures IsLast(b, k) <==> IsMax(Log(b).Keys, Btoi(k))
  {
    LogOfKey(b, k);
    if IsLast(b, k) {
      forall i | i in Log(b).Keys ensures i <= Btoi(k) {
        KeyOrder(Itob(i), k);
        BtoiInvertsItob(i);
      }
    }
    if IsMax(Log(b).Keys, Btoi(k)) {
      forall j | j in b && j != k ensures BytesLess(j, k) {
        LogOfKey(b, j);
        KeyOrder(j, k);
      }
    }
  }

  lemma CursorEndsExist(b: Bucket)
    requires Encoded(b) && b != map[]
    ensures exists k :: IsFirst(b, k)
    ensures exists k :: IsLast(b, k)
  {
    var k :| k in b;
    LogOfKey(b, k);
    ExtremesExist(Log(b).Keys, Btoi(k));
    var lo :| IsMin(Log(b).Keys, lo);
    var hi :| IsMax(Log(b).Keys, hi);
    BtoiInvertsItob(lo);
    BtoiInvertsItob(hi);
    FirstKeyIffLeast(b, Itob(lo));
    LastKeyIffGreatest(b, Itob(hi));
  }

  // ---------------------------------------------------------------- contiguity

  /** The stored indices are an interval (or nothing). */
  ghost predicate Contiguous(s: set<int>) {
    forall i, j, m :: i in s && j in s && i <= m <= j ==> m in s
  }

  function Without(log: map<int, Entry>, low: int, high: int): map<int, Entry> {
    map i | i in log && !(low <= i <= high) :: log[i]
  }

  ghost predicate CutsHole(s: set<int>, low: int, high: int) {
    exists i, j :: i in s && j in s && i < low && high < j
  }

  /** Removing [low, high] keeps the log contiguous exactly when it does not cut a hole into it; removing
      an end of the log never does. */
  lemma RemovalKeepsContiguousIff(log: map<int, Entry>, low: int, high: int)
    requires Contiguous(log.Keys) && low <= high
    ensures Contiguous(Without(log, low, high).Keys) <==> !CutsHole(log.Keys, low, high)
    ensures (forall i :: i in log ==> low <= i) || (forall i :: i in log ==> i <= high)
            ==> Contiguous(Without(log, low, high).Keys)
  {
    var s := Without(log, low, high).Keys;
    if CutsHole(log.Keys, low, high) {
      var i, j :| i in log.Keys && j in log.Keys && i < low && high < j;
      assert i in s && j in s && low !in s;
    } else {
      forall i, j, m | i in s && j in s && i <= m <= j ensures m in s {
        assert i in log.Keys && j in log.Keys;
      }
    }
  }

  function Stored(log: map<int, Entry>, logs: seq<Entry>): map<int, Entry> {
    if logs == [] then log
    else Stored(log, logs[..|logs| - 1])[logs[|logs| - 1].index := logs[|logs| - 1]]
  }

  /** Of several entries with an index the last is stored. */
  lemma {:induction false} LastEntryIsStored(log: map<int, Entry>, logs: seq<Entry>, n: nat)
    requires n < |logs| && forall m :: n < m < |logs| ==> logs[m].index != logs[n].index
    ensures logs[n].index in Stored(log, logs) && Stored(log, logs)[logs[n].index] == logs[n]
  {
    if n < |logs| - 1 {
      LastEntryIsStored(log, logs[..|logs| - 1], n);
    }
  }

  /** Other indices keep what they had. */
  lemma {:induction false} OthersStay(log: map<int, Entry>, logs: seq<Entry>, i: int)
    requires forall n :: 0 <= n < |logs| ==> logs[n].index != i
    ensures i in Stored(log, logs) <==> i in log
    ensures i in log ==> Stored(log, logs)[i] == log[i]
  {
    if logs != [] {
      OthersStay(log, logs[..|logs| - 1], i);
    }
  }

  lemma StoredStep(log: map<int, Entry>, logs: seq<Entry>, n: nat)
    requires n < |logs|
    ensures Stored(log, logs[..n + 1]) == Stored(log, logs[..n])[logs[n].index := logs[n]]
  {
    assert logs[..n + 1][..n] == logs[..n];
  }

  /** Appending a batch that continues the log keeps it contiguous, and stores each entry of the batch. */
  lemma {:induction false} AppendKeepsContiguous(log: map<int, Entry>, logs: seq<Entry>, start: nat)
    requires Contiguous(log.Keys)
    requires log == map[] || IsMax(log.Keys, start - 1)
    requires forall n :: 0 <= n < |logs| ==> logs[n].index == start + n
    ensures var all := Stored(log, logs);
            && Contiguous(all.Keys)
            && (all == map[] || IsMax(all.Keys, start + |logs| - 1))
            && (forall i :: i in log ==> i in all && all[i] == log[i])
            && (forall n :: 0 <= n < |logs| ==> logs[n].index in all && all[logs[n].index] == logs[n])
  {
    if logs != [] {
      var front, last := logs[..|logs| - 1], logs[|logs| - 1];
      AppendKeepsContiguous(log, front, start);
      var before, all := Stored(log, front), Stored(log, logs);
      assert all.Keys == before.Keys + {last.index};
      forall n | 0 <= n < |front| ensures logs[n].index in all && all[logs[n].index] == logs[n] {
        assert front[n] == logs[n];
      }
    }
  }

  // ---------------------------------------------------------------- the DeleteRange loop

  /** i++ on a uint64. */
  function Next(i: Index): Index { if i == TWO_64 - 1 then 0 else i + 1 }

  function After(i: Index, n: nat): Index {
    if n == 0 then i else Next(After(i, n - 1))
  }

  lemma {:induction false} AfterCounts(i: Index, n: nat)
    requires i + n < TWO_64
    ensures After(i, n) == i + n
  {
    if n == 0 {
    } else {
      AfterCounts(i, n - 1);
    }
  }

  /** After n rounds the loop condition i <= high holds. */
  predicate StillRunning(low: Index, high: Index, n: nat) { After(low, n) <= high }

  ghost predicate RunsForever(low: Index, high: Index) {
    forall n: nat :: StillRunning(low, high, n)
  }

  /** The loop `for i := low; i <= high; i++` never ends exactly when it starts and high is the greatest
      uint64. */
  lemma LoopRunsForeverIff(low: Index, high: Index)
    ensures RunsForever(low, high) <==> low <= high && high == TWO_64 - 1
  {
    if low > high {
      assert !StillRunning(low, high, 0);
    } else if high < TWO_64 - 1 {
      AfterCounts(low, high + 1 - low);
      assert !StillRunning(low, high, high + 1 - low);
    }
  }

  // ---------------------------------------------------------------- the store

  class BoltLogStore {
    var bucket: Bucket

    constructor ()
      ensures Encoded(bucket) && Log(bucket) == map[]
    {
      bucket := map[];
    }

    method FirstIndex() returns (idx: Index)
      requires Encoded(bucket)
      ensures if bucket == map[] then idx == 0 else IsMin(Log(bucket).Keys, idx)
    {
      idx := 0;
      if bucket != map[] {
        CursorEndsExist(bucket);
        var k := CursorFirst();
        FirstKeyIffLeast(bucket, k);
        idx := Btoi(k);
      }
    }

    method LastIndex() returns (idx: Index)
      requires Encoded(bucket)
      ensures if bucket == map[] then idx == 0 else IsMax(Log(bucket).Keys, idx)
    {
      idx := 0;
      if bucket != map[] {
        CursorEndsExist(bucket);
        var k := CursorLast();
        LastKeyIffGreatest(bucket, k);
        idx := Btoi(k);
      }
    }

    /** bbolt's cursor: the first key in byte order. */
    method CursorFirst() returns (k: Key)
      requires exists k :: IsFirst(bucket, k)
      ensures IsFirst(bucket, k)
    {
      k :| k in bucket && forall j :: j in bucket && j != k ==> BytesLess(k, j);
    }

    method CursorLast() returns (k: Key)
      requires exists k :: IsLast(bucket, k)
      ensures IsLast(bucket, k)
    {
      k :| k in bucket && forall j :: j in bucket && j != k ==> BytesLess(j, k);
    }

    method GetLog(idx: Index) returns (log: Option<Entry>)
      ensures log == if idx in Log(bucket) then Some(Log(bucket)[idx]) else None
    {
      var key := Itob(idx);
      log := if key in bucket then Some(bucket[key]) else None;
    }

    /** A later entry with the same index replaces an earlier one. */
    method StoreLogs(logs: seq<Entry>)
      requires Encoded(bucket)
      modifies this
      ensures Encoded(bucket) && Log(bucket) == Stored(old(Log(bucket)), logs)
    {
      for n := 0 to |logs|
        invariant Encoded(bucket) && Log(bucket) == Stored(old(Log(bucket)), logs[..n])
      {
        var log := logs[n];
        StoredStep(old(Log(bucket)), logs, n);
        LogAfterPut(bucket, log.index, log);
        bucket := bucket[Itob(log.index) := log];
      }
      assert logs[..|logs|] == logs;
    }

    /** Removes exactly [low, high]. With high the greatest uint64 the loop would not end. */
    method DeleteRange(low: Index, high: Index)
      requires Encoded(bucket)
      requires low <= high ==> high < TWO_64 - 1
      modifies this
      ensures Encoded(bucket) && Log(bucket) == Without(old(Log(bucket)), low, high)
    {
      var i := low;
      while i <= high
        invariant if low <= high then low <= i <= high + 1 else i == low
        invariant Encoded(bucket) && Log(bucket) == Without(old(Log(bucket)), low, i - 1)
        decreases high + 1 - i
      {
        LogAfterDelete(bucket, i);
        bucket := bucket - {Itob(i)};
        i := Next(i);
      }
    }
  }
}
