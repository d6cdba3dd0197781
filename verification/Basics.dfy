/** Shared vocabulary: optional values, instants, and filtering of sequences. */
module Basics {

  datatype Option<+T> = None | Some(value: T)

  // Instants and durations are whole nanoseconds; the zero instant stands for Go's zero time.Time.
  type Time = int
  const ZERO_TIME: Time := 0
  const SECOND: int := 1_000_000_000

  function Min(a: int, b: int): int { if a <= b then a else b }
  function Max(a: int, b: int): int { if a <= b then b else a }

  /** The elements of s that satisfy keep, in order. */
  function Filter<T>(s: seq<T>, keep: T -> bool): (r: seq<T>)
    ensures |r| <= |s|
  {
    if s == [] then []
    else Filter(s[..|s| - 1], keep) + (if keep(s[|s| - 1]) then [s[|s| - 1]] else [])
  }

  lemma FilterStep<T>(s: seq<T>, i: nat, keep: T -> bool)
    requires i < |s|
    ensures Filter(s[..i + 1], keep) == Filter(s[..i], keep) + (if keep(s[i]) then [s[i]] else [])
  {
    assert s[..i + 1][..i] == s[..i];
  }

  lemma {:induction false} FilterConcat<T>(a: seq<T>, b: seq<T>, keep: T -> bool)
    ensures Filter(a + b, keep) == Filter(a, keep) + Filter(b, keep)
  {
    if b == [] {
      assert a + b == a;
    } else {
      var front := b[..|b| - 1];
      assert (a + b)[..|a + b| - 1] == a + front;
      FilterConcat(a, front, keep);
    }
  }

  lemma FilterOne<T>(x: T, keep: T -> bool)
    ensures Filter([x], keep) == if keep(x) then [x] else []
  {
    assert [x][..0] == [];
  }

  lemma {:induction false} FilterMembers<T>(s: seq<T>, keep: T -> bool)
    ensures forall x :: x in Filter(s, keep) <==> x in s && keep(x)
  {
    if s != [] {
      FilterMembers(s[..|s| - 1], keep);
      assert s == s[..|s| - 1] + [s[|s| - 1]];
    }
  }

  /** A filter that keeps everything, or nothing, is trivial. */
  lemma {:induction false} FilterAllOrNone<T>(s: seq<T>, keep: T -> bool)
    ensures (forall x :: x in s ==> keep(x)) ==> Filter(s, keep) == s
    ensures (forall x :: x in s ==> !keep(x)) ==> Filter(s, keep) == []
  {
    if s != [] {
      var front := s[..|s| - 1];
      FilterAllOrNone(front, keep);
      assert s == front + [s[|s| - 1]];
      assert forall x :: x in front ==> x in s;
    }
  }

  /** Filtering first by a weaker condition changes nothing. */
  lemma {:induction false} FilterTwice<T>(s: seq<T>, weak: T -> bool, strong: T -> bool)
    requires forall x :: x in s && strong(x) ==> weak(x)
    ensures Filter(Filter(s, weak), strong) == Filter(s, strong)
  {
    if s != [] {
      var front, last := s[..|s| - 1], s[|s| - 1];
      FilterTwice(front, weak, strong);
      FilterConcat(Filter(front, weak), if weak(last) then [last] else [], strong);
      assert Filter([last], strong) == if strong(last) then [last] else [] by {
        assert [last][..0] == [];
      }
    }
  }

  lemma {:induction false} FilterCommutes<T>(s: seq<T>, f: T -> bool, g: T -> bool)
    ensures Filter(Filter(s, f), g) == Filter(Filter(s, g), f)
  {
    if s != [] {
      var front, last := s[..|s| - 1], s[|s| - 1];
      FilterCommutes(front, f, g);
      FilterConcat(Filter(front, f), if f(last) then [last] else [], g);
      FilterConcat(Filter(front, g), if g(last) then [last] else [], f);
      assert [last][..0] == [];
    }
  }

  /** a is what is left of b after dropping some oldest elements. */
  predicate IsSuffix<T(==)>(a: seq<T>, b: seq<T>) {
    |a| <= |b| && b[|b| - |a|..] == a
  }

  lemma SuffixTransitive<T>(a: seq<T>, b: seq<T>, c: seq<T>)
    requires IsSuffix(a, b) && IsSuffix(b, c)
    ensures IsSuffix(a, c)
  {
    assert c[|c| - |b|..][|b| - |a|..] == c[|c| - |a|..];
  }

  lemma SuffixAppend<T>(a: seq<T>, b: seq<T>, tail: seq<T>)
    requires IsSuffix(a, b)
    ensures IsSuffix(a + tail, b + tail)
  {
    assert (b + tail)[|b| - |a|..] == b[|b| - |a|..] + tail;
  }

  lemma FilterDrop<T>(s: seq<T>, d: nat, keep: T -> bool)
    requires d <= |s|
    ensures IsSuffix(Filter(s[d..], keep), Filter(s, keep))
  {
    assert s == s[..d] + s[d..];
    FilterConcat(s[..d], s[d..], keep);
  }

  /** If everything after a kept element is kept too, the filter only drops a front part. */
  lemma {:induction false} FilterUpward<T>(s: seq<T>, keep: T -> bool)
    requires forall i, j :: 0 <= i < j < |s| && keep(s[i]) ==> keep(s[j])
    ensures IsSuffix(Filter(s, keep), s)
    ensures forall i :: 0 <= i < |s| ==> (keep(s[i]) <==> i >= |s| - |Filter(s, keep)|)
  {
    if s != [] {
      var front := s[..|s| - 1];
      FilterUpward(front, keep);
      assert s == front + [s[|s| - 1]];
      if Filter(front, keep) != [] {
        var k := |front| - |Filter(front, keep)|;
        assert keep(front[k]) && front[k] == s[k];
        assert keep(s[|s| - 1]);
      }
    }
  }

  /** Go's `kept := s[:0]` loop: the kept elements overwrite the front of the same backing array, which is
      safe because the write index never passes the read index. */
  method CompactInPlace<T>(s: seq<T>, keep: T -> bool) returns (kept: seq<T>)
    ensures kept == Filter(s, keep)
  {
    var buffer := s;
    var k := 0;
    for i := 0 to |s|
      invariant k <= i && |buffer| == |s|
      invariant buffer[..k] == Filter(s[..i], keep)
      invariant buffer[i..] == s[i..]
    {
      FilterStep(s, i, keep);
      assert buffer[i] == buffer[i..][0] == s[i];
      assert buffer[i + 1..] == buffer[i..][1..] && s[i + 1..] == s[i..][1..];
      if keep(buffer[i]) {
        var x := buffer[i];
        buffer := buffer[k := x];
        k := k + 1;
        assert buffer[..k] == buffer[..k - 1] + [x];
      }
    }
    assert s[..|s|] == s;
    kept := buffer[..k];
  }

  // ---------------------------------------------------------------- extremes of finite sets

  ghost predicate IsMin(s: set<int>, i: int) { i in s && forall j :: j in s ==> i <= j }
  ghost predicate IsMax(s: set<int>, i: int) { i in s && forall j :: j in s ==> j <= i }

  lemma {:induction false} ExtremesExist(s: set<int>, x: int)
    requires x in s
    ensures exists i :: IsMin(s, i)
    ensures exists i :: IsMax(s, i)
    decreases |s|
  {
    var rest := s - {x};
    assert s == rest + {x};
    if y :| y in rest {
      ExtremesExist(rest, y);
      var lo :| IsMin(rest, lo);
      var hi :| IsMax(rest, hi);
      assert IsMin(s, Min(lo, x)) && IsMax(s, Max(hi, x));
    } else {
      assert IsMin(s, x) && IsMax(s, x);
    }
  }
}
