/** Strings as Go compares and splits them: byte order, prefixes, and decimal numerals. */
module Text {
  import opened Basics

  /** a < b in byte order. */
  predicate StrLess(a: string, b: string) {
    b != "" && (a == "" || a[0] < b[0] || (a[0] == b[0] && StrLess(a[1..], b[1..])))
  }

  predicate HasPrefix(s: string, prefix: string) {
    |prefix| <= |s| && s[..|prefix|] == prefix
  }

  predicate HasSuffix(s: string, suffix: string) {
    |suffix| <= |s| && s[|s| - |suffix|..] == suffix
  }

  lemma {:induction false} LessIrreflexive(a: string)
    ensures !StrLess(a, a)
  {
    if a != "" {
      LessIrreflexive(a[1..]);
    }
  }

  lemma {:induction false} LessTotal(a: string, b: string)
    ensures a == b || StrLess(a, b) || StrLess(b, a)
  {
    if a != "" && b != "" && a[0] == b[0] {
      LessTotal(a[1..], b[1..]);
      assert a == [a[0]] + a[1..] && b == [b[0]] + b[1..];
    }
  }

  lemma {:induction false} LessTransitive(a: string, b: string, c: string)
    requires StrLess(a, b) && StrLess(b, c)
    ensures StrLess(a, c)
  {
    if a != "" && a[0] == b[0] == c[0] {
      LessTransitive(a[1..], b[1..], c[1..]);
    }
  }

  lemma {:induction false} PrefixUnfold(s: string, p: string)
    requires s != "" && p != ""
    ensures HasPrefix(s, p) <==> s[0] == p[0] && HasPrefix(s[1..], p[1..])
  {
    if |p| <= |s| {
      assert s[..|p|] == [s[0]] + s[1..][..|p| - 1];
      assert p == [p[0]] + p[1..];
    }
  }

  /** A string is not below its own prefix. */
  lemma {:induction false} PrefixIsNotAbove(s: string, p: string)
    requires HasPrefix(s, p)
    ensures !StrLess(s, p)
  {
    if p != "" {
      PrefixUnfold(s, p);
      PrefixIsNotAbove(s[1..], p[1..]);
    }
  }

  /** Strings with prefix p lie together in byte order: past the first one without it, none has it. */
  lemma {:induction false} PrefixRunEnds(p: string, s: string, later: string)
    requires !StrLess(s, p) && !HasPrefix(s, p) && StrLess(s, later)
    ensures !HasPrefix(later, p)
  {
    if s != "" && p != "" {
      PrefixUnfold(s, p);
      PrefixUnfold(later, p);
      if s[0] == p[0] == later[0] {
        PrefixRunEnds(p[1..], s[1..], later[1..]);
      }
    }
  }

  ghost predicate Increasing(s: seq<string>) {
    forall i, j :: 0 <= i < j < |s| ==> StrLess(s[i], s[j])
  }

  // ---------------------------------------------------------------- splitting

  /** What precedes the first slash: parts[0] of strings.Split(s, "/"). */
  function FirstPart(s: string): (r: string)
    ensures '/' !in r && HasPrefix(s, r)
    ensures r == s || s[|r|] == '/'
  {
    if s == "" || s[0] == '/' then ""
    else
      var rest := FirstPart(s[1..]);
      assert s[..1 + |rest|] == [s[0]] + s[1..][..|rest|];
      [s[0]] + rest
  }

  lemma {:induction false} FirstPartOf(id: string, rest: string)
    requires '/' !in id
    ensures FirstPart(id + "/" + rest) == id
  {
    var s := id + "/" + rest;
    if id == "" {
      assert s[0] == '/';
    } else {
      assert s[0] == id[0] && id[0] in id;
      assert s[1..] == id[1..] + "/" + rest;
      FirstPartOf(id[1..], rest);
      assert id == [id[0]] + id[1..];
    }
  }

  // ---------------------------------------------------------------- numerals

  predicate IsDigit(c: char) { '0' <= c <= '9' }

  function Digit(n: nat): (c: char)
    requires n < 10
    ensures IsDigit(c)
  {
    ['0', '1', '2', '3', '4', '5', '6', '7', '8', '9'][n]
  }

  /** The decimal numeral of n (strconv.Itoa, strconv.FormatUint). */
  function Decimal(n: nat): (s: string)
    ensures s != "" && forall i :: 0 <= i < |s| ==> IsDigit(s[i])
  {
    if n < 10 then [Digit(n)] else Decimal(n / 10) + [Digit(n % 10)]
  }

  function DigitValue(c: char): nat
    requires IsDigit(c)
  {
    (c as int) - ('0' as int)
  }

  /** The value of a non-empty digit string below `limit`; None otherwise (strconv.ParseUint). */
  function ParseDecimal(s: string, limit: nat): Option<nat> {
    if s == "" || !IsDigit(s[|s| - 1]) then None
    else
      var last, front := DigitValue(s[|s| - 1]), s[..|s| - 1];
      var high := if front == "" then Some(0) else ParseDecimal(front, limit);
      if high.None? || 10 * high.value + last >= limit then None else Some(10 * high.value + last)
  }

  lemma DigitRoundTrip(n: nat)
    requires n < 10
    ensures DigitValue(Digit(n)) == n
  {
  }

  /** Reading back a numeral gives the number, or nothing if it is out of range. */
  lemma {:induction false} ParseInvertsDecimal(n: nat, limit: nat)
    ensures ParseDecimal(Decimal(n), limit) == if n < limit then Some(n) else None
  {
    DigitRoundTrip(n % 10);
    if n >= 10 {
      ParseInvertsDecimal(n / 10, limit);
      assert Decimal(n)[..|Decimal(n)| - 1] == Decimal(n / 10);
      assert n == 10 * (n / 10) + n % 10;
    } else {
      assert Decimal(n)[..0] == "";
    }
  }

  /** Only digits are read, and the value is below the limit. */
  lemma {:induction false} ParsedAreDigits(s: string, limit: nat)
    requires ParseDecimal(s, limit).Some?
    ensures s != "" && ParseDecimal(s, limit).value < limit && forall i :: 0 <= i < |s| ==> IsDigit(s[i])
  {
    if |s| > 1 {
      ParsedAreDigits(s[..|s| - 1], limit);
    }
  }

  /** Only zero has the numeral "0", and no other numeral starts with the digit 0. */
  lemma {:induction false} LeadingZero(n: nat)
    ensures Decimal(n)[0] == '0' <==> n == 0
    ensures Decimal(n) == "0" <==> n == 0
  {
    if n >= 10 {
      LeadingZero(n / 10);
      assert Decimal(n)[0] == Decimal(n / 10)[0];
    }
  }
}
