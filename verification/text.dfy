/** Python `str` operations the pipeline relies on, over `seq<char>`.
    Only ASCII letters are case-folded, only ASCII digits count as `\d`,
    and only ASCII whitespace (plus the separators 0x1C-0x1F) is stripped. */
module Text {
  import opened Options

  // ---------------------------------------------------------------------
  // Characters

  predicate IsDigit(c: char) {
    '0' <= c <= '9'
  }

  predicate AllDigits(s: string) {
    forall i | 0 <= i < |s| :: IsDigit(s[i])
  }

  predicate IsSpace(c: char) {
    c == ' ' || 9 <= c as int <= 13 || 28 <= c as int <= 31
  }

  function LowerChar(c: char): char {
    if 'A' <= c <= 'Z' then (c as int + 32) as char else c
  }

  /** `s.lower()` */
  function Lower(s: string): (r: string)
    ensures |r| == |s|
    ensures forall i | 0 <= i < |s| :: r[i] == LowerChar(s[i])
  {
    seq(|s|, i requires 0 <= i < |s| => LowerChar(s[i]))
  }

  lemma LowerConcat(a: string, b: string)
    ensures Lower(a + b) == Lower(a) + Lower(b)
  {
  }

  // ---------------------------------------------------------------------
  // Counting and repetition

  /** `s.count(c)` for a one-character needle. */
  function Count(s: string, c: char): (n: nat)
    ensures n <= |s|
    ensures n == 0 <==> c !in s
  {
    if |s| == 0 then 0
    else
      assert s == [s[0]] + s[1..];
      (if s[0] == c then 1 else 0) + Count(s[1..], c)
  }

  lemma {:induction false} CountConcat(a: string, b: string, c: char)
    ensures Count(a + b, c) == Count(a, c) + Count(b, c)
  {
    if |a| == 0 {
      assert a + b == b;
    } else {
      assert (a + b)[1..] == a[1..] + b;
      CountConcat(a[1..], b, c);
    }
  }

  /** `[c] * n` as Python evaluates it: empty when `n` is not positive. */
  function Repeat(c: char, n: int): (r: string)
    ensures |r| == if n > 0 then n else 0
    ensures forall i | 0 <= i < |r| :: r[i] == c
  {
    if n <= 0 then "" else [c] + Repeat(c, n - 1)
  }

  lemma {:induction false} CountRepeat(c: char, d: char, n: int)
    ensures Count(Repeat(c, n), d) == if c == d && n > 0 then n else 0
  {
    if n > 0 {
      assert Repeat(c, n)[1..] == Repeat(c, n - 1);
      CountRepeat(c, d, n - 1);
    }
  }

  // ---------------------------------------------------------------------
  // Searching

  /** `s.find(c)`: the index of the first `c`, or -1. */
  function Find(s: string, c: char): (r: int)
    ensures -1 <= r < |s|
    ensures r == -1 <==> c !in s
    ensures r >= 0 ==> s[r] == c && c !in s[..r]
  {
    if |s| == 0 then -1
    else if s[0] == c then 0
    else
      var t := Find(s[1..], c);
      assert s == [s[0]] + s[1..];
      if t == -1 then -1
      else
        assert s[..t + 1] == [s[0]] + s[1..][..t];
        t + 1
  }

  /** `s.rfind(c)`: the index of the last `c`, or -1. */
  function RFind(s: string, c: char): (r: int)
    ensures -1 <= r < |s|
    ensures r == -1 <==> c !in s
    ensures r >= 0 ==> s[r] == c && c !in s[r + 1..]
  {
    if |s| == 0 then -1
    else if s[|s| - 1] == c then |s| - 1
    else
      var t := RFind(s[..|s| - 1], c);
      assert s == s[..|s| - 1] + [s[|s| - 1]];
      assert t >= 0 ==> s[t + 1..] == s[..|s| - 1][t + 1..] + [s[|s| - 1]];
      t
  }

  predicate StartsWith(s: string, p: string) {
    |p| <= |s| && s[..|p|] == p
  }

  predicate OccursAt(s: string, p: string, i: int) {
    0 <= i && i + |p| <= |s| && s[i..i + |p|] == p
  }

  /** Python's `p in s` for strings (the empty string occurs everywhere). */
  predicate IsSubstring(p: string, s: string) {
    exists i | 0 <= i <= |s| :: OccursAt(s, p, i)
  }

  lemma SubstringOfConcat(p: string, a: string, b: string, c: string)
    requires IsSubstring(p, b)
    ensures IsSubstring(p, a + b + c)
  {
    var i :| 0 <= i <= |b| && OccursAt(b, p, i);
    assert (a + b + c)[|a| + i..|a| + i + |p|] == b[i..i + |p|];
    assert OccursAt(a + b + c, p, |a| + i);
  }

  lemma SubstringOfItself(p: string)
    ensures IsSubstring(p, p)
  {
    assert OccursAt(p, p, 0);
  }

  // ---------------------------------------------------------------------
  // Stripping

  /** How many whitespace characters `s` starts with. */
  function LeadingSpaces(s: string): (n: nat)
    ensures n <= |s|
    ensures forall i | 0 <= i < n :: IsSpace(s[i])
    ensures n == |s| || !IsSpace(s[n])
  {
    if |s| > 0 && IsSpace(s[0]) then 1 + LeadingSpaces(s[1..]) else 0
  }

  /** How many whitespace characters `s` ends with. */
  function TrailingSpaces(s: string): (n: nat)
    ensures n <= |s|
    ensures forall i | |s| - n <= i < |s| :: IsSpace(s[i])
    ensures n == |s| || !IsSpace(s[|s| - n - 1])
  {
    if |s| > 0 && IsSpace(s[|s| - 1]) then 1 + TrailingSpaces(s[..|s| - 1]) else 0
  }

  /** `s.strip()`: `lstrip()`, then `rstrip()` of what is left. */
  function Strip(s: string): (r: string)
    ensures |r| == 0 || (!IsSpace(r[0]) && !IsSpace(r[|r| - 1]))
    ensures IsSubstring(r, s)
  {
    var a := LeadingSpaces(s);
    var l := s[a..];
    var r := l[..|l| - TrailingSpaces(l)];
    assert OccursAt(s, r, a);
    r
  }

  /** `strip()` removes whitespace at the two ends of `s` and nothing else:
      the result is the slice of `s` starting after its leading whitespace,
      and everything from the end of that slice on is whitespace. */
  lemma StripTrims(s: string)
    ensures var r := Strip(s); var a := LeadingSpaces(s);
      && a + |r| <= |s|
      && r == s[a..a + |r|]
      && (forall i | 0 <= i < a :: IsSpace(s[i]))
      && (forall i | a + |r| <= i < |s| :: IsSpace(s[i]))
  {
    StripIsSlice(s);
    StripDropsOnlySpaces(s);
  }

  /** The stripped text is the slice of `s` after its leading whitespace. */
  lemma StripIsSlice(s: string)
    ensures var a := LeadingSpaces(s);
      a + |Strip(s)| <= |s| && Strip(s) == s[a..a + |Strip(s)|]
  {
    var a := LeadingSpaces(s);
    var l := s[a..];
    SliceOfSuffix(s, a, |l| - TrailingSpaces(l));
  }

  /** A prefix of a suffix is a slice of the whole. */
  lemma SliceOfSuffix<T>(s: seq<T>, a: nat, m: nat)
    requires a + m <= |s|
    ensures s[a..][..m] == s[a..a + m]
  {
  }

  /** Everything after the stripped text is whitespace. */
  lemma StripDropsOnlySpaces(s: string)
    ensures forall i | LeadingSpaces(s) + |Strip(s)| <= i < |s| :: IsSpace(s[i])
  {
    var a := LeadingSpaces(s);
    var l := s[a..];
    var n := TrailingSpaces(l);
    assert |Strip(s)| == |l| - n;
    forall i | a + |l| - n <= i < |s| ensures IsSpace(s[i]) {
      assert s[i] == l[i - a];
    }
  }

  /** A key without surrounding blanks survives `strip()` unchanged. */
  lemma StripUnpadded(s: string)
    requires |s| == 0 || (!IsSpace(s[0]) && !IsSpace(s[|s| - 1]))
    ensures Strip(s) == s
  {
  }

  // ---------------------------------------------------------------------
  // Digits and decimal text

  function DigitValue(c: char): nat
    requires IsDigit(c)
  {
    c as int - '0' as int
  }

  /** `int(s)` for a non-empty run of ASCII digits (0 for the empty run). */
  function DigitsValue(s: string): nat
    requires AllDigits(s)
  {
    if |s| == 0 then 0 else DigitsValue(s[..|s| - 1]) * 10 + DigitValue(s[|s| - 1])
  }

  /** The longest all-digit prefix: what an anchored `\d+` consumes. */
  function LeadingDigits(s: string): (r: string)
    ensures |r| <= |s| && r == s[..|r|]
    ensures AllDigits(r)
    ensures |r| < |s| ==> !IsDigit(s[|r|])
  {
    if |s| > 0 && IsDigit(s[0]) then [s[0]] + LeadingDigits(s[1..]) else ""
  }

  /** The digit run at the front of a number written out and followed by
      a non-digit is exactly that number's digits. */
  lemma {:induction false} LeadingDigitsOfNumber(digits: string, rest: string)
    requires AllDigits(digits)
    requires |rest| == 0 || !IsDigit(rest[0])
    ensures LeadingDigits(digits + rest) == digits
  {
    if |digits| > 0 {
      assert (digits + rest)[1..] == digits[1..] + rest;
      LeadingDigitsOfNumber(digits[1..], rest);
    } else {
      assert digits + rest == rest;
    }
  }

  /** `re.match(r"(\d+)", s)` followed by `int(m.group(1))`. */
  function MatchLeadingInt(s: string): (r: Option<nat>)
    ensures r.None? <==> |s| == 0 || !IsDigit(s[0])
    ensures r.Some? ==> r.value == DigitsValue(LeadingDigits(s))
  {
    if |s| > 0 && IsDigit(s[0]) then Some(DigitsValue(LeadingDigits(s))) else None
  }

  /** Index of the first ASCII digit of `s`, or -1. */
  function FirstDigit(s: string): (r: int)
    ensures -1 <= r < |s|
    ensures r == -1 <==> forall i | 0 <= i < |s| :: !IsDigit(s[i])
    ensures r >= 0 ==> IsDigit(s[r]) && forall i | 0 <= i < r :: !IsDigit(s[i])
  {
    if |s| == 0 then -1
    else if IsDigit(s[0]) then 0
    else
      var t := FirstDigit(s[1..]);
      if t == -1 then -1 else t + 1
  }

  /** `re.search(r"\d+", s)` followed by `int(match.group())`: the value of
      the leftmost maximal digit run, wherever it starts. */
  function SearchInt(s: string): (r: Option<nat>)
    ensures r.None? <==> forall i | 0 <= i < |s| :: !IsDigit(s[i])
    ensures r.Some? ==> exists i | 0 <= i < |s| ::
      && IsDigit(s[i])
      && (forall j | 0 <= j < i :: !IsDigit(s[j]))
      && r.value == DigitsValue(LeadingDigits(s[i..]))
  {
    var i := FirstDigit(s);
    if i == -1 then None else Some(DigitsValue(LeadingDigits(s[i..])))
  }

  /** Searching text whose first digits are a number written out finds
      that number. */
  lemma SearchIntFinds(prefix: string, n: nat, suffix: string)
    requires forall i | 0 <= i < |prefix| :: !IsDigit(prefix[i])
    requires |suffix| == 0 || !IsDigit(suffix[0])
    ensures SearchInt(prefix + NatToString(n) + suffix) == Some(n)
  {
    var s := prefix + (NatToString(n) + suffix);
    assert s == prefix + NatToString(n) + suffix;
    FirstDigitAfter(prefix, NatToString(n) + suffix);
    assert s[|prefix|..] == NatToString(n) + suffix;
    LeadingDigitsOfNumber(NatToString(n), suffix);
    NatToStringRoundTrip(n);
  }

  /** Any digit run after digit-free text and before a non-digit is read as
      its value, leading zeros included. */
  lemma SearchIntReadsRun(prefix: string, digits: string, suffix: string)
    requires forall i | 0 <= i < |prefix| :: !IsDigit(prefix[i])
    requires |digits| > 0 && AllDigits(digits)
    requires |suffix| == 0 || !IsDigit(suffix[0])
    ensures SearchInt(prefix + digits + suffix) == Some(DigitsValue(digits))
  {
    var s := prefix + (digits + suffix);
    assert s == prefix + digits + suffix;
    FirstDigitAfter(prefix, digits + suffix);
    assert s[|prefix|..] == digits + suffix;
    LeadingDigitsOfNumber(digits, suffix);
  }

  /** Leading zeros do not change the value of a digit run: `int("007") == 7`. */
  lemma {:induction false} LeadingZerosIgnored(k: nat, digits: string)
    requires AllDigits(digits)
    ensures AllDigits(Repeat('0', k) + digits)
    ensures DigitsValue(Repeat('0', k) + digits) == DigitsValue(digits)
    decreases k + |digits|
  {
    var z := Repeat('0', k);
    var s := z + digits;
    if |digits| == 0 {
      assert s == z;
      if k > 0 {
        assert z[..|z| - 1] == Repeat('0', k - 1);
        LeadingZerosIgnored(k - 1, "");
        assert Repeat('0', k - 1) + "" == Repeat('0', k - 1);
      }
    } else {
      var init := digits[..|digits| - 1];
      assert s[..|s| - 1] == z + init;
      assert s[|s| - 1] == digits[|digits| - 1];
      LeadingZerosIgnored(k, init);
    }
  }

  lemma FirstDigitAfter(prefix: string, rest: string)
    requires forall i | 0 <= i < |prefix| :: !IsDigit(prefix[i])
    requires |rest| > 0 && IsDigit(rest[0])
    ensures FirstDigit(prefix + rest) == |prefix|
  {
    var s := prefix + rest;
    var i := FirstDigit(s);
    assert s[|prefix|] == rest[0];
  }

  function DigitChar(d: nat): (c: char)
    requires d < 10
    ensures IsDigit(c) && DigitValue(c) == d
  {
    ('0' as int + d) as char
  }

  /** `str(n)` for a natural number. */
  function NatToString(n: nat): (r: string)
    ensures |r| > 0 && AllDigits(r)
  {
    if n < 10 then [DigitChar(n)] else NatToString(n / 10) + [DigitChar(n % 10)]
  }

  /** Decimal text read back as a number gives the number it was written from. */
  lemma {:induction false} NatToStringRoundTrip(n: nat)
    ensures DigitsValue(NatToString(n)) == n
  {
    if n >= 10 {
      var s := NatToString(n);
      assert s[..|s| - 1] == NatToString(n / 10);
      NatToStringRoundTrip(n / 10);
    }
  }

  /** `str(i)` for any integer. */
  function IntToString(i: int): (r: string)
    ensures |r| > 0
    ensures i >= 0 ==> AllDigits(r)
    ensures i < 0 ==> r[0] == '-' && AllDigits(r[1..])
  {
    if i >= 0 then NatToString(i) else "-" + NatToString(-i)
  }

  // ---------------------------------------------------------------------
  // Sequences of strings

  /** `sep.join(xs)` */
  function Join(xs: seq<string>, sep: string): string
  {
    if |xs| == 0 then ""
    else if |xs| == 1 then xs[0]
    else xs[0] + sep + Join(xs[1..], sep)
  }

  /** `xs[:n]` */
  function Take<T>(xs: seq<T>, n: nat): (r: seq<T>)
    ensures |r| == if n < |xs| then n else |xs|
    ensures r == xs[..|r|]
  {
    if n < |xs| then xs[..n] else xs
  }

  /** `xs` occurs in `ys` in order, possibly with gaps. */
  predicate IsSubsequence<T(==)>(xs: seq<T>, ys: seq<T>)
  {
    if |xs| == 0 then true
    else if |ys| == 0 then false
    else if xs[0] == ys[0] then IsSubsequence(xs[1..], ys[1..])
    else IsSubsequence(xs, ys[1..])
  }

  /** `[x for x in xs if p(x)]` */
  function Filter<T>(xs: seq<T>, p: T -> bool): (r: seq<T>)
    ensures |r| <= |xs|
    ensures forall x | x in r :: x in xs && p(x)
    ensures forall x | x in xs && p(x) :: x in r
  {
    if |xs| == 0 then []
    else
      assert xs == [xs[0]] + xs[1..];
      (if p(xs[0]) then [xs[0]] else []) + Filter(xs[1..], p)
  }

  /** The filter keeps every copy of an element that passes and none of
      one that fails. */
  lemma {:induction false} FilterCounts<T>(xs: seq<T>, p: T -> bool)
    ensures forall x :: multiset(Filter(xs, p))[x] == if p(x) then multiset(xs)[x] else 0
  {
    if |xs| > 0 {
      FilterCounts(xs[1..], p);
      assert xs == [xs[0]] + xs[1..];
      assert multiset(xs) == multiset([xs[0]]) + multiset(xs[1..]);
      var head := if p(xs[0]) then [xs[0]] else [];
      assert Filter(xs, p) == head + Filter(xs[1..], p);
      assert multiset(Filter(xs, p)) == multiset(head) + multiset(Filter(xs[1..], p));
    }
  }

  lemma {:induction false} FilterIsSubsequence<T>(xs: seq<T>, p: T -> bool)
    ensures IsSubsequence(Filter(xs, p), xs)
  {
    if |xs| > 0 {
      FilterIsSubsequence(xs[1..], p);
      if !p(xs[0]) {
        assert Filter(xs, p) == Filter(xs[1..], p);
        SubsequenceOfTail(Filter(xs[1..], p), xs);
      } else {
        assert Filter(xs, p)[1..] == Filter(xs[1..], p);
      }
    }
  }

  /** Filtering a concatenation filters each part. */
  lemma {:induction false} FilterConcat<T>(xs: seq<T>, ys: seq<T>, p: T -> bool)
    ensures Filter(xs + ys, p) == Filter(xs, p) + Filter(ys, p)
  {
    if |xs| > 0 {
      assert (xs + ys)[1..] == xs[1..] + ys;
      FilterConcat(xs[1..], ys, p);
    } else {
      assert xs + ys == ys;
    }
  }

  /** Dropping the head of the longer sequence keeps a subsequence a subsequence. */
  lemma {:induction false} SubsequenceOfTail<T>(xs: seq<T>, ys: seq<T>)
    requires |ys| > 0 && IsSubsequence(xs, ys[1..])
    ensures IsSubsequence(xs, ys)
    decreases |xs| + |ys|
  {
    if |xs| > 0 && xs[0] == ys[0] {
      // `xs[1..]` is a subsequence of `ys[1..]` because `xs` is.
      SubsequenceDropHead(xs, ys[1..]);
    }
  }

  lemma {:induction false} SubsequenceDropHead<T>(xs: seq<T>, ys: seq<T>)
    requires |xs| > 0 && IsSubsequence(xs, ys)
    ensures IsSubsequence(xs[1..], ys)
    decreases |xs| + |ys|
  {
    if xs[0] == ys[0] {
      if |xs[1..]| > 0 {
        SubsequenceDropHead(xs[1..], ys[1..]);
        SubsequenceOfTail(xs[1..], ys);
      }
    } else {
      SubsequenceDropHead(xs, ys[1..]);
      if |xs[1..]| > 0 {
        SubsequenceOfTail(xs[1..], ys);
      }
    }
  }
}
