/**
 * The handful of Python built-ins whose exact behaviour the trajectory pipeline
 * depends on: slicing with out-of-range bounds, `round` (ties to even),
 * `int()` of a string, `str.split` on one separator and the `in` test on strings.
 */
module PyOps {

  datatype Option<T> = None | Some(value: T)

  datatype Result<T, E> = Ok(value: T) | Err(error: E) {
    predicate IsFailure() { Err? }
    function PropagateFailure<U>(): Result<U, E> requires Err? { Err(error) }
    function Extract(): T requires Ok? { value }
  }

  function Max(a: int, b: int): int { if a < b then b else a }

  predicate Distinct<T(==)>(s: seq<T>) {
    forall i, j :: 0 <= i < j < |s| ==> s[i] != s[j]
  }

  /** A sequence repeats nothing exactly when no element occurs twice in its multiset. */
  lemma {:induction false} DistinctIffSingleCounts<T>(s: seq<T>)
    ensures Distinct(s) <==> forall x :: multiset(s)[x] <= 1
  {
    if s != [] {
      var init, last := s[..|s| - 1], s[|s| - 1];
      assert s == init + [last];
      DistinctIffSingleCounts(init);
      if Distinct(s) {
        assert last !in init;
      } else {
        var i, j :| 0 <= i < j < |s| && s[i] == s[j];
        if j == |s| - 1 {
          assert init[i] == last;
          assert multiset(s)[last] == multiset(init)[last] + 1;
        } else {
          assert !Distinct(init);
          var x :| multiset(init)[x] > 1;
          assert multiset(s)[x] >= multiset(init)[x];
        }
      }
    }
  }

  /** Two repetition-free sequences with the same elements have the same multiset. */
  lemma SameElementsSameMultiset<T>(a: seq<T>, b: seq<T>)
    requires Distinct(a) && Distinct(b)
    requires forall x :: x in a <==> x in b
    ensures multiset(a) == multiset(b)
  {
    DistinctIffSingleCounts(a);
    DistinctIffSingleCounts(b);
    forall x ensures multiset(a)[x] == multiset(b)[x] {
      assert x in a <==> multiset(a)[x] > 0;
      assert x in b <==> multiset(b)[x] > 0;
    }
  }

  /** How Python normalises one bound of `s[a:b]` for a sequence of length `n`. */
  function SliceBound(i: int, n: nat): (b: nat)
    ensures b <= n
    ensures 0 <= i <= n ==> b == i
    ensures n < i ==> b == n
    ensures -(n as int) <= i < 0 ==> b == n + i
    ensures i < -(n as int) ==> b == 0
  {
    if i < 0 then (if n + i < 0 then 0 else n + i)
    else if i > n then n
    else i
  }

  /** `s[a:b]` as Python evaluates it: never fails, empty when the start passes the stop. */
  function Slice<T>(s: seq<T>, a: int, b: int): (r: seq<T>)
    ensures |r| == Max(0, SliceBound(b, |s|) - SliceBound(a, |s|))
    ensures forall k :: 0 <= k < |r| ==> r[k] == s[SliceBound(a, |s|) + k]
  {
    var lo, hi := SliceBound(a, |s|), SliceBound(b, |s|);
    if lo <= hi then s[lo..hi] else []
  }

  lemma SliceInRange<T>(s: seq<T>, a: int, b: int)
    requires 0 <= a <= b <= |s|
    ensures Slice(s, a, b) == s[a..b]
  {
  }

  /** `s[idx]` as Python indexes a list or an array: negative indices count from the end, and
      `None` stands for the IndexError of an index outside `-len(s) .. len(s) - 1`. */
  function PyIndex<T>(s: seq<T>, idx: int): (r: Option<T>)
    ensures r.Some? <==> -|s| <= idx < |s|
    ensures 0 <= idx < |s| ==> r == Some(s[idx])
    ensures -|s| <= idx < 0 ==> r == Some(s[|s| + idx])
  {
    if 0 <= idx < |s| then Some(s[idx])
    else if -|s| <= idx < 0 then Some(s[|s| + idx])
    else None
  }

  /** Python 3 `round(x)`: the nearest integer, ties going to the even one. */
  function RoundHalfEven(x: real): (r: int)
    ensures -0.5 <= x - r as real <= 0.5
    ensures (x - r as real == 0.5 || r as real - x == 0.5) ==> r % 2 == 0
  {
    var f := x.Floor;
    var d := x - f as real;
    if d < 0.5 then f
    else if d > 0.5 then f + 1
    else if f % 2 == 0 then f
    else f + 1
  }

  lemma RoundOfInteger(n: int)
    ensures RoundHalfEven(n as real) == n
  {
  }

  /** Rounding never reverses the order of two reals. */
  lemma RoundMonotone(x: real, y: real)
    requires x <= y
    ensures RoundHalfEven(x) <= RoundHalfEven(y)
  {
    var fx, fy := x.Floor, y.Floor;
    if fx < fy {
      assert RoundHalfEven(x) <= fx + 1 <= fy <= RoundHalfEven(y);
    } else {
      assert x - fx as real <= y - fy as real;
    }
  }

  /** `round(a / 4)` computed on integers: the quotient by four rounded half to even. */
  function RoundQuarter(a: int): (r: int)
    ensures -2 <= a - 4 * r <= 2
    ensures (a - 4 * r == 2 || a - 4 * r == -2) ==> r % 2 == 0
  {
    var q, m := a / 4, a % 4;
    if m < 2 then q
    else if m > 2 then q + 1
    else if q % 2 == 0 then q
    else q + 1
  }

  /** The integer version agrees with Python's `round` of the exact quotient. */
  lemma RoundQuarterIsRound(a: int)
    ensures RoundQuarter(a) == RoundHalfEven(a as real / 4.0)
  {
    var r, x := RoundQuarter(a), a as real / 4.0;
    assert x - r as real == (a - 4 * r) as real / 4.0;
    var t := RoundHalfEven(x);
    assert -2 <= a - 4 * t <= 2 by {
      assert x - t as real == (a - 4 * t) as real / 4.0;
    }
    assert (a - 4 * t == 2 || a - 4 * t == -2) ==> t % 2 == 0 by {
      assert x - t as real == (a - 4 * t) as real / 4.0;
    }
  }

  lemma RoundQuarterMonotone(a: int, b: int)
    requires a <= b
    ensures RoundQuarter(a) <= RoundQuarter(b)
  {
  }

  /** A count rounded after scaling by a ratio in [0, 1] stays within [0, k]. */
  lemma RoundedShareBounds(k: nat, ratio: real)
    requires 0.0 <= ratio <= 1.0
    ensures 0 <= RoundHalfEven(k as real * ratio) <= k
  {
    assert 0.0 <= k as real * ratio <= k as real by {
      assert k as real * (1.0 - ratio) >= 0.0;
    }
    RoundMonotone(0.0, k as real * ratio);
    RoundMonotone(k as real * ratio, k as real);
    RoundOfInteger(0);
    RoundOfInteger(k);
  }

  predicate IsDigit(c: char) { '0' <= c <= '9' }

  /** The characters of the regular-expression class `\w` in its ASCII form. */
  predicate IsWordChar(c: char) {
    IsDigit(c) || ('a' <= c <= 'z') || ('A' <= c <= 'Z') || c == '_'
  }

  predicate AllDigits(s: string) { forall i :: 0 <= i < |s| ==> IsDigit(s[i]) }

  /** The strings `int()` accepts among those made of word characters:
      digits, with single underscores allowed between two digits. */
  predicate IntLiteral(s: string) {
    && |s| > 0
    && IsDigit(s[0])
    && IsDigit(s[|s| - 1])
    && (forall i :: 0 <= i < |s| ==> IsDigit(s[i]) || s[i] == '_')
    && (forall i :: 0 <= i < |s| - 1 ==> s[i] == '_' ==> IsDigit(s[i + 1]))
  }

  function DropUnderscores(s: string): (r: string)
    ensures forall i :: 0 <= i < |r| ==> r[i] != '_'
    ensures (forall i :: 0 <= i < |s| ==> IsDigit(s[i]) || s[i] == '_') ==> AllDigits(r)
    ensures '_' !in s ==> r == s
  {
    if s == [] then []
    else if s[|s| - 1] == '_' then DropUnderscores(s[..|s| - 1])
    else DropUnderscores(s[..|s| - 1]) + [s[|s| - 1]]
  }

  /** The value of a string of decimal digits, most significant first. */
  function DecimalValue(s: string): nat
    requires AllDigits(s)
  {
    if s == [] then 0
    else DecimalValue(s[..|s| - 1]) * 10 + (s[|s| - 1] as int - '0' as int)
  }

  /** `int(s)` for a string of word characters: `None` stands for the ValueError. */
  function ParseInt(s: string): (r: Option<nat>)
    ensures r.Some? <==> IntLiteral(s)
  {
    if IntLiteral(s) then Some(DecimalValue(DropUnderscores(s))) else None
  }

  function DigitChar(d: nat): (c: char)
    requires d < 10
    ensures IsDigit(c) && c as int - '0' as int == d
  {
    ('0' as int + d) as char
  }

  /** `str(n)` for a natural number: its decimal digits without leading zeros. */
  function Decimal(n: nat): (s: string)
    ensures |s| > 0 && AllDigits(s)
  {
    if n < 10 then [DigitChar(n)] else Decimal(n / 10) + [DigitChar(n % 10)]
  }

  lemma {:induction false} DecimalValueOfDecimal(n: nat)
    ensures DecimalValue(Decimal(n)) == n
  {
    if n >= 10 {
      DecimalValueOfDecimal(n / 10);
      var s := Decimal(n);
      assert s[..|s| - 1] == Decimal(n / 10);
    }
  }

  /** `int(str(n)) == n`. */
  lemma ParseIntOfDecimal(n: nat)
    ensures ParseInt(Decimal(n)) == Some(n)
  {
    var s := Decimal(n);
    assert IntLiteral(s);
    DecimalValueOfDecimal(n);
  }

  /** A non-empty string of plain digits always converts, to its decimal value. */
  lemma ParseIntOfDigits(s: string)
    requires |s| > 0 && AllDigits(s)
    ensures ParseInt(s) == Some(DecimalValue(s))
  {
    assert forall i | 0 <= i < |s| :: s[i] != '_';
    assert '_' !in s;
  }

  /** `s.split(sep)` for a one-character separator. */
  function SplitOn(s: string, sep: char): (parts: seq<string>)
    ensures |parts| >= 1
    ensures forall i :: 0 <= i < |parts| ==> sep !in parts[i]
  {
    if s == [] then [""]
    else
      var rest := SplitOn(s[1..], sep);
      if s[0] == sep then [""] + rest
      else [[s[0]] + rest[0]] + rest[1..]
  }

  /** `sep.join(parts)`. */
  function JoinWith(parts: seq<string>, sep: char): string
    requires |parts| >= 1
  {
    if |parts| == 1 then parts[0] else parts[0] + [sep] + JoinWith(parts[1..], sep)
  }

  /** Splitting and re-joining gives back the string. */
  lemma {:induction false} JoinOfSplit(s: string, sep: char)
    ensures JoinWith(SplitOn(s, sep), sep) == s
  {
    if s != [] {
      JoinOfSplit(s[1..], sep);
      var rest := SplitOn(s[1..], sep);
      if s[0] != sep {
        if |rest| > 1 {
          assert JoinWith(rest, sep) == rest[0] + [sep] + JoinWith(rest[1..], sep);
        }
      }
    }
  }

  /** Joining separator-free parts and splitting again gives back the parts. */
  lemma {:induction false} SplitOfJoin(parts: seq<string>, sep: char)
    requires |parts| >= 1
    requires forall i :: 0 <= i < |parts| ==> sep !in parts[i]
    ensures SplitOn(JoinWith(parts, sep), sep) == parts
  {
    if |parts| == 1 {
      SplitOfPlain(parts[0], sep);
    } else {
      SplitOfJoin(parts[1..], sep);
      SplitOfPrefix(parts[0], JoinWith(parts[1..], sep), sep);
    }
  }

  lemma {:induction false} SplitOfPlain(s: string, sep: char)
    requires sep !in s
    ensures SplitOn(s, sep) == [s]
  {
    if s != [] {
      SplitOfPlain(s[1..], sep);
      assert [s[0]] + s[1..] == s;
    }
  }

  lemma {:induction false} SplitOfPrefix(p: string, t: string, sep: char)
    requires sep !in p
    ensures SplitOn(p + [sep] + t, sep) == [p] + SplitOn(t, sep)
  {
    if p == [] {
      assert ([sep] + t)[1..] == t;
    } else {
      assert (p + [sep] + t)[0] == p[0];
      assert (p + [sep] + t)[1..] == p[1..] + [sep] + t;
      SplitOfPrefix(p[1..], t, sep);
      assert [p[0]] + p[1..] == p;
    }
  }

  /** `t in s` for two strings. */
  predicate HasSubstring(s: string, t: string)
    decreases |s|
  {
    |t| <= |s| && (s[..|t|] == t || HasSubstring(s[1..], t))
  }

  predicate OccursAt(s: string, t: string, i: int) {
    0 <= i <= |s| - |t| && s[i..i + |t|] == t
  }

  /** The recursive test finds `t` exactly when it occurs at some position of `s`. */
  lemma {:induction false} HasSubstringIff(s: string, t: string)
    ensures HasSubstring(s, t) <==> exists i :: OccursAt(s, t, i)
    decreases |s|
  {
    if |t| <= |s| && s[..|t|] == t {
      assert OccursAt(s, t, 0);
    } else if |t| <= |s| && |s| > 0 {
      HasSubstringIff(s[1..], t);
      if exists i :: OccursAt(s, t, i) {
        var i :| OccursAt(s, t, i);
        assert i > 0;
        assert s[1..][i - 1..i - 1 + |t|] == s[i..i + |t|];
        assert OccursAt(s[1..], t, i - 1);
      }
      if HasSubstring(s[1..], t) {
        var i :| OccursAt(s[1..], t, i);
        assert s[1..][i..i + |t|] == s[i + 1..i + 1 + |t|];
        assert OccursAt(s, t, i + 1);
      }
    }
  }
}
