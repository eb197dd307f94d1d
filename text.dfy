/** The string operations of Go's standard library that the core relies on:
    `strings.Split`, `strings.Cut`/`strings.SplitN(_, _, 2)`, `strings.ReplaceAll` with an empty
    replacement, `strings.HasPrefix`, `strings.ToLower` (over a per-code-point lowering), `%d` formatting and
    `strconv.Atoi`. */
module Text {
  import opened Wrappers

  const MaxInt64: int := 0x7fff_ffff_ffff_ffff
  const MinInt64: int := -0x8000_0000_0000_0000

  predicate IsDigit(c: char) { '0' <= c <= '9' }

  predicate AllDigits(s: string) { forall i :: 0 <= i < |s| ==> IsDigit(s[i]) }

  function DigitValue(c: char): int
    requires IsDigit(c)
  {
    c as int - '0' as int
  }

  function DigitChar(d: int): char
    requires 0 <= d < 10
  {
    ('0' as int + d) as char
  }

  /** Decimal digits of `n`, most significant first, with no leading zero. */
  function NatToString(n: nat): (s: string)
    ensures |s| >= 1 && AllDigits(s)
    ensures n >= 1 ==> s[0] != '0'
  {
    if n < 10 then [DigitChar(n)] else NatToString(n / 10) + [DigitChar(n % 10)]
  }

  /** The number a non-empty string of decimal digits denotes. */
  function DigitsValue(s: string): nat
    requires AllDigits(s)
  {
    if s == [] then 0 else DigitsValue(s[..|s| - 1]) * 10 + DigitValue(s[|s| - 1])
  }

  lemma {:induction false} DigitsValueOfNatToString(n: nat)
    ensures DigitsValue(NatToString(n)) == n
  {
    if n >= 10 {
      var s := NatToString(n);
      assert s[..|s| - 1] == NatToString(n / 10);
      DigitsValueOfNatToString(n / 10);
    }
  }

  lemma NatToStringInjective(m: nat, n: nat)
    requires NatToString(m) == NatToString(n)
    ensures m == n
  {
    DigitsValueOfNatToString(m);
    DigitsValueOfNatToString(n);
  }

  /** Go's `%d` verb applied to an `int`. */
  function IntToString(i: int): string
  {
    if i < 0 then "-" + NatToString(-i) else NatToString(i)
  }

  lemma IntToStringInjective(i: int, j: int)
    requires IntToString(i) == IntToString(j)
    ensures i == j
  {
    assert (i < 0) == (IntToString(i)[0] == '-');
    assert (j < 0) == (IntToString(j)[0] == '-');
    if i < 0 {
      assert IntToString(i)[1..] == NatToString(-i);
      assert IntToString(j)[1..] == NatToString(-j);
      NatToStringInjective(-i, -j);
    } else {
      NatToStringInjective(i, j);
    }
  }

  /** Go's `strconv.Atoi` on a 64-bit platform: an optional sign, then one or more decimal digits,
      and a value that fits in 64 bits. */
  function Atoi(s: string): Result<int>
  {
    var signed := |s| > 0 && (s[0] == '+' || s[0] == '-');
    var digits := if signed then s[1..] else s;
    if digits == [] || !AllDigits(digits) then
      Err("strconv.Atoi: parsing \"" + s + "\": invalid syntax")
    else
      var v: int := if signed && s[0] == '-' then -(DigitsValue(digits) as int) else DigitsValue(digits) as int;
      if v < MinInt64 || MaxInt64 < v then Err("strconv.Atoi: parsing \"" + s + "\": value out of range")
      else Ok(v)
  }

  /** `%d` and `strconv.Atoi` are inverse on every 64-bit integer. */
  lemma AtoiIntToString(i: int)
    requires MinInt64 <= i <= MaxInt64
    ensures Atoi(IntToString(i)) == Ok(i)
  {
    var s := IntToString(i);
    if i < 0 {
      assert s[0] == '-' && s[1..] == NatToString(-i);
      DigitsValueOfNatToString(-i);
      assert DigitsValue(s[1..]) == -i;
    } else {
      assert s == NatToString(i) && IsDigit(s[0]);
      DigitsValueOfNatToString(i);
      assert DigitsValue(s) == i;
    }
  }

  /** Go's `strings.Split(s, string(sep))`: the pieces between separators, always at least one. */
  function Split(s: string, sep: char): (parts: seq<string>)
    ensures |parts| >= 1
  {
    if s == [] then [""]
    else
      var rest := Split(s[1..], sep);
      if s[0] == sep then [""] + rest else [[s[0]] + rest[0]] + rest[1..]
  }

  lemma {:induction false} SplitNoSeparator(s: string, sep: char)
    requires sep !in s
    ensures Split(s, sep) == [s]
  {
    if s != [] {
      SplitNoSeparator(s[1..], sep);
      assert [s[0]] + s[1..] == s;
    }
  }

  lemma {:induction false} SplitAtSeparator(a: string, sep: char, b: string)
    requires sep !in a
    ensures Split(a + [sep] + b, sep) == [a] + Split(b, sep)
  {
    if a != [] {
      assert (a + [sep] + b)[1..] == a[1..] + [sep] + b;
      SplitAtSeparator(a[1..], sep, b);
      assert [a[0]] + a[1..] == a;
    } else {
      assert (a + [sep] + b)[1..] == b;
    }
  }

  /** Splitting three separator-free pieces joined by the separator gives the three pieces back. */
  lemma SplitThree(a: string, b: string, c: string, sep: char)
    requires sep !in a && sep !in b && sep !in c
    ensures Split(a + [sep] + b + [sep] + c, sep) == [a, b, c]
  {
    assert a + [sep] + b + [sep] + c == a + [sep] + (b + [sep] + c);
    SplitAtSeparator(a, sep, b + [sep] + c);
    SplitAtSeparator(b, sep, c);
    SplitNoSeparator(c, sep);
  }

  /** The number of occurrences of `c` in `s`. */
  function Count(s: string, c: char): nat
  {
    if s == [] then 0 else (if s[0] == c then 1 else 0) + Count(s[1..], c)
  }

  lemma {:induction false} CountAppend(a: string, b: string, c: char)
    ensures Count(a + b, c) == Count(a, c) + Count(b, c)
  {
    if a == [] {
      assert a + b == b;
    } else {
      assert (a + b)[1..] == a[1..] + b;
      CountAppend(a[1..], b, c);
    }
  }

  /** `strings.Split` yields one more part than there are separators. */
  lemma {:induction false} SplitCountsSeparators(s: string, sep: char)
    ensures |Split(s, sep)| == Count(s, sep) + 1
  {
    if s != [] {
      SplitCountsSeparators(s[1..], sep);
    }
  }

  /** A string with three dashes, two of them adjacent, splits into more than three parts. */
  lemma SplitThreeDashes(a: string, b: string, c: string)
    ensures |Split(a + "-" + b + "-" + "-" + c, '-')| > 3
  {
    var s := a + "-" + b + "-" + "-" + c;
    CountAppend(a + "-" + b + "-" + "-", c, '-');
    CountAppend(a + "-" + b + "-", "-", '-');
    CountAppend(a + "-" + b, "-", '-');
    CountAppend(a + "-", b, '-');
    CountAppend(a, "-", '-');
    SplitCountsSeparators(s, '-');
  }

  /** Go's `strings.Cut(s, string(sep))`, equivalently `strings.SplitN(s, string(sep), 2)` when it
      yields two parts: the text before and after the first separator. */
  function Cut(s: string, sep: char): Option<(string, string)>
  {
    if s == [] then None
    else if s[0] == sep then Some(([], s[1..]))
    else match Cut(s[1..], sep)
      case None => None
      case Some(p) => Some(([s[0]] + p.0, p.1))
  }

  /** `Cut` succeeds exactly when the separator occurs, and then splits at its first occurrence. */
  lemma {:induction false} CutSpec(s: string, sep: char)
    ensures Cut(s, sep).Some? <==> sep in s
    ensures Cut(s, sep).Some? ==>
      var (before, after) := Cut(s, sep).value;
      sep !in before && s == before + [sep] + after
  {
    if s != [] && s[0] != sep {
      CutSpec(s[1..], sep);
      assert s == [s[0]] + s[1..];
    }
  }

  /** Joining a separator-free prefix to any suffix is undone by `Cut`. */
  lemma {:induction false} CutJoin(before: string, sep: char, after: string)
    requires sep !in before
    ensures Cut(before + [sep] + after, sep) == Some((before, after))
  {
    if before != [] {
      assert (before + [sep] + after)[1..] == before[1..] + [sep] + after;
      CutJoin(before[1..], sep, after);
      assert [before[0]] + before[1..] == before;
    } else {
      assert (before + [sep] + after)[1..] == after;
    }
  }

  /** Go's `strings.ReplaceAll(s, string(c), "")`. */
  function RemoveChar(s: string, c: char): (r: string)
  {
    if s == [] then [] else (if s[0] == c then [] else [s[0]]) + RemoveChar(s[1..], c)
  }

  lemma {:induction false} RemoveCharAppend(a: string, b: string, c: char)
    ensures RemoveChar(a + b, c) == RemoveChar(a, c) + RemoveChar(b, c)
  {
    if a != [] {
      assert (a + b)[1..] == a[1..] + b;
      RemoveCharAppend(a[1..], b, c);
    } else {
      assert a + b == b;
    }
  }

  lemma {:induction false} RemoveCharAbsent(s: string, c: char)
    requires c !in s
    ensures RemoveChar(s, c) == s
  {
    if s != [] {
      RemoveCharAbsent(s[1..], c);
    }
  }

  /** Go's `strings.HasPrefix`. */
  predicate HasPrefix(s: string, prefix: string)
  {
    |prefix| <= |s| && s[..|prefix|] == prefix
  }

  /** Go's `unicode.ToLower` on one code point. Unicode's case tables are not part of this
      model, so the operations that compare ignoring case take the mapping as a parameter;
      `LowersAscii` states what it does on ASCII. */
  type RuneLower = char -> char

  /** Go's `strings.ToLower`: every code point lowered on its own. */
  function ToLower(lower: RuneLower, s: string): (r: string)
    ensures |r| == |s|
    ensures forall i :: 0 <= i < |s| ==> r[i] == lower(s[i])
  {
    seq(|s|, i requires 0 <= i < |s| => lower(s[i]))
  }

  /** `strings.ToLower(a) == strings.ToLower(b)`, as the services compare environments. */
  predicate SameLower(lower: RuneLower, a: string, b: string)
  {
    ToLower(lower, a) == ToLower(lower, b)
  }

  /** `unicode.ToLower` on ASCII: the 26 capital letters are lowered, every other code point kept. */
  function AsciiLower(c: char): char
  {
    if 'A' <= c <= 'Z' then (c as int + 32) as char else c
  }

  predicate Ascii(s: string)
  {
    forall i :: 0 <= i < |s| ==> s[i] < 128 as char
  }

  /** The lowering agrees with `unicode.ToLower` on ASCII. */
  predicate LowersAscii(lower: RuneLower)
  {
    forall c: char :: c < 128 as char ==> lower(c) == AsciiLower(c)
  }

  /** Under any lowering that is Go's on ASCII, two ASCII environments compare equal exactly
      when they have the same length and agree position by position up to the case of letters. */
  lemma SameLowerAsciiAll(lower: RuneLower, a: string, b: string)
    requires LowersAscii(lower) && Ascii(a) && Ascii(b)
    ensures SameLower(lower, a, b) <==>
      |a| == |b| && forall i :: 0 <= i < |a| ==> AsciiLower(a[i]) == AsciiLower(b[i])
  {
    var la, lb := ToLower(lower, a), ToLower(lower, b);
    if |a| == |b| {
      assert (la == lb) <==> forall i :: 0 <= i < |a| ==> la[i] == lb[i];
    }
  }

  /** Examples of `SameLowerAsciiAll`: a change of case is ignored, a missing or different
      letter is not. */
  lemma SameLowerAscii(lower: RuneLower)
    requires LowersAscii(lower)
    ensures SameLower(lower, "Staging", "sTAGING")
    ensures !SameLower(lower, "staging", "stagin")
    ensures !SameLower(lower, "Prod", "prom")
  {
    SameLowerAsciiAll(lower, "Staging", "sTAGING");
    SameLowerAsciiAll(lower, "staging", "stagin");
    SameLowerAsciiAll(lower, "Prod", "prom");
    assert AsciiLower("Prod"[3]) != AsciiLower("prom"[3]);
  }
}
