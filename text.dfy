/** The few operations on Python `str` that the modelled code relies on:
    `sep.join`, `split` on one character, `strip`, `replace(pat, '')`,
    `str(int)` and the ordering `<` of strings. */
module Text {

  /** `sep.join(xs)`. */
  function Join(xs: seq<string>, sep: string): string
    decreases |xs|
  {
    if |xs| == 0 then ""
    else if |xs| == 1 then xs[0]
    else xs[0] + sep + Join(xs[1..], sep)
  }

  /** `s.split(c)` for a one-character separator `c`: the pieces between the
      occurrences of `c`, so always at least one piece. */
  function Split(s: string, c: char): (r: seq<string>)
    ensures |r| >= 1
    decreases |s|
  {
    if |s| == 0 then [""]
    else if s[0] == c then [""] + Split(s[1..], c)
    else
      var rest := Split(s[1..], c);
      [[s[0]] + rest[0]] + rest[1..]
  }

  /** Splitting a text that starts with a piece free of `c` puts that piece in
      front of the first piece of the rest. */
  lemma {:induction false} SplitPrefix(a: string, t: string, c: char)
    requires c !in a
    ensures Split(a + t, c) == [a + Split(t, c)[0]] + Split(t, c)[1..]
  {
    if |a| > 0 {
      assert (a + t)[0] == a[0];
      assert (a + t)[1..] == a[1..] + t;
      SplitPrefix(a[1..], t, c);
      assert [a[0]] + (a[1..] + Split(t, c)[0]) == a + Split(t, c)[0];
    } else {
      assert a + t == t;
      assert Split(t, c) == [Split(t, c)[0]] + Split(t, c)[1..];
      assert a + Split(t, c)[0] == Split(t, c)[0];
    }
  }

  /** Joining on `c` and splitting on `c` gives the pieces back, provided no
      piece contains `c`. */
  lemma {:induction false} SplitJoin(xs: seq<string>, c: char)
    requires |xs| > 0
    requires forall i :: 0 <= i < |xs| ==> c !in xs[i]
    ensures Split(Join(xs, [c]), c) == xs
    decreases |xs|
  {
    if |xs| == 1 {
      SplitPrefix(xs[0], "", c);
      assert xs[0] + "" == xs[0];
    } else {
      var rest := Join(xs[1..], [c]);
      SplitJoin(xs[1..], c);
      assert Join(xs, [c]) == xs[0] + ([c] + rest);
      SplitPrefix(xs[0], [c] + rest, c);
      assert ([c] + rest)[1..] == rest;
      assert Split([c] + rest, c) == [""] + xs[1..];
      assert xs[0] + "" == xs[0];
    }
  }

  /** `c.isspace()`: the characters Python's `str.strip()` removes by default. */
  predicate IsSpace(c: char) {
    var n := c as int;
    n == 0x20 || 0x09 <= n <= 0x0D || 0x1C <= n <= 0x1F || n == 0x85 || n == 0xA0 ||
    n == 0x1680 || 0x2000 <= n <= 0x200A || n == 0x2028 || n == 0x2029 ||
    n == 0x202F || n == 0x205F || n == 0x3000
  }

  /** Every character of `s` is white space (vacuously true of `""`). */
  predicate IsBlank(s: string) {
    forall i :: 0 <= i < |s| ==> IsSpace(s[i])
  }

  function StripLeft(s: string): (r: string)
    ensures |r| > 0 ==> !IsSpace(r[0])
    decreases |s|
  {
    if |s| > 0 && IsSpace(s[0]) then StripLeft(s[1..]) else s
  }

  function StripRight(s: string): string
    decreases |s|
  {
    if |s| > 0 && IsSpace(s[|s| - 1]) then StripRight(s[..|s| - 1]) else s
  }

  /** `s.strip()`. */
  function Strip(s: string): string {
    StripRight(StripLeft(s))
  }

  lemma {:induction false} StripLeftEmptyIff(s: string)
    ensures |StripLeft(s)| == 0 <==> IsBlank(s)
    decreases |s|
  {
    if |s| > 0 && IsSpace(s[0]) {
      StripLeftEmptyIff(s[1..]);
      assert IsBlank(s) <==> IsBlank(s[1..]) by {
        if IsBlank(s[1..]) {
          forall i | 0 <= i < |s| ensures IsSpace(s[i]) {
            if i > 0 { assert s[i] == s[1..][i - 1]; }
          }
        }
        if IsBlank(s) {
          forall i | 0 <= i < |s| - 1 ensures IsSpace(s[1..][i]) {
            assert s[1..][i] == s[i + 1];
          }
        }
      }
    } else if |s| > 0 {
      assert !IsSpace(s[0]);
    }
  }

  /** Stripping leaves nothing exactly when the text is all white space: this
      is the test `len(s.strip()) > 0` used on a rebuilt abstract. */
  lemma StripEmptyIff(s: string)
    ensures |Strip(s)| == 0 <==> IsBlank(s)
  {
    StripLeftEmptyIff(s);
    StripRightKeepsNonEmpty(StripLeft(s));
  }

  lemma {:induction false} StripRightKeepsNonEmpty(s: string)
    requires |s| > 0 ==> !IsSpace(s[0])
    ensures |StripRight(s)| == 0 <==> |s| == 0
    decreases |s|
  {
    if |s| > 0 && IsSpace(s[|s| - 1]) {
      assert |s| > 1;
      StripRightKeepsNonEmpty(s[..|s| - 1]);
    }
  }

  /** `s.replace(pat, '')`: every non-overlapping occurrence of `pat`, found
      left to right in `s`, is removed. */
  function RemoveAll(s: string, pat: string): string
    requires |pat| > 0
    decreases |s|
  {
    if |s| < |pat| then s
    else if s[..|pat|] == pat then RemoveAll(s[|pat|..], pat)
    else [s[0]] + RemoveAll(s[1..], pat)
  }

  /** `pat` occurs somewhere in `s`. */
  predicate Occurs(pat: string, s: string) {
    exists i | 0 <= i <= |s| :: OccursAt(pat, s, i)
  }

  predicate OccursAt(pat: string, s: string, i: int) {
    0 <= i && i + |pat| <= |s| && s[i..i + |pat|] == pat
  }

  /** A leading occurrence is removed, and nothing else changes when `pat`
      does not occur in the rest. */
  lemma {:induction false} RemoveLeading(pat: string, t: string)
    requires |pat| > 0
    requires !Occurs(pat, t)
    ensures RemoveAll(pat + t, pat) == t
  {
    assert (pat + t)[..|pat|] == pat;
    assert (pat + t)[|pat|..] == t;
    RemoveAbsent(pat, t);
  }

  /** Removing a pattern that does not occur changes nothing. */
  lemma {:induction false} RemoveAbsent(pat: string, t: string)
    requires |pat| > 0
    requires !Occurs(pat, t)
    ensures RemoveAll(t, pat) == t
    decreases |t|
  {
    if |t| >= |pat| {
      assert !OccursAt(pat, t, 0);
      assert t[0..0 + |pat|] == t[..|pat|];
      assert !Occurs(pat, t[1..]) by {
        forall i | 0 <= i && i + |pat| <= |t[1..]|
          ensures !OccursAt(pat, t[1..], i)
        {
          assert !OccursAt(pat, t, i + 1);
          assert t[1..][i..i + |pat|] == t[i + 1..i + 1 + |pat|];
        }
      }
      RemoveAbsent(pat, t[1..]);
      assert [t[0]] + t[1..] == t;
    }
  }

  function DigitChar(d: nat): char
    requires d < 10
  {
    "0123456789"[d]
  }

  function DigitValue(c: char): nat {
    if '0' <= c <= '9' then (c as int - '0' as int) as nat else 0
  }

  /** The decimal digits of `n`, most significant first, without leading zeros. */
  function Digits(n: nat): (r: string)
    ensures |r| > 0 && '0' <= r[0] <= '9'
    decreases n
  {
    if n < 10 then [DigitChar(n)] else Digits(n / 10) + [DigitChar(n % 10)]
  }

  /** `str(i)` for an `int`. */
  function DecimalString(i: int): string {
    if i < 0 then "-" + Digits(-i) else Digits(i)
  }

  /** `int(s)` for a text of decimal digits. */
  function ParseDigits(s: string): nat
    decreases |s|
  {
    if |s| == 0 then 0 else ParseDigits(s[..|s| - 1]) * 10 + DigitValue(s[|s| - 1])
  }

  function ParseDecimal(s: string): int {
    if |s| > 0 && s[0] == '-' then -(ParseDigits(s[1..]) as int) else ParseDigits(s)
  }

  lemma {:induction false} DigitsRoundTrip(n: nat)
    ensures ParseDigits(Digits(n)) == n
    decreases n
  {
    if n >= 10 {
      DigitsRoundTrip(n / 10);
      var s := Digits(n / 10) + [DigitChar(n % 10)];
      assert s[..|s| - 1] == Digits(n / 10);
    }
  }

  /** `int(str(i)) == i`: the decimal text of an integer determines it. */
  lemma DecimalRoundTrip(i: int)
    ensures ParseDecimal(DecimalString(i)) == i
  {
    if i < 0 {
      DigitsRoundTrip(-i);
      assert ("-" + Digits(-i))[1..] == Digits(-i);
    } else {
      DigitsRoundTrip(i);
    }
  }

  /** `str(i)` never reads as the text `"None"`. */
  lemma DecimalIsNotNone(i: int)
    ensures DecimalString(i) != "None"
  {
    if i >= 0 {
      assert DecimalString(i)[0] != 'N';
    } else {
      assert DecimalString(i)[0] == '-';
    }
  }

  /** Python's `a < b` on `str`: lexicographic by code point, a proper prefix
      being smaller. */
  predicate StrLess(a: string, b: string)
    decreases |a|
  {
    if |a| == 0 then |b| > 0
    else if |b| == 0 then false
    else a[0] < b[0] || (a[0] == b[0] && StrLess(a[1..], b[1..]))
  }

  lemma {:induction false} StrLessIrreflexive(a: string)
    ensures !StrLess(a, a)
    decreases |a|
  {
    if |a| > 0 { StrLessIrreflexive(a[1..]); }
  }

  lemma {:induction false} StrLessTransitive(a: string, b: string, c: string)
    requires StrLess(a, b) && StrLess(b, c)
    ensures StrLess(a, c)
    decreases |a|
  {
    if |a| > 0 && a[0] == b[0] && b[0] == c[0] {
      StrLessTransitive(a[1..], b[1..], c[1..]);
    }
  }

  lemma {:induction false} StrLessTotal(a: string, b: string)
    requires a != b
    ensures StrLess(a, b) || StrLess(b, a)
    decreases |a|
  {
    if |a| > 0 && |b| > 0 && a[0] == b[0] {
      assert a == [a[0]] + a[1..] && b == [b[0]] + b[1..];
      StrLessTotal(a[1..], b[1..]);
    }
  }
}
