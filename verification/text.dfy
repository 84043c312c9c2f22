/** The .NET string operations the core relies on, over `seq<char>`:
    decimal digits and the "D<n>" format, `int.Parse`, `Split`, `PadLeft`,
    `PadRight`, `Trim`, `IsNullOrWhiteSpace`, `ToLower` and `ToUpper`. */
module Text {
  import opened Wrappers

  const MaxInt32: int := 0x7FFF_FFFF
  const MinInt32: int := -0x8000_0000

  predicate IsDigit(c: char) {
    '0' <= c <= '9'
  }

  predicate AllDigits(s: string) {
    forall i | 0 <= i < |s| :: IsDigit(s[i])
  }

  function DigitChar(d: nat): (c: char)
    requires d < 10
    ensures IsDigit(c)
  {
    ['0', '1', '2', '3', '4', '5', '6', '7', '8', '9'][d]
  }

  function DigitValue(c: char): nat
    requires IsDigit(c)
  {
    (c as int - '0' as int) as nat
  }

  lemma DigitRoundTrip(d: nat)
    requires d < 10
    ensures DigitValue(DigitChar(d)) == d
  {
  }

  /** Decimal representation of `n` without leading zeros (`n.ToString()`). */
  function Digits(n: nat): (s: string)
    ensures 1 <= |s|
    ensures AllDigits(s)
    decreases n
  {
    if n < 10 then [DigitChar(n)] else Digits(n / 10) + [DigitChar(n % 10)]
  }

  /** Value of a string of decimal digits, most significant first. */
  function Value(s: string): nat
    requires AllDigits(s)
    decreases |s|
  {
    if |s| == 0 then 0 else 10 * Value(s[..|s| - 1]) + DigitValue(s[|s| - 1])
  }

  function Repeat(c: char, n: nat): (s: string)
    ensures |s| == n
    ensures forall i | 0 <= i < n :: s[i] == c
  {
    seq(n, _ => c)
  }

  /** `s.PadLeft(width, c)`: `c` in front until the length is `width`; a longer
      `s` is returned unchanged. */
  function PadLeft(s: string, width: nat, c: char): (r: string)
    ensures |s| >= width ==> r == s
    ensures |s| < width ==> |r| == width && r[width - |s|..] == s
    ensures |s| < width ==> forall i | 0 <= i < width - |s| :: r[i] == c
  {
    if |s| >= width then s else Repeat(c, width - |s|) + s
  }

  /** `s.PadRight(width, c)`. */
  function PadRight(s: string, width: nat, c: char): (r: string)
    ensures |s| >= width ==> r == s
    ensures |s| < width ==> |r| == width && r[..|s|] == s
    ensures |s| < width ==> forall i | |s| <= i < width :: r[i] == c
  {
    if |s| >= width then s else s + Repeat(c, width - |s|)
  }

  /** The .NET standard format "D<width>" of an integer: digits, left-padded
      with zeros to `width`, with a leading '-' for a negative value. */
  function FormatD(n: int, width: nat): (s: string)
    ensures n >= 0 ==> AllDigits(s) && |s| >= width
    ensures n < 0 ==> |s| >= 1 && s[0] == '-'
  {
    if n >= 0 then PadLeft(Digits(n), width, '0') else "-" + PadLeft(Digits(-n), width, '0')
  }

  /** `int.Parse(s)` for the digit strings the core parses: fails (throws) on an
      empty string, a non-digit, or a value beyond `int.MaxValue`. */
  function ParseInt32(s: string): (r: Option<int>)
    ensures r.Some? ==> 0 <= r.value <= MaxInt32
    ensures r.Some? <==> |s| > 0 && AllDigits(s) && Value(s) <= MaxInt32
  {
    if |s| > 0 && AllDigits(s) && Value(s) <= MaxInt32 then Some(Value(s)) else None
  }

  /** Two's-complement wrap-around of C#'s unchecked `int` arithmetic. */
  function Wrap32(n: int): (r: int)
    ensures MinInt32 <= r <= MaxInt32
    ensures MinInt32 <= n <= MaxInt32 ==> r == n
  {
    (n - MinInt32) % 0x1_0000_0000 + MinInt32
  }

  lemma {:induction false} ValueOfDigits(n: nat)
    ensures Value(Digits(n)) == n
    decreases n
  {
    if n >= 10 {
      var s := Digits(n);
      assert s[..|s| - 1] == Digits(n / 10);
      ValueOfDigits(n / 10);
    }
  }

  /** Leading zeros do not change a value. */
  lemma {:induction false} ValueLeadingZeros(k: nat, s: string)
    requires AllDigits(s)
    ensures AllDigits(Repeat('0', k) + s)
    ensures Value(Repeat('0', k) + s) == Value(s)
    decreases |s|
  {
    var z := Repeat('0', k);
    assert AllDigits(z + s);
    if |s| == 0 {
      ValueOfZeros(k);
      assert z + s == z;
    } else {
      var p := s[..|s| - 1];
      assert (z + s)[..|z + s| - 1] == z + p;
      ValueLeadingZeros(k, p);
    }
  }

  lemma {:induction false} ValueOfZeros(k: nat)
    ensures AllDigits(Repeat('0', k))
    ensures Value(Repeat('0', k)) == 0
    decreases k
  {
    if k > 0 {
      assert Repeat('0', k)[..k - 1] == Repeat('0', k - 1);
      ValueOfZeros(k - 1);
    }
  }

  /** Zero-padding the digits of `m` keeps them digits with value `m`. */
  lemma PaddedValue(m: nat, width: nat)
    ensures AllDigits(PadLeft(Digits(m), width, '0'))
    ensures Value(PadLeft(Digits(m), width, '0')) == m
  {
    ValueOfDigits(m);
    PaddedZeros(Digits(m), width);
  }

  /** Left-padding digits with zeros keeps them digits and keeps their value. */
  lemma PaddedZeros(s: string, width: nat)
    requires AllDigits(s)
    ensures AllDigits(PadLeft(s, width, '0'))
    ensures Value(PadLeft(s, width, '0')) == Value(s)
  {
    if |s| < width {
      assert PadLeft(s, width, '0') == Repeat('0', width - |s|) + s;
      ValueLeadingZeros(width - |s|, s);
    }
  }

  /** "D<width>" followed by `int.Parse` gives back every non-negative `int`. */
  lemma FormatDParse(n: int, width: nat)
    requires 0 <= n <= MaxInt32
    ensures ParseInt32(FormatD(n, width)) == Some(n)
  {
    var d := Digits(n);
    ValueOfDigits(n);
    if |d| < width {
      ValueLeadingZeros(width - |d|, d);
    }
  }

  /** The value of a concatenation of digit strings. */
  lemma {:induction false} ValueAppend(s: string, t: string)
    requires AllDigits(s) && AllDigits(t)
    ensures AllDigits(s + t)
    ensures Value(s + t) == Value(s) * Pow10(|t|) + Value(t)
    decreases |t|
  {
    assert AllDigits(s + t);
    if |t| == 0 {
      assert s + t == s;
    } else {
      var t' := t[..|t| - 1];
      var u := s + t;
      assert u[..|u| - 1] == s + t';
      assert u[|u| - 1] == t[|t| - 1];
      ValueAppend(s, t');
      ShiftDigit(Value(s), Pow10(|t'|), Value(t'), DigitValue(t[|t| - 1]));
    }
  }

  lemma ShiftDigit(a: int, p: int, v: int, d: int)
    ensures 10 * (a * p + v) + d == a * (10 * p) + (10 * v + d)
  {
  }

  /** A value below 100 in the "D2" format reads back as itself. */
  lemma FormatD2Value(m: nat)
    requires m < 100
    ensures AllDigits(FormatD(m, 2)) && |FormatD(m, 2)| == 2 && Value(FormatD(m, 2)) == m
  {
    assert Pow10(2) == 100;
    FormatDWidth(m, 2);
    FormatDParse(m, 2);
  }

  function Pow10(k: nat): (p: nat)
    ensures p >= 1
  {
    if k == 0 then 1 else 10 * Pow10(k - 1)
  }

  lemma {:induction false} DigitsLength(n: nat, k: nat)
    requires 1 <= k && n < Pow10(k)
    ensures |Digits(n)| <= k
    decreases k
  {
    if n >= 10 {
      assert k > 1;
      DigitsLength(n / 10, k - 1);
    }
  }

  /** A value below 10^width formats to exactly `width` characters. */
  lemma FormatDWidth(n: nat, width: nat)
    requires 1 <= width && n < Pow10(width)
    ensures |FormatD(n, width)| == width
  {
    DigitsLength(n, width);
  }

  /** `s.Split(sep)`: the maximal separator-free pieces, empty ones included. */
  function Split(s: string, sep: char): (parts: seq<string>)
    ensures |parts| >= 1
    ensures forall i | 0 <= i < |parts| :: sep !in parts[i]
    decreases |s|
  {
    if |s| == 0 then [""]
    else if s[0] == sep then [""] + Split(s[1..], sep)
    else
      var rest := Split(s[1..], sep);
      [[s[0]] + rest[0]] + rest[1..]
  }

  /** `string.Join(sep, parts)`. */
  function Join(parts: seq<string>, sep: string): string
    decreases |parts|
  {
    if |parts| == 0 then ""
    else if |parts| == 1 then parts[0]
    else parts[0] + sep + Join(parts[1..], sep)
  }

  /** Joining the pieces of a split with the separator gives back the string. */
  lemma {:induction false} JoinSplit(s: string, sep: char)
    ensures Join(Split(s, sep), [sep]) == s
    decreases |s|
  {
    if |s| > 0 {
      var rest := Split(s[1..], sep);
      JoinSplit(s[1..], sep);
      if s[0] == sep {
        assert Split(s, sep) == [""] + rest;
        assert ([""] + rest)[1..] == rest;
      } else {
        var parts := [[s[0]] + rest[0]] + rest[1..];
        if |rest| == 1 {
          assert Join(rest, [sep]) == rest[0];
        } else {
          assert parts[1..] == rest[1..];
          assert Join(rest, [sep]) == rest[0] + [sep] + Join(rest[1..], [sep]);
        }
        assert s == [s[0]] + s[1..];
      }
    }
  }

  /** A separator-free string splits into itself. */
  lemma {:induction false} SplitNoSeparator(s: string, sep: char)
    requires sep !in s
    ensures Split(s, sep) == [s]
    decreases |s|
  {
    if |s| > 0 {
      SplitNoSeparator(s[1..], sep);
      assert [s[0]] + s[1..] == s;
    }
  }

  /** A separator-free head splits off as the first piece. */
  lemma {:induction false} SplitHead(a: string, sep: char, rest: string)
    requires sep !in a
    ensures Split(a + [sep] + rest, sep) == [a] + Split(rest, sep)
    decreases |a|
  {
    if |a| == 0 {
      assert a + [sep] + rest == [sep] + rest;
      assert ([sep] + rest)[1..] == rest;
    } else {
      assert (a + [sep] + rest)[1..] == a[1..] + [sep] + rest;
      SplitHead(a[1..], sep, rest);
      assert [a[0]] + a[1..] == a;
    }
  }

  /** Three separator-free pieces joined by the separator split back into them. */
  lemma SplitThree(a: string, b: string, c: string, sep: char)
    requires sep !in a && sep !in b && sep !in c
    ensures Split(a + [sep] + b + [sep] + c, sep) == [a, b, c]
  {
    var bc := b + [sep] + c;
    assert a + [sep] + b + [sep] + c == a + [sep] + bc;
    SplitNoSeparator(c, sep);
    SplitHead(b, sep, c);
    assert Split(bc, sep) == [b, c];
    SplitHead(a, sep, bc);
    assert [a] + [b, c] == [a, b, c];
  }

  /** Four separator-free pieces joined by the separator split back into them. */
  lemma SplitFour(a: string, b: string, c: string, d: string, sep: char)
    requires sep !in a && sep !in b && sep !in c && sep !in d
    ensures Split(a + [sep] + b + [sep] + c + [sep] + d, sep) == [a, b, c, d]
  {
    var bcd := b + [sep] + c + [sep] + d;
    Regroup(a + [sep], b, c, d, sep);
    SplitThree(b, c, d, sep);
    SplitHead(a, sep, bcd);
    assert [a] + [b, c, d] == [a, b, c, d];
  }

  lemma Regroup(u: string, b: string, c: string, d: string, sep: char)
    ensures u + b + [sep] + c + [sep] + d == u + (b + [sep] + c + [sep] + d)
  {
  }

  /** `s.Split(sep).Last()`. */
  function LastPart(s: string, sep: char): (r: string)
    ensures sep !in r
  {
    var parts := Split(s, sep);
    parts[|parts| - 1]
  }

  /** Whatever precedes the last separator, the last piece is what follows it. */
  lemma {:induction false} LastPartAfterSeparator(u: string, sep: char, t: string)
    requires sep !in t
    ensures |Split(u + [sep] + t, sep)| >= 2
    ensures LastPart(u + [sep] + t, sep) == t
    decreases |u|
  {
    if |u| == 0 {
      SplitHead(u, sep, t);
      SplitNoSeparator(t, sep);
    } else {
      var w := u + [sep] + t;
      assert w[1..] == u[1..] + [sep] + t;
      LastPartAfterSeparator(u[1..], sep, t);
    }
  }

  /** `Char.IsWhiteSpace`, which `string.Trim()` and `IsNullOrWhiteSpace`
      use: the controls U+0009 to U+000D and U+0085, the space separators
      (U+0020, U+00A0, U+1680, U+2000 to U+200A, U+202F, U+205F, U+3000) and
      the line and paragraph separators U+2028 and U+2029. */
  predicate IsWhite(c: char) {
    ('\t' <= c <= '\r') || c == ' ' || c == '\U{0085}' || c == '\U{00A0}' || c == '\U{1680}'
    || ('\U{2000}' <= c <= '\U{200A}') || c == '\U{2028}' || c == '\U{2029}'
    || c == '\U{202F}' || c == '\U{205F}' || c == '\U{3000}'
  }

  function TrimStart(s: string): (r: string)
    ensures |r| <= |s| && r == s[|s| - |r|..]
    ensures forall i | 0 <= i < |s| - |r| :: IsWhite(s[i])
    ensures |r| > 0 ==> !IsWhite(r[0])
    decreases |s|
  {
    if |s| > 0 && IsWhite(s[0]) then TrimStart(s[1..]) else s
  }

  function TrimEnd(s: string): (r: string)
    ensures |r| <= |s| && r == s[..|r|]
    ensures forall i | |r| <= i < |s| :: IsWhite(s[i])
    ensures |r| > 0 ==> !IsWhite(r[|r| - 1])
    decreases |s|
  {
    if |s| > 0 && IsWhite(s[|s| - 1]) then TrimEnd(s[..|s| - 1]) else s
  }

  /** Number of white-space characters at the front of `s`. */
  function LeadingWhite(s: string): (n: nat)
    ensures n <= |s|
    ensures forall i | 0 <= i < n :: IsWhite(s[i])
    ensures n < |s| ==> !IsWhite(s[n])
    decreases |s|
  {
    if |s| > 0 && IsWhite(s[0]) then 1 + LeadingWhite(s[1..]) else 0
  }

  /** `s.Trim()`: `s` without its white-space prefix and suffix. */
  function Trim(s: string): (r: string)
    ensures LeadingWhite(s) + |r| <= |s|
    ensures r == s[LeadingWhite(s)..LeadingWhite(s) + |r|]
    ensures forall i | LeadingWhite(s) + |r| <= i < |s| :: IsWhite(s[i])
    ensures |r| > 0 ==> !IsWhite(r[0]) && !IsWhite(r[|r| - 1])
  {
    var t := TrimStart(s);
    assert |s| - |t| == LeadingWhite(s) by {
      TrimStartIsLeadingWhite(s);
    }
    TrimEnd(t)
  }

  lemma {:induction false} TrimStartIsLeadingWhite(s: string)
    ensures TrimStart(s) == s[LeadingWhite(s)..]
    decreases |s|
  {
    if |s| > 0 && IsWhite(s[0]) {
      TrimStartIsLeadingWhite(s[1..]);
    }
  }

  /** `string.IsNullOrWhiteSpace(s)` for a non-null `s`. */
  predicate IsBlank(s: string) {
    forall i | 0 <= i < |s| :: IsWhite(s[i])
  }

  /** A string is blank exactly when trimming leaves nothing. */
  lemma BlankIffTrimEmpty(s: string)
    ensures IsBlank(s) <==> Trim(s) == ""
  {
  }

  /** `s.ToLower()` on ASCII letters. */
  function ToLower(s: string): (r: string)
    ensures |r| == |s|
    ensures forall i | 0 <= i < |s| :: ('A' <= s[i] <= 'Z' ==> r[i] == (s[i] as int + 32) as char)
    ensures forall i | 0 <= i < |s| :: !('A' <= s[i] <= 'Z') ==> r[i] == s[i]
  {
    seq(|s|, i requires 0 <= i < |s| => if 'A' <= s[i] <= 'Z' then (s[i] as int + 32) as char else s[i])
  }

  /** `s.ToUpper()` on ASCII letters. */
  function ToUpper(s: string): (r: string)
    ensures |r| == |s|
    ensures forall i | 0 <= i < |s| :: ('a' <= s[i] <= 'z' ==> r[i] == (s[i] as int - 32) as char)
    ensures forall i | 0 <= i < |s| :: !('a' <= s[i] <= 'z') ==> r[i] == s[i]
  {
    seq(|s|, i requires 0 <= i < |s| => if 'a' <= s[i] <= 'z' then (s[i] as int - 32) as char else s[i])
  }
}
