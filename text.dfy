/**
 * The string operations the system's URL builders and labels rely on,
 * modelled on Python's: `str(int)`, `str.zfill`, `int(str)`, `str.lower`,
 * `'/'.join` and splitting at a separator, and the `strftime` /
 * `isoformat` renderings of a datetime.
 */
module Text {
  import opened Base

  predicate IsDigit(c: char) { '0' <= c <= '9' }

  predicate AllDigits(s: string) {
    forall k | 0 <= k < |s| :: IsDigit(s[k])
  }

  function DigitChar(d: nat): (c: char)
    requires d < 10
    ensures IsDigit(c) && c as int - '0' as int == d
  {
    ('0' as int + d) as char
  }

  /** The number a string of decimal digits denotes (leading zeros allowed). */
  function DigitsValue(s: string): nat
    requires AllDigits(s)
    decreases |s|
  {
    if s == [] then 0 else DigitsValue(s[..|s| - 1]) * 10 + (s[|s| - 1] as int - '0' as int)
  }

  function Pow10(k: nat): (p: nat)
    ensures p >= 1
  {
    if k == 0 then 1 else 10 * Pow10(k - 1)
  }

  /** `str(n)` for a non-negative int: decimal digits, no leading zero. */
  function NatToString(n: nat): (s: string)
    ensures |s| >= 1 && AllDigits(s)
    ensures s[0] == '0' ==> n == 0
    decreases n
  {
    if n < 10 then [DigitChar(n)] else NatToString(n / 10) + [DigitChar(n % 10)]
  }

  /** `str(i)` for any int. */
  function IntToString(i: int): (s: string)
    ensures |s| >= 1
  {
    if i < 0 then "-" + NatToString(-i) else NatToString(i)
  }

  function Zeros(k: nat): (z: string)
    ensures |z| == k && AllDigits(z)
    ensures forall j | 0 <= j < k :: z[j] == '0'
  {
    seq(k, _ => '0')
  }

  /**
   * `s.zfill(width)`: left-pad with '0' up to `width` characters, keeping a
   * leading sign in front of the padding.
   */
  function ZFill(s: string, width: int): (r: string)
    ensures |r| == if |s| >= width then |s| else width
    ensures |s| >= width ==> r == s
  {
    if |s| >= width then s
    else if |s| > 0 && (s[0] == '+' || s[0] == '-') then [s[0]] + Zeros(width - |s|) + s[1..]
    else Zeros(width - |s|) + s
  }

  /** `str(n).zfill(width)`, the padding idiom used by every URL builder. */
  function Padded(n: int, width: int): string {
    ZFill(IntToString(n), width)
  }

  lemma {:induction false} NatToStringValue(n: nat)
    ensures DigitsValue(NatToString(n)) == n
    decreases n
  {
    if n >= 10 {
      NatToStringValue(n / 10);
      var s := NatToString(n);
      assert s[..|s| - 1] == NatToString(n / 10);
    }
  }

  lemma {:induction false} LeadingZerosValue(k: nat, s: string)
    requires AllDigits(s)
    ensures AllDigits(Zeros(k) + s)
    ensures DigitsValue(Zeros(k) + s) == DigitsValue(s)
    decreases |s|
  {
    var t := Zeros(k) + s;
    if s == [] {
      ZerosValue(k);
      assert t == Zeros(k);
    } else {
      var s' := s[..|s| - 1];
      LeadingZerosValue(k, s');
      assert t[..|t| - 1] == Zeros(k) + s';
    }
  }

  lemma {:induction false} ZerosValue(k: nat)
    ensures DigitsValue(Zeros(k)) == 0
    decreases k
  {
    if k > 0 {
      ZerosValue(k - 1);
      assert Zeros(k)[..k - 1] == Zeros(k - 1);
    }
  }

  /** The number of digits of `str(n)` is the k with 10^(k-1) <= n < 10^k. */
  lemma {:induction false} NatToStringLength(n: nat, k: nat)
    requires k >= 1 && n < Pow10(k)
    ensures |NatToString(n)| <= k
    ensures k >= 2 && n >= Pow10(k - 1) ==> |NatToString(n)| == k
    decreases k
  {
    if n >= 10 {
      assert k >= 2;
      assert n / 10 < Pow10(k - 1);
      NatToStringLength(n / 10, k - 1);
      if k >= 3 && n >= Pow10(k - 1) {
        assert n / 10 >= Pow10(k - 2);
      }
      if k == 2 && n >= Pow10(1) {
        assert |NatToString(n / 10)| == 1;
      }
    }
  }

  /**
   * Zero-padding a non-negative number keeps it a digit string of the same
   * value, exactly `width` long when the number fits in `width` digits.
   */
  lemma PaddedDigits(n: nat, width: nat)
    ensures AllDigits(Padded(n, width))
    ensures DigitsValue(Padded(n, width)) == n
    ensures width >= 1 && n < Pow10(width) ==> |Padded(n, width)| == width
  {
    var s := NatToString(n);
    NatToStringValue(n);
    if |s| < width {
      assert s[0] != '+' && s[0] != '-';
      LeadingZerosValue(width - |s|, s);
    }
    if width >= 1 && n < Pow10(width) {
      NatToStringLength(n, width);
    }
  }

  predicate IsSpace(c: char) {
    c == ' ' || c == '\t' || c == '\n' || c == '\r' || c == '\U{000B}' || c == '\U{000C}'
  }

  /** `s.strip()`: drop white space at both ends. */
  function Strip(s: string): (t: string)
    ensures |t| <= |s|
    decreases |s|
  {
    if |s| > 0 && IsSpace(s[0]) then Strip(s[1..])
    else if |s| > 0 && IsSpace(s[|s| - 1]) then Strip(s[..|s| - 1])
    else s
  }

  /** `int(s)`: optional white space and sign around a run of decimal digits. */
  function PyInt(s: string): (r: Result<int>)
    ensures r.Err? ==> r.error == ValueError
  {
    var t := Strip(s);
    if |t| > 1 && (t[0] == '+' || t[0] == '-') && AllDigits(t[1..]) then
      Ok(if t[0] == '-' then -(DigitsValue(t[1..]) as int) else DigitsValue(t[1..]))
    else if |t| > 0 && AllDigits(t) then
      Ok(DigitsValue(t))
    else
      Err(ValueError)
  }

  /** Reading back a zero-padded number gives the number: `int(str(n).zfill(w)) == n`. */
  lemma PaddedRoundTrip(n: int, width: int)
    ensures PyInt(Padded(n, width)) == Ok(n)
  {
    if n >= 0 {
      PaddedDigits(n, if width < 0 then 0 else width);
      ReadsUnsigned(Padded(n, width));
    } else {
      NegativePadded(n, width);
      ReadsNegative(Padded(n, width));
    }
  }

  /** `int` of a non-empty run of digits is its value. */
  lemma ReadsUnsigned(p: string)
    requires |p| > 0 && AllDigits(p)
    ensures PyInt(p) == Ok(DigitsValue(p) as int)
  {
    assert IsDigit(p[0]) && IsDigit(p[|p| - 1]);
    assert Strip(p) == p;
  }

  /** `int` of a minus sign followed by digits is the negated value. */
  lemma ReadsNegative(p: string)
    requires |p| > 1 && p[0] == '-' && AllDigits(p[1..])
    ensures PyInt(p) == Ok(-(DigitsValue(p[1..]) as int))
  {
    assert p[|p| - 1] == p[1..][|p| - 2];
    assert !IsSpace(p[0]) && !IsSpace(p[|p| - 1]);
    assert Strip(p) == p;
  }

  lemma NegativePadded(n: int, width: int)
    requires n < 0
    ensures var p := Padded(n, width);
      |p| > 1 && p[0] == '-' && AllDigits(p[1..]) && DigitsValue(p[1..]) == -n
  {
    var digits := NatToString(-n);
    NatToStringValue(-n);
    var s := "-" + digits;
    assert IntToString(n) == s;
    var p := ZFill(s, width);
    assert p == Padded(n, width);
    var tail: string;
    if |s| < width {
      var z := Zeros(width - |s|);
      assert p == [s[0]] + z + s[1..];
      assert s[1..] == digits;
      LeadingZerosValue(width - |s|, digits);
      tail := z + digits;
      assert p[1..] == tail;
    } else {
      assert p == s;
      tail := digits;
      assert p[1..] == tail;
    }
    assert AllDigits(tail) && DigitsValue(tail) == -n;
  }

  /** `int(str(n)) == n` for every int. */
  lemma IntToStringRoundTrip(n: int)
    ensures PyInt(IntToString(n)) == Ok(n)
  {
    PaddedRoundTrip(n, 0);
    assert Padded(n, 0) == IntToString(n);
  }

  /** `str(n)` holds nothing but a sign and digits. */
  lemma IntToStringChars(n: int, c: char)
    requires !IsDigit(c) && c != '-'
    ensures c !in IntToString(n)
  {
    if n < 0 {
      assert IntToString(n) == "-" + NatToString(-n);
    }
  }

  /** `s.lower()` on ASCII letters. */
  function Lower(s: string): (r: string)
    ensures |r| == |s|
  {
    seq(|s|, k requires 0 <= k < |s| => if 'A' <= s[k] <= 'Z' then (s[k] as int + 32) as char else s[k])
  }

  /** `sep.join(segs)`. */
  function Join(segs: seq<string>, sep: char): string
    decreases |segs|
  {
    if |segs| == 0 then ""
    else if |segs| == 1 then segs[0]
    else segs[0] + [sep] + Join(segs[1..], sep)
  }

  /** `s.split(sep)`: the pieces between occurrences of `sep`. */
  function Split(s: string, sep: char): (r: seq<string>)
    ensures |r| >= 1
    decreases |s|
  {
    if |s| == 0 then [""]
    else
      var rest := Split(s[1..], sep);
      if s[0] == sep then [""] + rest
      else [[s[0]] + rest[0]] + rest[1..]
  }

  lemma {:induction false} SplitAppend(a: string, b: string, sep: char)
    ensures Split(a + [sep] + b, sep) == Split(a, sep) + Split(b, sep)
    decreases |a|
  {
    var s := a + [sep] + b;
    if |a| == 0 {
      assert s[1..] == b;
    } else {
      assert s[1..] == a[1..] + [sep] + b;
      SplitAppend(a[1..], b, sep);
    }
  }

  lemma {:induction false} SplitNoSep(s: string, sep: char)
    requires sep !in s
    ensures Split(s, sep) == [s]
    decreases |s|
  {
    if |s| > 0 {
      SplitNoSep(s[1..], sep);
      assert [s[0]] + s[1..] == s;
    }
  }

  /** Splitting a joined path gives its segments back, when no segment holds the separator. */
  lemma {:induction false} SplitJoin(segs: seq<string>, sep: char)
    requires |segs| >= 1
    requires forall k | 0 <= k < |segs| :: sep !in segs[k]
    ensures Split(Join(segs, sep), sep) == segs
    decreases |segs|
  {
    SplitNoSep(segs[0], sep);
    if |segs| > 1 {
      SplitJoin(segs[1..], sep);
      SplitAppend(segs[0], Join(segs[1..], sep), sep);
      assert [segs[0]] + segs[1..] == segs;
    }
  }

  /** A character other than the separator that no segment holds is not in the joined string. */
  lemma {:induction false} JoinExcludes(segs: seq<string>, sep: char, c: char)
    requires c != sep && forall k | 0 <= k < |segs| :: c !in segs[k]
    ensures c !in Join(segs, sep)
    decreases |segs|
  {
    if |segs| > 1 {
      JoinExcludes(segs[1..], sep, c);
      assert Join(segs, sep) == segs[0] + [sep] + Join(segs[1..], sep);
    }
  }

  /**
   * A prefix followed by the separator and joined segments: the segments
   * come back by splitting what follows the prefix.
   */
  lemma SplitAfterPrefix(prefix: string, segs: seq<string>, sep: char)
    requires |segs| >= 1 && forall k | 0 <= k < |segs| :: sep !in segs[k]
    ensures var url := prefix + [sep] + Join(segs, sep);
      && url[..|prefix| + 1] == prefix + [sep]
      && Split(url[|prefix| + 1..], sep) == segs
  {
    var url := prefix + [sep] + Join(segs, sep);
    assert url[|prefix| + 1..] == Join(segs, sep);
    SplitJoin(segs, sep);
  }

  lemma PaddedHasNoSeparator(n: nat, width: int, sep: char)
    requires !IsDigit(sep)
    ensures sep !in Padded(n, width)
  {
    var s := NatToString(n);
    if |s| < width {
      assert s[0] != '+' && s[0] != '-';
      assert Padded(n, width) == Zeros(width - |s|) + s;
    }
  }

  /** A `datetime.datetime` without time zone. */
  datatype DateTime = DateTime(
    year: nat, month: nat, day: nat,
    hour: nat, minute: nat, second: nat, microsecond: nat)
  {
    ghost predicate Valid() {
      && 1 <= year <= 9999 && 1 <= month <= 12 && 1 <= day <= 31
      && hour < 24 && minute < 60 && second < 60 && microsecond < 1000000
    }
  }

  /** `strftime('%Y%m%d')` (the year is not padded, as with the C library on Linux). */
  function DateStamp(t: DateTime): string {
    NatToString(t.year) + Padded(t.month, 2) + Padded(t.day, 2)
  }

  /** `strftime('%H%M')`. */
  function HourMinute(t: DateTime): string {
    Padded(t.hour, 2) + Padded(t.minute, 2)
  }

  /** `isoformat(sep)`: `YYYY-MM-DD<sep>HH:MM:SS`, plus `.ffffff` when there are microseconds. */
  function IsoFormat(t: DateTime, sep: char): string {
    Padded(t.year, 4) + "-" + Padded(t.month, 2) + "-" + Padded(t.day, 2) + [sep]
    + Padded(t.hour, 2) + ":" + Padded(t.minute, 2) + ":" + Padded(t.second, 2)
    + (if t.microsecond != 0 then "." + Padded(t.microsecond, 6) else "")
  }

  /** A four-digit year, month and day can be read back from the `%Y%m%d` stamp. */
  lemma DateStampDecodes(t: DateTime)
    requires t.Valid() && t.year >= 1000
    ensures var s := DateStamp(t);
      && |s| == 8 && AllDigits(s)
      && DigitsValue(s[..4]) == t.year
      && DigitsValue(s[4..6]) == t.month
      && DigitsValue(s[6..]) == t.day
  {
    var y, m, d := NatToString(t.year), Padded(t.month, 2), Padded(t.day, 2);
    NatToStringLength(t.year, 4);
    NatToStringValue(t.year);
    PaddedDigits(t.month, 2);
    PaddedDigits(t.day, 2);
    var s := DateStamp(t);
    assert s == y + m + d;
    assert s[..4] == y && s[4..6] == m && s[6..] == d;
  }

  /** The ISO rendering of a valid datetime has the fixed 19- or 26-character layout. */
  lemma IsoFormatLength(t: DateTime, sep: char)
    requires t.Valid()
    ensures |IsoFormat(t, sep)| == if t.microsecond == 0 then 19 else 26
  {
    PaddedDigits(t.year, 4);
    PaddedDigits(t.month, 2);
    PaddedDigits(t.day, 2);
    PaddedDigits(t.hour, 2);
    PaddedDigits(t.minute, 2);
    PaddedDigits(t.second, 2);
    PaddedDigits(t.microsecond, 6);
  }
}
