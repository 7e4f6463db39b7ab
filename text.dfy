/**
 * The parts of Go's strings, bytes and strconv packages that the parser
 * relies on, on strings of characters.
 */
module Text {
  import opened Base

  // ---------------------------------------------------------------- Split

  /** strings.Split(s, string(sep)): the pieces between the occurrences of sep, in order. */
  function Split(s: string, sep: char): (parts: seq<string>)
    ensures |parts| >= 1
    ensures forall i :: 0 <= i < |parts| ==> sep !in parts[i]
    decreases |s|
  {
    if |s| == 0 then [""]
    else if s[0] == sep then [""] + Split(s[1..], sep)
    else
      var rest := Split(s[1..], sep);
      [[s[0]] + rest[0]] + rest[1..]
  }

  /** strings.Join(parts, string(sep)). */
  function Join(parts: seq<string>, sep: char): string
    decreases |parts|
  {
    if |parts| == 0 then ""
    else if |parts| == 1 then parts[0]
    else parts[0] + [sep] + Join(parts[1..], sep)
  }

  /** Number of occurrences of c in s. */
  function Count(s: string, c: char): nat
    decreases |s|
  {
    if |s| == 0 then 0 else (if s[0] == c then 1 else 0) + Count(s[1..], c)
  }

  /** Joining the pieces back with the separator gives the string that was split. */
  lemma {:induction false} JoinSplit(s: string, sep: char)
    ensures Join(Split(s, sep), sep) == s
    decreases |s|
  {
    if |s| > 0 {
      JoinSplit(s[1..], sep);
      var rest := Split(s[1..], sep);
      if s[0] == sep {
        assert Split(s, sep) == [""] + rest;
        assert ([""] + rest)[1..] == rest;
      } else {
        var parts := [[s[0]] + rest[0]] + rest[1..];
        assert Split(s, sep) == parts;
        if |rest| > 1 {
          assert parts[1..] == rest[1..];
          assert Join(rest, sep) == rest[0] + [sep] + Join(rest[1..], sep);
        }
      }
    }
  }

  /** Splitting at a separator splits the two sides independently. */
  lemma {:induction false} SplitAround(a: string, b: string, sep: char)
    ensures Split(a + [sep] + b, sep) == Split(a, sep) + Split(b, sep)
    decreases |a|
  {
    var s := a + [sep] + b;
    if |a| == 0 {
      assert s[0] == sep && s[1..] == b;
    } else {
      assert s[0] == a[0];
      assert s[1..] == a[1..] + [sep] + b;
      SplitAround(a[1..], b, sep);
      var rest := Split(a[1..], sep);
      if a[0] == sep {
        AppendAssoc([""], rest, Split(b, sep));
      } else {
        assert (rest + Split(b, sep))[1..] == rest[1..] + Split(b, sep);
        AppendAssoc([[a[0]] + rest[0]], rest[1..], Split(b, sep));
      }
    }
  }

  /** A string without the separator splits into itself. */
  lemma {:induction false} SplitWithoutSep(s: string, sep: char)
    requires sep !in s
    ensures Split(s, sep) == [s]
    decreases |s|
  {
    if |s| > 0 {
      assert sep !in s[1..];
      SplitWithoutSep(s[1..], sep);
      assert [s[0]] + s[1..] == s;
    }
  }

  /** Splitting the joined pieces recovers them, when no piece holds the separator. */
  lemma {:induction false} SplitJoin(parts: seq<string>, sep: char)
    requires |parts| >= 1
    requires forall i :: 0 <= i < |parts| ==> sep !in parts[i]
    ensures Split(Join(parts, sep), sep) == parts
    decreases |parts|
  {
    if |parts| == 1 {
      SplitWithoutSep(parts[0], sep);
    } else {
      SplitJoin(parts[1..], sep);
      SplitWithoutSep(parts[0], sep);
      SplitAround(parts[0], Join(parts[1..], sep), sep);
      assert [parts[0]] + parts[1..] == parts;
    }
  }

  /** One piece more than there are separators. */
  lemma {:induction false} SplitCount(s: string, sep: char)
    ensures |Split(s, sep)| == Count(s, sep) + 1
    decreases |s|
  {
    if |s| > 0 {
      SplitCount(s[1..], sep);
    }
  }

  // ------------------------------------------------------ searching

  /** pat occurs in s starting at index i. */
  predicate OccursAt(s: string, pat: string, i: int)
  {
    0 <= i && i + |pat| <= |s| && s[i..i + |pat|] == pat
  }

  /** bytes.Index(s, pat): the first index at which pat occurs, or -1. */
  function IndexOf(s: string, pat: string): (k: int)
    ensures k == -1 || OccursAt(s, pat, k)
    ensures k == -1 <==> forall i :: 0 <= i <= |s| ==> !OccursAt(s, pat, i)
    ensures k >= 0 ==> forall i :: 0 <= i < k ==> !OccursAt(s, pat, i)
  {
    IndexFrom(s, pat, 0)
  }

  function IndexFrom(s: string, pat: string, from: nat): (k: int)
    requires from <= |s| + 1
    ensures k == -1 || (from <= k && OccursAt(s, pat, k))
    ensures k == -1 <==> forall i :: from <= i <= |s| ==> !OccursAt(s, pat, i)
    ensures k >= 0 ==> forall i :: from <= i < k ==> !OccursAt(s, pat, i)
    decreases |s| + 1 - from
  {
    if from + |pat| > |s| then -1
    else if s[from..from + |pat|] == pat then from
    else IndexFrom(s, pat, from + 1)
  }

  /** The last index i with i + |pat| <= end at which pat occurs. */
  function LastOccurrence(s: string, pat: string, end: nat): (r: Option<nat>)
    requires end <= |s|
    ensures r.Some? ==> r.value + |pat| <= end && OccursAt(s, pat, r.value)
    ensures r.Some? ==> forall i :: r.value < i && i + |pat| <= end ==> !OccursAt(s, pat, i)
    ensures r.None? ==> forall i :: 0 <= i && i + |pat| <= end ==> !OccursAt(s, pat, i)
    decreases end
  {
    if end < |pat| then None
    else if s[end - |pat|..end] == pat then Some(end - |pat|)
    else LastOccurrence(s, pat, end - 1)
  }

  /** s begins with pre. */
  predicate StartsWith(s: string, pre: string)
  {
    |pre| <= |s| && s[..|pre|] == pre
  }

  // ------------------------------------------------------ whitespace

  /** unicode.IsSpace. */
  predicate IsSpace(c: char)
  {
    c == ' ' || c == '\t' || c == '\n' || c == '\r' || c == 11 as char || c == 12 as char
    || c == 0x85 as char || c == 0xA0 as char || c == 0x1680 as char
    || (0x2000 as char <= c <= 0x200A as char)
    || c == 0x2028 as char || c == 0x2029 as char || c == 0x202F as char
    || c == 0x205F as char || c == 0x3000 as char
  }

  /** Number of white-space characters at the start of s. */
  function LeadingSpace(s: string): (n: nat)
    ensures n <= |s|
    ensures forall i :: 0 <= i < n ==> IsSpace(s[i])
    ensures n < |s| ==> !IsSpace(s[n])
    decreases |s|
  {
    if |s| > 0 && IsSpace(s[0]) then 1 + LeadingSpace(s[1..]) else 0
  }

  /** Number of white-space characters at the end of s. */
  function TrailingSpace(s: string): (n: nat)
    ensures n <= |s|
    ensures forall i :: |s| - n <= i < |s| ==> IsSpace(s[i])
    ensures n < |s| ==> !IsSpace(s[|s| - n - 1])
    decreases |s|
  {
    if |s| > 0 && IsSpace(s[|s| - 1]) then 1 + TrailingSpace(s[..|s| - 1]) else 0
  }

  /**
   * strings.TrimSpace: the slice of s between its leading and its trailing
   * white space; it neither starts nor ends with white space.
   */
  function TrimSpace(s: string): (r: string)
    ensures exists i, j :: (0 <= i <= j <= |s| && r == s[i..j]
      && (forall k :: 0 <= k < i ==> IsSpace(s[k])) && (forall k :: j <= k < |s| ==> IsSpace(s[k])))
    ensures r != [] ==> !IsSpace(r[0]) && !IsSpace(r[|r| - 1])
  {
    var i := LeadingSpace(s);
    var t := s[i..];
    var n := TrailingSpace(t);
    assert forall k :: 0 <= k < i ==> IsSpace(s[k]);
    assert forall k :: i + |t| - n <= k < |s| ==> IsSpace(s[k]) by {
      forall k | i + |t| - n <= k < |s| ensures IsSpace(s[k]) {
        assert s[k] == t[k - i];
      }
    }
    assert t[..|t| - n] == s[i..i + |t| - n];
    t[..|t| - n]
  }

  // ------------------------------------------------------ decimal numbers

  const MaxInt64: int := 0x7FFF_FFFF_FFFF_FFFF
  const MinInt64: int := -0x8000_0000_0000_0000
  const MaxUint64: int := 0xFFFF_FFFF_FFFF_FFFF
  const TwoTo64: int := 0x1_0000_0000_0000_0000

  predicate IsDigit(c: char) { '0' <= c <= '9' }

  predicate AllDigits(s: string) { forall i :: 0 <= i < |s| ==> IsDigit(s[i]) }

  function DigitChar(d: nat): (c: char)
    requires d < 10
    ensures IsDigit(c)
  {
    (('0' as int) + d) as char
  }

  function DigitValue(c: char): (d: nat)
    requires IsDigit(c)
    ensures d < 10 && DigitChar(d) == c
  {
    (c as int) - ('0' as int)
  }

  /** The number a string of decimal digits denotes (leading zeros allowed). */
  function ValueOf(s: string): nat
    requires AllDigits(s)
    decreases |s|
  {
    if |s| == 0 then 0 else ValueOf(s[..|s| - 1]) * 10 + DigitValue(s[|s| - 1])
  }

  /** The decimal digits of n without leading zeros ("0" for zero). */
  function Decimal(n: nat): (s: string)
    ensures 1 <= |s| && AllDigits(s)
    ensures |s| > 1 ==> s[0] != '0'
    decreases n
  {
    if n < 10 then [DigitChar(n)] else Decimal(n / 10) + [DigitChar(n % 10)]
  }

  lemma {:induction false} ValueOfDecimal(n: nat)
    ensures ValueOf(Decimal(n)) == n
    decreases n
  {
    if n >= 10 {
      ValueOfDecimal(n / 10);
      var s := Decimal(n);
      assert s[..|s| - 1] == Decimal(n / 10);
    }
  }

  lemma {:induction false} ValueOfLeadingZero(s: string)
    requires AllDigits(s)
    ensures AllDigits(['0'] + s) && ValueOf(['0'] + s) == ValueOf(s)
    decreases |s|
  {
    var z := ['0'] + s;
    if |s| > 0 {
      assert z[..|z| - 1] == ['0'] + s[..|s| - 1];
      ValueOfLeadingZero(s[..|s| - 1]);
    }
  }

  function Pow10(k: nat): nat
  {
    if k == 0 then 1 else 10 * Pow10(k - 1)
  }

  /** A number below 10^k has at most k digits. */
  lemma {:induction false} DecimalWidth(n: nat, k: nat)
    requires 1 <= k && n < Pow10(k)
    ensures |Decimal(n)| <= k
    decreases k
  {
    if n >= 10 {
      DecimalWidth(n / 10, k - 1);
    }
  }

  /** Go's zero-padded decimal field of the given width (as in "01" or "2006" of a time layout). */
  function Padded(n: nat, width: nat): (s: string)
    ensures AllDigits(s) && ValueOf(s) == n
    ensures |s| == if |Decimal(n)| < width then width else |Decimal(n)|
    decreases width
  {
    if |Decimal(n)| < width then
      var r := Padded(n, width - 1);
      ValueOfLeadingZero(r);
      ['0'] + r
    else
      ValueOfDecimal(n);
      Decimal(n)
  }

  /** fmt's %d and strconv.Itoa. */
  function Itoa(n: int): string
  {
    if n < 0 then "-" + Decimal(-n) else Decimal(n)
  }

  /** Outcome of the digit loop of strconv.ParseUint. */
  datatype UintParse = Exact(value: nat) | Syntax | Range

  /**
   * strconv.ParseUint(s, 10, 64): digits only; the first non-digit is a
   * syntax error, the first digit that overflows 64 bits a range error.
   */
  function ParseUint(s: string): UintParse
  {
    if |s| == 0 then Syntax else ParseUintFrom(s, 0, 0)
  }

  function ParseUintFrom(s: string, i: nat, acc: nat): (r: UintParse)
    requires i <= |s| && acc <= MaxUint64
    ensures r.Exact? ==> r.value <= MaxUint64
    decreases |s| - i
  {
    if i == |s| then Exact(acc)
    else if !IsDigit(s[i]) then Syntax
    else if acc * 10 + DigitValue(s[i]) > MaxUint64 then Range
    else ParseUintFrom(s, i + 1, acc * 10 + DigitValue(s[i]))
  }

  /** strconv.ParseInt's pair: the value (0 on a syntax error, clamped on overflow) and whether err was nil. */
  datatype IntParse = IntParse(value: int, ok: bool)

  /** strconv.ParseInt(s, 10, 64). */
  function ParseInt(s: string): (r: IntParse)
    ensures MinInt64 <= r.value <= MaxInt64
  {
    if |s| == 0 then IntParse(0, false)
    else
      var neg := s[0] == '-';
      var body := if s[0] == '+' || s[0] == '-' then s[1..] else s;
      match ParseUint(body)
      case Syntax => IntParse(0, false)
      case Range => IntParse(if neg then MinInt64 else MaxInt64, false)
      case Exact(u) =>
        if !neg && u > MaxInt64 then IntParse(MaxInt64, false)
        else if neg && u > -MinInt64 then IntParse(MinInt64, false)
        else
          var v: int := u;
          IntParse(if neg then -v else v, true)
  }

  lemma {:induction false} ValueOfPrefix(s: string, i: nat)
    requires AllDigits(s) && i <= |s|
    ensures AllDigits(s[..i]) && ValueOf(s[..i]) <= ValueOf(s)
    decreases |s| - i
  {
    if i < |s| {
      ValueOfPrefix(s, i + 1);
      assert s[..i + 1][..i] == s[..i];
    } else {
      assert s[..i] == s;
    }
  }

  lemma {:induction false} ParseUintDigits(s: string, i: nat)
    requires AllDigits(s) && i <= |s| && ValueOf(s) <= MaxUint64
    ensures ValueOf(s[..i]) <= MaxUint64
    ensures ParseUintFrom(s, i, ValueOf(s[..i])) == Exact(ValueOf(s))
    decreases |s| - i
  {
    ValueOfPrefix(s, i);
    if i == |s| {
      assert s[..i] == s;
    } else {
      ValueOfPrefix(s, i + 1);
      assert s[..i + 1][..i] == s[..i];
      ParseUintDigits(s, i + 1);
    }
  }

  /** strconv.ParseInt reads back what %d prints, for every 64-bit integer. */
  lemma ParseIntItoa(n: int)
    requires MinInt64 <= n <= MaxInt64
    ensures ParseInt(Itoa(n)) == IntParse(n, true)
  {
    var m: nat := if n < 0 then -n else n;
    var d := Decimal(m);
    ValueOfDecimal(m);
    ParseUintDigits(d, 0);
    assert d[..0] == "";
    if n < 0 {
      assert Itoa(n)[1..] == d;
    }
  }

  /** Two's-complement wrap-around of a Go int64 result. */
  function WrapInt64(x: int): (r: int)
    ensures MinInt64 <= r <= MaxInt64
    ensures (r - x) % TwoTo64 == 0
    ensures MinInt64 <= x <= MaxInt64 ==> r == x
  {
    (x - MinInt64) % TwoTo64 + MinInt64
  }
}
