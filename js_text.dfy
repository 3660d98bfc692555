/**
 * The JavaScript string built-ins the pages lean on, stated over `seq<char>`:
 * `String.prototype.trim`, `String(n)` for a non-negative integer and
 * `String.prototype.padStart`, together with the read-back of a decimal
 * numeral that states what `String(n)` means.
 */
module JsText {

  /** The characters `trim` removes: ECMAScript WhiteSpace and LineTerminator. */
  predicate IsJsWhitespace(c: char)
  {
    || c == '\t' || c == '\n' || c == '\U{0B}' || c == '\U{0C}' || c == '\r'
    || c == ' ' || c == '\U{A0}' || c == '\U{1680}'
    || ('\U{2000}' <= c <= '\U{200A}')
    || c == '\U{2028}' || c == '\U{2029}' || c == '\U{202F}' || c == '\U{205F}'
    || c == '\U{3000}' || c == '\U{FEFF}'
  }

  predicate AllWhitespace(s: string)
  {
    forall k :: 0 <= k < |s| ==> IsJsWhitespace(s[k])
  }

  /** Neither end of `s` is whitespace: the shape of every `trim` result. */
  predicate IsTrimmed(s: string)
  {
    s == [] || (!IsJsWhitespace(s[0]) && !IsJsWhitespace(s[|s| - 1]))
  }

  /** Number of whitespace characters at the start of `s`. */
  function LeadingSpace(s: string): (n: nat)
    ensures n <= |s|
    ensures AllWhitespace(s[..n])
    ensures n < |s| ==> !IsJsWhitespace(s[n])
  {
    if s != [] && IsJsWhitespace(s[0]) then 1 + LeadingSpace(s[1..]) else 0
  }

  /** Number of whitespace characters at the end of `s`. */
  function TrailingSpace(s: string): (n: nat)
    ensures n <= |s|
    ensures AllWhitespace(s[|s| - n..])
    ensures n < |s| ==> !IsJsWhitespace(s[|s| - 1 - n])
  {
    if s != [] && IsJsWhitespace(s[|s| - 1]) then 1 + TrailingSpace(s[..|s| - 1]) else 0
  }

  /**
   * `s.trim()`: the slice `s[i..j]` that is left once the whitespace at both
   * ends is gone.
   */
  function Trim(s: string): (r: string)
    ensures IsTrimmed(r)
    ensures |r| <= |s|
    ensures r == [] <==> AllWhitespace(s)
    ensures AllWhitespace(s[..LeadingSpace(s)])
    ensures LeadingSpace(s) + |r| <= |s|
    ensures r == s[LeadingSpace(s)..LeadingSpace(s) + |r|]
    ensures AllWhitespace(s[LeadingSpace(s) + |r|..])
  {
    var i := LeadingSpace(s);
    var t := TrailingSpace(s[i..]);
    var j := |s| - t;
    assert s[i..][|s[i..]| - t..] == s[j..];
    if i < j then
      assert s[i..][|s[i..]| - 1 - t] == s[j - 1];
      s[i..j]
    else
      WhitespaceSplit(s, i);
      s[i..j]
  }

  lemma WhitespaceSplit(s: string, i: nat)
    requires i <= |s| && AllWhitespace(s[..i]) && AllWhitespace(s[i..])
    ensures AllWhitespace(s)
  {
    forall k | 0 <= k < |s| ensures IsJsWhitespace(s[k]) {
      if k < i { assert s[..i][k] == s[k]; } else { assert s[i..][k - i] == s[k]; }
    }
  }

  /** Trimming text whose ends are not whitespace changes nothing. */
  lemma TrimKeepsTrimmed(s: string)
    requires IsTrimmed(s)
    ensures Trim(s) == s
  {
  }

  /** `trim` is idempotent. */
  lemma TrimIdempotent(s: string)
    ensures Trim(Trim(s)) == Trim(s)
  {
    TrimKeepsTrimmed(Trim(s));
  }

  predicate IsDigit(c: char)
  {
    '0' <= c <= '9'
  }

  predicate AllDigits(s: string)
  {
    forall k :: 0 <= k < |s| ==> IsDigit(s[k])
  }

  function DigitChar(d: nat): (c: char)
    requires d < 10
    ensures IsDigit(c) && c as int - '0' as int == d
  {
    (d + '0' as int) as char
  }

  function DigitValue(c: char): nat
    requires IsDigit(c)
  {
    c as int - '0' as int
  }

  /** The number a string of decimal digits denotes (leading zeros allowed). */
  function ReadDecimal(s: string): nat
    requires AllDigits(s)
  {
    if s == [] then 0 else ReadDecimal(s[..|s| - 1]) * 10 + DigitValue(s[|s| - 1])
  }

  /** `String(n)` for a non-negative integer: its decimal numeral, no leading zero. */
  function Decimal(n: nat): (r: string)
    ensures |r| >= 1 && AllDigits(r)
    ensures |r| > 1 ==> r[0] != '0'
    ensures ReadDecimal(r) == n
    decreases n
  {
    if n < 10 then [DigitChar(n)]
    else
      var init := Decimal(n / 10);
      var r := init + [DigitChar(n % 10)];
      assert r[..|r| - 1] == init;
      r
  }

  /** `s.padStart(width, [c])`: `c` repeated in front of `s` up to `width` characters. */
  function PadStart(s: string, width: nat, c: char): (r: string)
    ensures |r| == if |s| < width then width else |s|
    ensures r[|r| - |s|..] == s
    ensures forall k :: 0 <= k < |r| - |s| ==> r[k] == c
  {
    if |s| >= width then s else seq(width - |s|, _ => c) + s
  }

  /** Leading zeros do not change the number a numeral denotes. */
  lemma {:induction false} ReadDecimalLeadingZeros(z: string, s: string)
    requires forall k :: 0 <= k < |z| ==> z[k] == '0'
    requires AllDigits(s)
    ensures AllDigits(z + s) && ReadDecimal(z + s) == ReadDecimal(s)
    decreases |s|
  {
    if s == [] {
      assert z + s == z;
      ZerosReadAsZero(z);
    } else {
      var init := s[..|s| - 1];
      assert (z + s)[..|z + s| - 1] == z + init;
      ReadDecimalLeadingZeros(z, init);
    }
  }

  lemma {:induction false} ZerosReadAsZero(z: string)
    requires forall k :: 0 <= k < |z| ==> z[k] == '0'
    ensures AllDigits(z) && ReadDecimal(z) == 0
  {
    if z != [] {
      ZerosReadAsZero(z[..|z| - 1]);
    }
  }

  /** One digit below 10, at most two below 100. */
  lemma DecimalLength(n: nat)
    ensures n < 10 ==> |Decimal(n)| == 1
    ensures n < 100 ==> |Decimal(n)| <= 2
  {
    if 10 <= n < 100 {
      assert |Decimal(n / 10)| == 1;
    }
  }

  /** `String(n).padStart(width, "0")` is still a numeral for `n`. */
  lemma PaddedDecimal(n: nat, width: nat)
    ensures AllDigits(PadStart(Decimal(n), width, '0'))
    ensures ReadDecimal(PadStart(Decimal(n), width, '0')) == n
  {
    var d := Decimal(n);
    var p := PadStart(d, width, '0');
    var z := p[..|p| - |d|];
    assert p == z + d;
    ReadDecimalLeadingZeros(z, d);
  }
}
