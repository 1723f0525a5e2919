/**
 * Python's `int(text)` on a string and `str(n)` / f-string formatting of an
 * integer, restricted to ASCII digits.
 */
module Numbers {
  import opened Wrappers
  import opened Chars

  /** The value of a string of ASCII digits, most significant first. */
  function DigitsValue(d: string): (v: nat)
    requires forall i :: 0 <= i < |d| ==> IsDigit(d[i])
  {
    if d == [] then 0 else DigitsValue(d[..|d| - 1]) * 10 + DigitValue(d[|d| - 1])
  }

  /**
   * The digit part accepted by `int()`: non-empty, digits and underscores,
   * starting and ending with a digit, no two underscores in a row.
   */
  predicate WellFormedDigits(d: string) {
    && |d| > 0
    && IsDigit(d[0]) && IsDigit(d[|d| - 1])
    && (forall i :: 0 <= i < |d| ==> IsDigit(d[i]) || d[i] == '_')
    && (forall i :: 0 <= i < |d| - 1 ==> !(d[i] == '_' && d[i + 1] == '_'))
  }

  /** The digits of `d` with the underscores removed. */
  function DropUnderscores(d: string): (r: string)
    requires forall i :: 0 <= i < |d| ==> IsDigit(d[i]) || d[i] == '_'
    ensures forall i :: 0 <= i < |r| ==> IsDigit(r[i])
    ensures |r| <= |d|
  {
    if d == [] then [] else (if d[0] == '_' then [] else [d[0]]) + DropUnderscores(d[1..])
  }

  /**
   * The most decimal digits `int()` converts: Python's default
   * `sys.get_int_max_str_digits()`. Underscores do not count, leading zeros do.
   */
  const MaxStrDigits: nat := 4300

  /**
   * `int(text)`: surrounding whitespace is ignored, an optional sign, then
   * well-formed digits, at most `MaxStrDigits` of them; anything else
   * raises, which is `None` here.
   */
  function ParseInt(text: string): (r: Option<int>)
    ensures r.Some? ==> |Strip(text)| > 0
  {
    var t := Strip(text);
    var negative := |t| > 0 && t[0] == '-';
    var body := if |t| > 0 && (t[0] == '-' || t[0] == '+') then t[1..] else t;
    if WellFormedDigits(body) && |DropUnderscores(body)| <= MaxStrDigits then
      var v: int := DigitsValue(DropUnderscores(body));
      Some(if negative then -v else v)
    else
      None
  }

  /** The decimal digits of a natural number, without leading zeros. */
  function NatToString(n: nat): (s: string)
    ensures |s| > 0
    ensures forall i :: 0 <= i < |s| ==> IsDigit(s[i])
    ensures |s| > 1 ==> s[0] != '0'
  {
    if n < 10 then ['0' + n as char] else NatToString(n / 10) + ['0' + (n % 10) as char]
  }

  /** `str(n)` for an integer: a minus sign before the digits of a negative number. */
  function IntToString(n: int): (s: string)
    ensures |s| > 0
    ensures n >= 0 ==> IsDigitString(s)
  {
    if n < 0 then "-" + NatToString(-n) else NatToString(n)
  }

  lemma {:induction false} NatToStringValue(n: nat)
    ensures DigitsValue(NatToString(n)) == n
  {
    var s := NatToString(n);
    if n >= 10 {
      NatToStringValue(n / 10);
      assert s[..|s| - 1] == NatToString(n / 10);
    }
  }

  lemma {:induction false} DropUnderscoresOfDigits(d: string)
    requires forall i :: 0 <= i < |d| ==> IsDigit(d[i])
    ensures DropUnderscores(d) == d
  {
    if d != [] {
      DropUnderscoresOfDigits(d[1..]);
    }
  }

  /** The digits of a natural number are a well-formed digit string whose value is that number. */
  lemma NatToStringParses(m: nat)
    ensures WellFormedDigits(NatToString(m))
    ensures DigitsValue(DropUnderscores(NatToString(m))) == m
  {
    DropUnderscoresOfDigits(NatToString(m));
    NatToStringValue(m);
  }

  lemma IntToStringTrimmed(n: int)
    ensures Strip(IntToString(n)) == IntToString(n)
  {
    var s := IntToString(n);
    assert !IsSpace(s[0]) && !IsSpace(s[|s| - 1]);
    StripTrimmed(s);
  }

  /**
   * What `str(n)` prints, `int()` reads back: the two are inverse on every
   * integer of at most `MaxStrDigits` digits (for longer ones `str()` itself
   * raises).
   */
  lemma ParseIntToString(n: int)
    requires |NatToString(if n < 0 then -n else n)| <= MaxStrDigits
    ensures ParseInt(IntToString(n)) == Some(n)
  {
    IntToStringTrimmed(n);
    if n < 0 {
      NatToStringParses(-n);
      assert IntToString(n)[1..] == NatToString(-n);
    } else {
      NatToStringParses(n);
    }
  }

  /** On unsigned text without surrounding whitespace, `int()` reads the digits as they are. */
  lemma ParseUnsigned(t: string)
    requires Strip(t) == t && |t| > 0 && t[0] != '-' && t[0] != '+'
    ensures ParseInt(t) == if WellFormedDigits(t) && |DropUnderscores(t)| <= MaxStrDigits
                           then Some(DigitsValue(DropUnderscores(t)) as int) else None
  {
  }

  /** A plain digit string is accepted by `int()` exactly when it has at most `MaxStrDigits` digits, and then reads as its value. */
  lemma ParseIntDigitLimit(d: string)
    requires IsDigitString(d)
    ensures ParseInt(d).Some? <==> |d| <= MaxStrDigits
    ensures ParseInt(d).Some? ==> ParseInt(d) == Some(DigitsValue(d))
  {
    assert Trimmed(d) by {
      assert IsDigit(d[0]) && IsDigit(d[|d| - 1]);
    }
    StripTrimmed(d);
    assert WellFormedDigits(d);
    DropUnderscoresOfDigits(d);
    ParseUnsigned(d);
  }

  function Pow10(w: nat): (p: nat)
    ensures p >= 1
  {
    if w == 0 then 1 else 10 * Pow10(w - 1)
  }

  /** The last `width` decimal digits of `n`, zero-padded: what `%0<width>d` prints for `n < 10^width`. */
  function Fixed(n: nat, width: nat): (s: string)
    ensures |s| == width
    ensures forall i :: 0 <= i < |s| ==> IsDigit(s[i])
  {
    if width == 0 then [] else Fixed(n / 10, width - 1) + ['0' + (n % 10) as char]
  }

  /** Zero-padding keeps the value of every number that fits the width. */
  lemma {:induction false} FixedValue(n: nat, width: nat)
    requires n < Pow10(width)
    ensures DigitsValue(Fixed(n, width)) == n
  {
    if width > 0 {
      var s := Fixed(n, width);
      assert s[..|s| - 1] == Fixed(n / 10, width - 1);
      FixedValue(n / 10, width - 1);
    }
  }
}
