/**
 * Character-level helpers of the request pipeline: the ASCII text domain,
 * Python's `str.strip()` and `str()` of an integer.
 */
module Strings {

  /** A 7-bit ASCII character: the text domain of this model. */
  type Ascii = c: char | c as int < 128

  /** A piece of text as it travels through the pipeline. */
  type Text = seq<Ascii>

  /** Python's `str.isspace()` on ASCII: tab, line feed, vertical tab, form feed,
      carriage return, the separators 0x1C to 0x1F, and space. */
  predicate IsSpace(c: char)
  {
    (9 <= c as int <= 13) || (28 <= c as int <= 32)
  }

  predicate AllSpace(s: seq<char>)
  {
    forall k {:trigger IsSpace(s[k])} :: 0 <= k < |s| ==> IsSpace(s[k])
  }

  /** Every character of `s` in positions `lo` up to `hi` is whitespace. */
  predicate SpacesIn(s: seq<char>, lo: int, hi: int)
    requires 0 <= lo <= hi <= |s|
  {
    forall k {:trigger IsSpace(s[k])} :: lo <= k < hi ==> IsSpace(s[k])
  }

  /** Positions `i` to `j` of `s` are its stripped core: only whitespace around them,
      and no whitespace at either end of them. */
  predicate IsCore(s: seq<char>, i: int, j: int)
  {
    && 0 <= i <= j <= |s|
    && SpacesIn(s, 0, i) && SpacesIn(s, j, |s|)
    && (i < j ==> !IsSpace(s[i]) && !IsSpace(s[j - 1]))
  }

  /** `core` is what is left of `s` once the whitespace at both ends is removed. */
  ghost predicate IsStripOf(core: seq<char>, s: seq<char>)
  {
    exists i, j :: IsCore(s, i, j) && core == s[i..j]
  }

  /** The scan from the left in `str.strip()`: the first position at or after `i` that
      holds no whitespace, or the length when there is none. */
  function SkipLeading(s: Text, i: nat): (k: nat)
    requires i <= |s|
    ensures i <= k <= |s| && SpacesIn(s, i, k)
    ensures k < |s| ==> !IsSpace(s[k])
    decreases |s| - i
  {
    if i < |s| && IsSpace(s[i]) then SkipLeading(s, i + 1) else i
  }

  /** The scan from the right in `str.strip()`, which stops at `lo`: the end of the last
      character before `j` that is not whitespace, or `lo` when there is none. */
  function SkipTrailing(s: Text, lo: nat, j: nat): (k: nat)
    requires lo <= j <= |s|
    ensures lo <= k <= j && SpacesIn(s, k, j)
    ensures k > lo ==> !IsSpace(s[k - 1])
  {
    if j > lo && IsSpace(s[j - 1]) then SkipTrailing(s, lo, j - 1) else j
  }

  /** `str.strip()`: the text without its surrounding whitespace; it is empty exactly
      when the text is whitespace only. */
  function Strip(s: Text): (r: Text)
    ensures IsStripOf(r, s)
    ensures r == [] <==> AllSpace(s)
  {
    var i := SkipLeading(s, 0);
    var j := SkipTrailing(s, i, |s|);
    assert IsCore(s, i, j);
    CoreEmpty(s, i, j);
    s[i..j]
  }

  /** A core is empty exactly when the whole text is whitespace. */
  lemma CoreEmpty(s: seq<char>, i: int, j: int)
    requires IsCore(s, i, j)
    ensures i == j <==> AllSpace(s)
  {
  }

  /** Strip returns THE stripped core: any split of `s` into whitespace, a core without
      whitespace at its ends, and whitespace again, has Strip's result as its core. */
  lemma StripIsUnique(core: seq<char>, s: Text)
    requires IsStripOf(core, s)
    ensures Strip(s) == core
  {
    var r := Strip(s);
    var i, j :| IsCore(s, i, j) && core == s[i..j];
    var i', j' :| IsCore(s, i', j') && r == s[i'..j'];
    if i < j && i' < j' {
      assert i == i' && j == j';
    }
  }

  /** Stripping twice removes nothing more than stripping once. */
  lemma StripIdempotent(s: Text)
    ensures Strip(Strip(s)) == Strip(s)
  {
    var r := Strip(s);
    assert IsCore(r, 0, |r|) && r == r[0..|r|];
    StripIsUnique(r, r);
  }

  predicate IsDigit(c: char)
  {
    '0' <= c <= '9'
  }

  function DigitChar(d: nat): (c: Ascii)
    requires d < 10
    ensures IsDigit(c) && c as int == '0' as int + d
  {
    ('0' as int + d) as char
  }

  /** The decimal numeral of a natural number, most significant digit first, without leading zeros. */
  function NatToDecimal(n: nat): (r: Text)
    ensures r != [] && forall k :: 0 <= k < |r| ==> IsDigit(r[k])
    ensures |r| > 1 ==> r[0] != '0'
    ensures r[0] == '0' <==> n == 0
  {
    if n < 10 then [DigitChar(n)] else NatToDecimal(n / 10) + [DigitChar(n % 10)]
  }

  /** Python's `str(n)` of an `int`: a minus sign before the digits of a negative number. */
  function IntToDecimal(n: int): (r: Text)
    ensures forall k :: 0 <= k < |r| ==> IsDigit(r[k]) || (k == 0 && r[k] == '-')
    ensures r != [] && (r[0] == '-' <==> n < 0)
    ensures n < 0 ==> |r| >= 2 && r[1] != '0'
    ensures n >= 0 && |r| > 1 ==> r[0] != '0'
  {
    if n < 0 then "-" + NatToDecimal(-n) else NatToDecimal(n)
  }

  /** The value of a string of decimal digits (the reading direction of `NatToDecimal`). */
  function DecimalValue(s: seq<char>): nat
  {
    if s == [] then 0
    else DecimalValue(s[..|s| - 1]) * 10 + (if IsDigit(s[|s| - 1]) then s[|s| - 1] as int - '0' as int else 0)
  }

  /** Python's `int(s)` on the numerals that `str` produces. */
  function ParseInt(s: seq<char>): int
  {
    if s != [] && s[0] == '-' then 0 - DecimalValue(s[1..]) else DecimalValue(s)
  }

  lemma {:induction false} NatToDecimalRoundTrip(n: nat)
    ensures DecimalValue(NatToDecimal(n)) == n
  {
    if n >= 10 {
      NatToDecimalRoundTrip(n / 10);
      var s := NatToDecimal(n);
      assert s[..|s| - 1] == NatToDecimal(n / 10);
    }
  }

  /** The label in the redirect reads back as the label that was predicted. */
  lemma IntToDecimalRoundTrip(n: int)
    ensures ParseInt(IntToDecimal(n)) == n
  {
    if n < 0 {
      NatToDecimalRoundTrip(-n);
      assert IntToDecimal(n)[1..] == NatToDecimal(-n);
    } else {
      NatToDecimalRoundTrip(n);
    }
  }
}
