/**
 * Percent-encoding as done by Python's `urllib.parse.quote(s)` with its default
 * `safe='/'` (section 2.1 of RFC 3986), and the decoding done when a query
 * string is read back (`urllib.parse.unquote_plus`).
 */
module Percent {
  import opened Wrappers
  import opened Strings

  /** The unreserved characters of section 2.3 of RFC 3986: ALPHA / DIGIT / "-" / "." / "_" / "~". */
  predicate IsUnreserved(c: char)
  {
    ('A' <= c <= 'Z') || ('a' <= c <= 'z') || ('0' <= c <= '9') || c == '-' || c == '.' || c == '_' || c == '~'
  }

  /** What `quote` leaves alone: the unreserved characters and its default safe character `/`. */
  predicate IsSafe(c: char)
  {
    IsUnreserved(c) || c == '/'
  }

  /** A hexadecimal digit in the upper case that `quote` writes. */
  predicate IsUpperHex(c: char)
  {
    ('0' <= c <= '9') || ('A' <= c <= 'F')
  }

  /** An upper-case hexadecimal digit, as `quote` writes them: it reads back as `d`. */
  function HexDigit(d: nat): (c: Ascii)
    requires d < 16
    ensures IsUnreserved(c) && IsUpperHex(c)
    ensures HexValue(c) == Some(d)
  {
    if d < 10 then ('0' as int + d) as char else ('A' as int + d - 10) as char
  }

  /** The value of a hexadecimal digit of either case, as `unquote` reads them. */
  function HexValue(c: char): (v: Option<nat>)
    ensures v.Some? ==> v.value < 16
  {
    if '0' <= c <= '9' then Some(c as int - '0' as int)
    else if 'A' <= c <= 'F' then Some(c as int - 'A' as int + 10)
    else if 'a' <= c <= 'f' then Some(c as int - 'a' as int + 10)
    else None
  }

  /** The encoding of one character: itself when safe, otherwise `%XX` of its byte. */
  function EncodeChar(c: Ascii): (e: Text)
    ensures IsSafe(c) ==> e == [c]
    ensures !IsSafe(c) ==> |e| == 3 && e[0] == '%' && IsUpperHex(e[1]) && IsUpperHex(e[2])
                           && 16 * HexValue(e[1]).value + HexValue(e[2]).value == c as int
  {
    if IsSafe(c) then [c] else ['%', HexDigit(c as int / 16), HexDigit(c as int % 16)]
  }

  /** `urllib.parse.quote(s)`: every character of the result is a safe one or the `%` of an escape,
      so the result can stand in a query value without ending it. */
  function Quote(s: Text): (r: Text)
    ensures |r| >= |s|
    ensures forall k :: 0 <= k < |r| ==> IsSafe(r[k]) || r[k] == '%'
  {
    if s == [] then [] else EncodeChar(s[0]) + Quote(s[1..])
  }

  /** `urllib.parse.unquote_plus(s)`: `+` is a space, `%XX` with two hexadecimal digits is the
      character with that code, and anything else (a `%` not followed by two digits among them)
      stands for itself. */
  function UnquotePlus(s: seq<char>): (r: seq<char>)
    ensures |r| <= |s|
    decreases |s|
  {
    if s == [] then []
    else if s[0] == '+' then [' '] + UnquotePlus(s[1..])
    else if s[0] == '%' && |s| >= 3 && HexValue(s[1]).Some? && HexValue(s[2]).Some? then
      [(16 * HexValue(s[1]).value + HexValue(s[2]).value) as char] + UnquotePlus(s[3..])
    else [s[0]] + UnquotePlus(s[1..])
  }

  /** Every `%` that `quote` writes opens an escape of two upper-case hexadecimal digits. */
  predicate Escaped(r: seq<char>)
  {
    forall k :: 0 <= k < |r| && r[k] == '%' ==>
      k + 2 < |r| && IsUpperHex(r[k + 1]) && IsUpperHex(r[k + 2])
      && HexValue(r[k + 1]).Some? && HexValue(r[k + 2]).Some?
  }

  /** The escapes of `quote` have the `%XX` shape of section 2.1 of RFC 3986. */
  lemma {:induction false} QuoteEscapes(s: Text)
    ensures Escaped(Quote(s))
  {
    if s != [] {
      QuoteEscapes(s[1..]);
      var e := EncodeChar(s[0]);
      var q := Quote(s[1..]);
      assert Quote(s) == e + q;
      forall k | 0 <= k < |e + q| && (e + q)[k] == '%'
        ensures k + 2 < |e + q| && IsUpperHex((e + q)[k + 1]) && IsUpperHex((e + q)[k + 2])
                && HexValue((e + q)[k + 1]).Some? && HexValue((e + q)[k + 2]).Some?
      {
        if k >= |e| {
          assert q[k - |e|] == '%';
        } else {
          assert !IsSafe(s[0]) && k == 0;
        }
      }
    }
  }

  /** `quote` works character by character: the encoding of two texts side by side is
      their encodings side by side. */
  lemma {:induction false} QuoteAppend(a: Text, b: Text)
    ensures Quote(a + b) == Quote(a) + Quote(b)
  {
    if a == [] {
      assert a + b == b;
    } else {
      var ab := a + b;
      assert ab[0] == a[0] && ab[1..] == a[1..] + b;
      QuoteAppend(a[1..], b);
      var e := EncodeChar(a[0]);
      assert Quote(ab) == e + Quote(a[1..] + b);
      assert Quote(a) == e + Quote(a[1..]);
      assert e + (Quote(a[1..]) + Quote(b)) == (e + Quote(a[1..])) + Quote(b);
    }
  }

  /** A single character is encoded as `EncodeChar` writes it. */
  lemma QuoteOne(c: Ascii)
    ensures Quote([c]) == EncodeChar(c)
  {
  }

  /** Quote changes a text exactly when the text holds a character outside the safe set. */
  lemma QuoteIdentity(s: Text)
    ensures Quote(s) == s <==> forall k :: 0 <= k < |s| ==> IsSafe(s[k])
  {
    if forall k :: 0 <= k < |s| ==> IsSafe(s[k]) {
      QuoteSafe(s);
    } else {
      var k :| 0 <= k < |s| && !IsSafe(s[k]);
      UnsafeLengthens(s, k);
    }
  }

  /** A text of safe characters is left as it is. */
  lemma {:induction false} QuoteSafe(s: Text)
    requires forall k :: 0 <= k < |s| ==> IsSafe(s[k])
    ensures Quote(s) == s
  {
    if s != [] {
      assert forall k :: 0 <= k < |s[1..]| ==> s[1..][k] == s[k + 1];
      QuoteSafe(s[1..]);
      assert s == [s[0]] + s[1..];
    }
  }

  /** A character outside the safe set makes the encoding longer than the text. */
  lemma {:induction false} UnsafeLengthens(s: Text, k: nat)
    requires k < |s| && !IsSafe(s[k])
    ensures |Quote(s)| > |s|
  {
    if k > 0 {
      assert s[1..][k - 1] == s[k];
      UnsafeLengthens(s[1..], k - 1);
    }
  }

  /** Decoding a text with no `%` and no `+` gives the text back. */
  lemma {:induction false} UnquotePlain(s: seq<char>)
    requires forall k :: 0 <= k < |s| ==> s[k] != '%' && s[k] != '+'
    ensures UnquotePlus(s) == s
  {
    if s != [] {
      UnquotePlain(s[1..]);
      assert s == [s[0]] + s[1..];
    }
  }

  /** Decoding undoes one encoded character in front of any rest. */
  lemma EncodeCharDecodes(c: Ascii, rest: seq<char>)
    ensures UnquotePlus(EncodeChar(c) + rest) == [c] + UnquotePlus(rest)
  {
    var e := EncodeChar(c) + rest;
    if IsSafe(c) {
      assert e[0] == c && e[1..] == rest;
    } else {
      var hi, lo := c as int / 16, c as int % 16;
      assert e[0] == '%' && e[1] == HexDigit(hi) && e[2] == HexDigit(lo) && e[3..] == rest;
      assert HexValue(HexDigit(hi)) == Some(hi);
      assert HexValue(HexDigit(lo)) == Some(lo);
      assert (16 * hi + lo) as char == c;
    }
  }

  /** `unquote_plus(quote(s)) == s`: the percent-encoding loses nothing. */
  lemma {:induction false} QuoteRoundTrip(s: Text)
    ensures UnquotePlus(Quote(s)) == s
  {
    if s != [] {
      QuoteRoundTrip(s[1..]);
      EncodeCharDecodes(s[0], Quote(s[1..]));
      assert s == [s[0]] + s[1..];
    }
  }

  /** A space is encoded as `%20`, so "bad day" travels as "bad%20day". */
  lemma QuoteSpace()
    ensures Quote(" ") == "%20"
  {
  }

  /** A percent sign is encoded as `%25`, so "73.2%" travels as "73.2%25". */
  lemma QuotePercentSign()
    ensures Quote("%") == "%25"
  {
  }
}
