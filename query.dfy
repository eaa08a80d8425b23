/**
 * Reading the parameters of a URL's query string, the way the `/result` route's
 * `request.args.get(name, default)` sees them (the decoding of `urllib.parse.parse_qsl`):
 * fields separated by `&`, empty fields skipped, each field split at its first `=`,
 * names and values decoded with `unquote_plus`, the first field with a name winning.
 */
module Query {
  import opened Wrappers
  import Percent

  /** The position of the first `c` in `s`, or `|s|` when there is none. */
  function IndexOf(s: seq<char>, c: char): (i: nat)
    ensures i <= |s|
    ensures i < |s| ==> s[i] == c
    ensures c !in s[..i]
  {
    if s == [] then 0
    else if s[0] == c then 0
    else
      var i := 1 + IndexOf(s[1..], c);
      assert s[..i] == [s[0]] + s[1..][..i - 1];
      i
  }

  /** The pieces put back together with the separator between them (`sep.join(parts)`). */
  function Join(parts: seq<seq<char>>, sep: char): seq<char>
    requires |parts| >= 1
  {
    if |parts| == 1 then parts[0] else parts[0] + [sep] + Join(parts[1..], sep)
  }

  /** `s.split(sep)`: the pieces between the separators, in order. None holds the separator,
      and joining them with it gives the text back. */
  function Split(s: seq<char>, sep: char): (parts: seq<seq<char>>)
    ensures |parts| >= 1
    ensures forall k :: 0 <= k < |parts| ==> sep !in parts[k]
    ensures Join(parts, sep) == s
    decreases |s|
  {
    var i := IndexOf(s, sep);
    if i == |s| then
      assert s[..i] == s;
      [s]
    else
      var rest := Split(s[i + 1..], sep);
      var parts := [s[..i]] + rest;
      assert parts[1..] == rest;
      assert s == s[..i] + [sep] + s[i + 1..];
      parts
  }

  lemma IndexOfFirst(a: seq<char>, c: char, b: seq<char>)
    requires c !in a
    ensures IndexOf(a + [c] + b, c) == |a|
  {
    var s := a + [c] + b;
    assert s[|a|] == c;
  }

  /** A separator after a piece without one ends that piece. */
  lemma SplitFirst(a: seq<char>, sep: char, b: seq<char>)
    requires sep !in a
    ensures Split(a + [sep] + b, sep) == [a] + Split(b, sep)
  {
    var s := a + [sep] + b;
    IndexOfFirst(a, sep, b);
    assert s[..|a|] == a && s[|a| + 1..] == b;
  }

  /** A piece without the separator is not split. */
  lemma SplitNone(a: seq<char>, sep: char)
    requires sep !in a
    ensures Split(a, sep) == [a]
  {
  }

  /** One decoded `name=value` field of a query string. */
  datatype Param = Param(name: seq<char>, value: seq<char>)

  /** A field is split at its first `=`; a field without one has an empty value. */
  function ParseField(f: seq<char>): (p: Param)
    ensures '=' !in f ==> p == Param(Percent.UnquotePlus(f), [])
    ensures '=' in f ==> exists i :: 0 <= i < |f| && f[i] == '=' && '=' !in f[..i]
                            && p == Param(Percent.UnquotePlus(f[..i]), Percent.UnquotePlus(f[i + 1..]))
  {
    var i := IndexOf(f, '=');
    if i == |f| then Param(Percent.UnquotePlus(f), [])
    else Param(Percent.UnquotePlus(f[..i]), Percent.UnquotePlus(f[i + 1..]))
  }

  /** The pieces that are not empty, each decoded by `decode`, in order. */
  function DecodeNonEmpty(pieces: seq<seq<char>>, decode: seq<char> -> Param): seq<Param>
  {
    if pieces == [] then []
    else if pieces[0] == [] then DecodeNonEmpty(pieces[1..], decode)
    else [decode(pieces[0])] + DecodeNonEmpty(pieces[1..], decode)
  }

  /** No more fields than pieces; one per piece, in order, when none is empty; none when all are. */
  lemma {:induction false} DecodeNonEmptyCases(pieces: seq<seq<char>>, decode: seq<char> -> Param)
    ensures var params := DecodeNonEmpty(pieces, decode);
            && |params| <= |pieces|
            && ((forall m :: 0 <= m < |pieces| ==> pieces[m] != []) ==>
                  |params| == |pieces| && forall k :: 0 <= k < |params| ==> params[k] == decode(pieces[k]))
            && ((forall m :: 0 <= m < |pieces| ==> pieces[m] == []) ==> params == [])
  {
    if pieces != [] {
      DecodeNonEmptyCases(pieces[1..], decode);
      if forall m :: 0 <= m < |pieces| ==> pieces[m] != [] {
        assert forall m :: 0 <= m < |pieces[1..]| ==> pieces[1..][m] == pieces[m + 1];
      }
      if forall m :: 0 <= m < |pieces| ==> pieces[m] == [] {
        assert forall m :: 0 <= m < |pieces[1..]| ==> pieces[1..][m] == pieces[m + 1];
      }
    }
  }

  /** The decoded fields, in order, of the non-empty pieces. */
  function ParseFields(pieces: seq<seq<char>>): (params: seq<Param>)
    ensures |params| <= |pieces|
    ensures (forall m :: 0 <= m < |pieces| ==> pieces[m] != []) ==>
              |params| == |pieces| && forall k :: 0 <= k < |params| ==> params[k] == ParseField(pieces[k])
    ensures (forall m :: 0 <= m < |pieces| ==> pieces[m] == []) ==> params == []
  {
    DecodeNonEmptyCases(pieces, ParseField);
    DecodeNonEmpty(pieces, ParseField)
  }

  /** The fields of consecutive runs of pieces follow one another: each piece contributes on
      its own, an empty one nothing and any other its decoded field, in order. */
  lemma ParseFieldsAppend(a: seq<seq<char>>, b: seq<seq<char>>)
    ensures ParseFields(a + b) == ParseFields(a) + ParseFields(b)
  {
    DecodeNonEmptyAppend(a, b, ParseField);
  }

  lemma {:induction false} DecodeNonEmptyAppend(a: seq<seq<char>>, b: seq<seq<char>>, decode: seq<char> -> Param)
    ensures DecodeNonEmpty(a + b, decode) == DecodeNonEmpty(a, decode) + DecodeNonEmpty(b, decode)
  {
    if a == [] {
      assert a + b == b;
    } else {
      var ab := a + b;
      assert ab[0] == a[0];
      assert ab[1..] == a[1..] + b;
      DecodeNonEmptyAppend(a[1..], b, decode);
      if a[0] != [] {
        var h := [decode(a[0])];
        assert DecodeNonEmpty(ab, decode) == h + DecodeNonEmpty(a[1..] + b, decode);
        assert DecodeNonEmpty(a, decode) == h + DecodeNonEmpty(a[1..], decode);
        assert h + (DecodeNonEmpty(a[1..], decode) + DecodeNonEmpty(b, decode))
            == (h + DecodeNonEmpty(a[1..], decode)) + DecodeNonEmpty(b, decode);
      }
    }
  }

  /** The decoded fields of a query string: none for an empty one, a single one when it has no `&`. */
  function Parse(query: seq<char>): (params: seq<Param>)
    ensures query == [] ==> params == []
    ensures query != [] && '&' !in query ==> params == [ParseField(query)]
  {
    ParseFields(Split(query, '&'))
  }

  /** The value of the first field called `name`. */
  function Get(params: seq<Param>, name: seq<char>): (v: Option<seq<char>>)
    ensures v.Some? <==> exists k :: 0 <= k < |params| && params[k].name == name
    ensures v.Some? ==> exists k :: 0 <= k < |params| && params[k] == Param(name, v.value)
                          && forall m :: 0 <= m < k ==> params[m].name != name
  {
    if params == [] then None
    else if params[0].name == name then Some(params[0].value)
    else
      var v := Get(params[1..], name);
      assert forall k :: 0 < k < |params| ==> params[k] == params[1..][k - 1];
      v
  }

  /** The part of a URL after its first `?`, or nothing when it has none. */
  function QueryString(url: seq<char>): (q: seq<char>)
    ensures '?' !in url ==> q == []
    ensures '?' in url ==> exists i :: 0 <= i < |url| && url[i] == '?' && '?' !in url[..i] && q == url[i + 1..]
  {
    var i := IndexOf(url, '?');
    if i == |url| then [] else url[i + 1..]
  }
}
