/**
 * The `/result` route's reading of the redirect that `/analyze` sends a form client to:
 * `request.args.get` of "tweet", "sentiment" and "confidence", with the defaults
 * `""`, `"Unknown"` and `"N/A"`. Rendering the template is not part of this model.
 */
module ResultPage {
  import opened Wrappers
  import opened Strings
  import Percent
  import Query
  import opened Analyze

  /** The three values the result page is rendered with. */
  datatype View = View(tweet: seq<char>, sentiment: seq<char>, confidence: seq<char>)

  /** The value the route shows for `name`: that of the first field with the name, or the
      default when no field has it. */
  ghost predicate Shows(args: seq<Query.Param>, name: seq<char>, value: seq<char>, default: seq<char>)
  {
    if exists k :: 0 <= k < |args| && args[k].name == name then
      exists k :: 0 <= k < |args| && args[k] == Query.Param(name, value)
                  && forall m :: 0 <= m < k ==> args[m].name != name
    else value == default
  }

  /** The view of a URL's query parameters, with the route's defaults for missing ones. */
  function Read(url: seq<char>): (v: View)
    ensures var args := Query.Parse(Query.QueryString(url));
            && Shows(args, "tweet", v.tweet, "")
            && Shows(args, "sentiment", v.sentiment, "Unknown")
            && Shows(args, "confidence", v.confidence, "N/A")
  {
    var args := Query.Parse(Query.QueryString(url));
    View(Query.Get(args, "tweet").GetOr(""),
         Query.Get(args, "sentiment").GetOr("Unknown"),
         Query.Get(args, "confidence").GetOr("N/A"))
  }

  /** A parameter name that decodes to itself and holds no `=` or `&`. */
  predicate PlainName(name: seq<char>)
  {
    forall k :: 0 <= k < |name| ==> name[k] != '=' && name[k] != '&' && name[k] != '%' && name[k] != '+'
  }

  /** A field with a plain name decodes to that name and the decoded value. */
  lemma ParseNamedField(name: Text, value: Text)
    requires PlainName(name)
    ensures Query.ParseField(Field(name, value)) == Query.Param(name, Percent.UnquotePlus(value))
  {
    var f := Field(name, value);
    Query.IndexOfFirst(name, '=', value);
    assert f == name + ['='] + value;
    assert f[..|name|] == name && f[|name| + 1..] == value;
    Percent.UnquotePlain(name);
  }

  /** A field with a plain name and a value without `&` holds no `&`. */
  lemma FieldHasNoAmpersand(name: Text, value: Text)
    requires PlainName(name) && '&' !in value
    ensures '&' !in Field(name, value)
  {
  }

  /** A quoted text holds no `&`, so it stays inside its query field. */
  lemma QuotedHasNoAmpersand(s: Text)
    ensures '&' !in Percent.Quote(s)
  {
    var q := Percent.Quote(s);
    forall k | 0 <= k < |q| ensures q[k] != '&' {
      assert Percent.IsSafe(q[k]) || q[k] == '%';
    }
  }

  /** Three pieces without `&`, joined by `&`, split back into those three pieces. */
  lemma SplitThree(a: seq<char>, b: seq<char>, c: seq<char>)
    requires '&' !in a && '&' !in b && '&' !in c
    ensures Query.Split(a + "&" + b + "&" + c, '&') == [a, b, c]
  {
    assert a + "&" + b + "&" + c == a + ['&'] + (b + ['&'] + c);
    Query.SplitFirst(a, '&', b + ['&'] + c);
    Query.SplitFirst(b, '&', c);
    Query.SplitNone(c, '&');
  }

  /** Non-empty pieces are each decoded as a field, in order. */
  lemma ParseFieldsOfThree(a: seq<char>, b: seq<char>, c: seq<char>)
    requires a != [] && b != [] && c != []
    ensures Query.ParseFields([a, b, c]) == [Query.ParseField(a), Query.ParseField(b), Query.ParseField(c)]
  {
    var pa, pb, pc := Query.ParseField(a), Query.ParseField(b), Query.ParseField(c);
    assert Query.ParseFields([c]) == [pc] by {
      assert [c][1..] == [];
    }
    assert Query.ParseFields([b, c]) == [pb, pc] by {
      assert [b, c][1..] == [c];
    }
    assert [a, b, c][1..] == [b, c];
  }

  /** Three fields with plain names and values without `&`, joined by `&`,
      decode to those names and the decoded values, in order. */
  lemma ParseThreeFields(n1: Text, v1: Text, n2: Text, v2: Text, n3: Text, v3: Text)
    requires PlainName(n1) && PlainName(n2) && PlainName(n3)
    requires '&' !in v1 && '&' !in v2 && '&' !in v3
    ensures Query.Parse(Field(n1, v1) + "&" + Field(n2, v2) + "&" + Field(n3, v3))
         == [Query.Param(n1, Percent.UnquotePlus(v1)),
             Query.Param(n2, Percent.UnquotePlus(v2)),
             Query.Param(n3, Percent.UnquotePlus(v3))]
  {
    var a, b, c := Field(n1, v1), Field(n2, v2), Field(n3, v3);
    FieldHasNoAmpersand(n1, v1);
    FieldHasNoAmpersand(n2, v2);
    FieldHasNoAmpersand(n3, v3);
    SplitThree(a, b, c);
    ParseFieldsOfThree(a, b, c);
    ParseNamedField(n1, v1);
    ParseNamedField(n2, v2);
    ParseNamedField(n3, v3);
  }

  /** The numeral of a label holds no `&`, `%` or `+`. */
  lemma NumeralIsPlain(n: int)
    ensures var d := IntToDecimal(n);
            '&' !in d && forall k :: 0 <= k < |d| ==> d[k] != '%' && d[k] != '+'
  {
    var d := IntToDecimal(n);
    forall k | 0 <= k < |d| ensures d[k] != '&' && d[k] != '%' && d[k] != '+' {
      assert IsDigit(d[k]) || d[k] == '-';
    }
  }

  /** The redirect's query string reads back as exactly the text, the numeral of the label and
      the confidence string that built it: the percent-encoding loses nothing, and no value
      spills into another parameter. */
  lemma RedirectRoundTrip(res: Prediction, percent: real -> Text)
    ensures Read(RedirectTarget(res, percent))
         == View(res.text, IntToDecimal(res.sentiment), ConfidenceText(res.score, percent))
  {
    NumeralIsPlain(res.sentiment);
    ReadBack(res.text, IntToDecimal(res.sentiment), ConfidenceText(res.score, percent));
  }

  /** The redirect-shaped URL of any text, plain numeral and confidence string reads back as them. */
  lemma ReadBack(text: Text, d: Text, conf: Text)
    requires '&' !in d && forall k :: 0 <= k < |d| ==> d[k] != '%' && d[k] != '+'
    ensures Read("/result?" + RedirectQuery(Percent.Quote(text), d, Percent.Quote(conf))) == View(text, d, conf)
  {
    var q := RedirectQuery(Percent.Quote(text), d, Percent.Quote(conf));
    var url := "/result?" + q;
    QueryAfterPath(q);
    ParseRedirectQuery(text, d, conf);
    ReadThree(url, text, d, conf);
  }

  /** The redirect's query string decodes to its three parameters, in order. */
  lemma ParseRedirectQuery(text: Text, d: Text, conf: Text)
    requires '&' !in d && forall k :: 0 <= k < |d| ==> d[k] != '%' && d[k] != '+'
    ensures Query.Parse(RedirectQuery(Percent.Quote(text), d, Percent.Quote(conf)))
         == [Query.Param("tweet", text), Query.Param("sentiment", d), Query.Param("confidence", conf)]
  {
    QuotedHasNoAmpersand(text);
    QuotedHasNoAmpersand(conf);
    NamesArePlain();
    ParseThreeFields("tweet", Percent.Quote(text), "sentiment", d, "confidence", Percent.Quote(conf));
    Percent.QuoteRoundTrip(text);
    Percent.QuoteRoundTrip(conf);
    Percent.UnquotePlain(d);
  }

  /** The three parameter names of the redirect are plain. */
  lemma NamesArePlain()
    ensures PlainName("tweet") && PlainName("sentiment") && PlainName("confidence")
  {
  }

  /** The query string of `/result?q` is `q`. */
  lemma QueryAfterPath(q: seq<char>)
    ensures Query.QueryString("/result?" + q) == q
  {
    assert "/result?" + q == "/result" + ['?'] + q;
    Query.IndexOfFirst("/result", '?', q);
  }

  /** The route finds each of the three parameters it reads when the query holds exactly them. */
  lemma ReadThree(url: seq<char>, tweet: seq<char>, sentiment: seq<char>, confidence: seq<char>)
    requires Query.Parse(Query.QueryString(url))
          == [Query.Param("tweet", tweet), Query.Param("sentiment", sentiment), Query.Param("confidence", confidence)]
    ensures Read(url) == View(tweet, sentiment, confidence)
  {
    var args := Query.Parse(Query.QueryString(url));
    assert args[1..] == [Query.Param("sentiment", sentiment), Query.Param("confidence", confidence)];
    assert args[1..][1..] == [Query.Param("confidence", confidence)];
    assert "tweet" != "sentiment" && "tweet" != "confidence" && "sentiment" != "confidence" by {
      assert "tweet"[0] != "sentiment"[0] && "tweet"[0] != "confidence"[0] && "sentiment"[0] != "confidence"[0];
    }
    assert Query.Get(args, "tweet") == Some(tweet);
    assert Query.Get(args, "sentiment") == Query.Get(args[1..], "sentiment") == Some(sentiment);
    assert Query.Get(args, "confidence") == Query.Get(args[1..][1..], "confidence") == Some(confidence);
  }

  /** A form client whose text was classified lands on a result page showing the trimmed text,
      the label and the confidence string of its first result. */
  lemma FormClientSeesItsResult<X>(tweet: Option<Text>, model: Model<X>, percent: real -> Text)
    requires Respond(FormRequest(tweet), model, percent).Redirect?
    ensures var x := model.transform([FormText(tweet)]).value;
            var preds := model.predict(x).value;
            var conf := Confidence(model, x, |preds|);
            && preds != [] && conf != []
            && Read(Respond(FormRequest(tweet), model, percent).location)
               == View(FormText(tweet), IntToDecimal(preds[0]), ConfidenceText(conf[0], percent))
  {
    var x := model.transform([FormText(tweet)]).value;
    var preds := model.predict(x).value;
    var conf := Confidence(model, x, |preds|);
    RedirectRoundTrip(Prediction(FormText(tweet), preds[0], conf[0]), percent);
  }
}
