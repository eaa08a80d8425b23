/**
 * The `/analyze` request pipeline: normalise the request into a batch of texts,
 * vectorize and classify the batch, derive a confidence per item, assemble the
 * results, and answer with JSON or with a redirect; every failure on the way
 * becomes a JSON error response.
 */
module Analyze {
  import opened Wrappers
  import opened Strings
  import Percent

  /** Which client protocol a request came in by; it decides the shape of the answer. */
  datatype Protocol = Json | Form

  /** The body of a request whose content type is JSON. */
  datatype JsonBody =
    | Object(tweets: Option<seq<Text>>)   // an object, with its "tweets" list if it has one
    | Unreadable(message: string)         // `get_json()` or `data.get` raised, with this message

  /** A request to `/analyze`: a JSON body, or a form with its optional "tweet" field. */
  datatype Request = JsonRequest(body: JsonBody) | FormRequest(tweet: Option<Text>)

  /** What normalisation makes of a request. */
  datatype Ingress =
    | Batch(protocol: Protocol, tweets: seq<Text>)
    | EmptyForm                      // the form field is missing or whitespace only
    | BodyError(message: string)     // reading the JSON body raised

  /** The pre-trained collaborators, each a call that may raise. `X` is the feature matrix;
      `predictProba` is `None` when the classifier has no such attribute. */
  datatype Model<!X> = Model(
    transform: seq<Text> -> Result<X>,
    predict: X -> Result<seq<int>>,
    predictProba: Option<X -> Result<seq<seq<real>>>>)

  /** One `{text, sentiment, score}` record. */
  datatype Prediction = Prediction(text: Text, sentiment: int, score: Option<real>)

  datatype Body = Predictions(items: seq<Prediction>) | Error(message: string)

  /** A JSON response with its status, or a 302 redirect to `location`. */
  datatype Response = JsonResponse(status: int, body: Body) | Redirect(location: Text)

  const NoTweetMessage: string := "No tweet received"

  /** The message of the `IndexError` raised by `results[0]` on an empty list. */
  const IndexErrorMessage: string := "list index out of range"

  /** The answer to a request that carried no text. */
  const NoTweetReceived: Response := JsonResponse(400, Error(NoTweetMessage))

  /** The catch-all boundary: an exception becomes a 500 with its message. */
  function ServerError(message: string): (r: Response)
    ensures r.JsonResponse? && r.status == 500 && r.body.Error? && r.body.message == message
  {
    JsonResponse(500, Error(message))
  }

  // ---------------------------------------------------------------------------
  // Normalisation

  /** The form field as the handler sees it: `request.form.get("tweet", "").strip()`. */
  function FormText(tweet: Option<Text>): (t: Text)
    ensures IsStripOf(t, tweet.GetOr(""))
    ensures t == [] <==> tweet.None? || AllSpace(tweet.value)
  {
    Strip(tweet.GetOr(""))
  }

  /** A JSON body keeps its "tweets" list as it is (no list when absent); a form gives a batch
      of one trimmed text, or nothing when the field holds no text. */
  function Normalise(req: Request): (g: Ingress)
    ensures req.JsonRequest? && req.body.Unreadable? ==> g == BodyError(req.body.message)
    ensures req.JsonRequest? && req.body.Object? && req.body.tweets.Some? ==> g == Batch(Json, req.body.tweets.value)
    ensures req.JsonRequest? && req.body.Object? && req.body.tweets.None? ==> g == Batch(Json, [])
    ensures req.FormRequest? ==> (g == EmptyForm <==> AllSpace(req.tweet.GetOr("")))
    ensures req.FormRequest? && g != EmptyForm ==>
              g.Batch? && g.protocol == Form && |g.tweets| == 1 && g.tweets[0] != []
              && IsStripOf(g.tweets[0], req.tweet.GetOr(""))
  {
    match req
    case JsonRequest(Unreadable(m)) => BodyError(m)
    case JsonRequest(Object(tweets)) => Batch(Json, tweets.GetOr([]))
    case FormRequest(tweet) =>
      var text := FormText(tweet);
      if text == [] then EmptyForm else Batch(Form, [text])
  }

  /** The request carries no text to classify: `not tweet_text` or `not tweets`. */
  predicate EmptyInput(req: Request): (b: bool)
    ensures b <==> Normalise(req).EmptyForm? || (Normalise(req).Batch? && Normalise(req).tweets == [])
  {
    match req
    case JsonRequest(Unreadable(_)) => false
    case JsonRequest(Object(tweets)) => tweets.GetOr([]) == []
    case FormRequest(tweet) => AllSpace(tweet.GetOr(""))
  }

  // ---------------------------------------------------------------------------
  // Confidence

  /** Python's `max(row)`: the largest entry; an empty row raises. */
  function Max(row: seq<real>): (r: Result<real>)
    ensures r.Ok? <==> row != []
    ensures r.Ok? ==> r.value in row && forall k :: 0 <= k < |row| ==> row[k] <= r.value
  {
    if row == [] then Err("max() arg is an empty sequence")
    else if |row| == 1 then Ok(row[0])
    else
      var m := Max(row[1..]).value;
      Ok(if m < row[0] then row[0] else m)
  }

  /** `[float(max(row)) for row in probs]`: the row maxima, or the error of the first empty row. */
  function RowMaxima(probs: seq<seq<real>>): (r: Result<seq<real>>)
    ensures r.Ok? <==> forall i :: 0 <= i < |probs| ==> probs[i] != []
    ensures r.Ok? ==> |r.value| == |probs| && forall i :: 0 <= i < |probs| ==> Max(probs[i]) == Ok(r.value[i])
  {
    if probs == [] then Ok([])
    else match Max(probs[0])
      case Err(m) => Err(m)
      case Ok(m) =>
        match RowMaxima(probs[1..])
        case Err(e) => Err(e)
        case Ok(ms) =>
          assert forall i :: 0 < i < |probs| ==> probs[i] == probs[1..][i - 1];
          Ok([m] + ms)
  }

  /** `[None] * n`. */
  function NoScores(n: nat): (conf: seq<Option<real>>)
    ensures |conf| == n && forall i :: 0 <= i < n ==> conf[i] == None
  {
    seq(n, _ => None)
  }

  /** Every row of `probs` has at least one entry. */
  predicate NoEmptyRow(probs: seq<seq<real>>)
  {
    forall i :: 0 <= i < |probs| ==> probs[i] != []
  }

  /** The scores of a batch of `n` predictions: the maximum of each probability row when
      `predict_proba` exists and it and every `max` succeed; otherwise `n` missing scores. */
  function Confidence<X>(model: Model<X>, x: X, n: nat): (conf: seq<Option<real>>)
    ensures model.predictProba.None? ==> conf == NoScores(n)
    ensures model.predictProba.Some? && model.predictProba.value(x).Err? ==> conf == NoScores(n)
    ensures (model.predictProba.Some? && model.predictProba.value(x).Ok?
             && !NoEmptyRow(model.predictProba.value(x).value)) ==> conf == NoScores(n)
    ensures (model.predictProba.Some? && model.predictProba.value(x).Ok?
             && NoEmptyRow(model.predictProba.value(x).value)) ==>
              var probs := model.predictProba.value(x).value;
              && |conf| == |probs|
              && (forall i :: 0 <= i < |probs| ==> conf[i].Some? && conf[i].value in probs[i])
              && (forall i, k :: 0 <= i < |probs| && 0 <= k < |probs[i]| ==> probs[i][k] <= conf[i].value)
  {
    match model.predictProba
    case None => NoScores(n)
    case Some(proba) =>
      match proba(x)
      case Err(_) => NoScores(n)
      case Ok(probs) =>
        match RowMaxima(probs)
        case Err(_) => NoScores(n)
        case Ok(ms) => seq(|ms|, i requires 0 <= i < |ms| => Some(ms[i]))
  }

  // ---------------------------------------------------------------------------
  // Result assembly

  function Min3(a: nat, b: nat, c: nat): nat
  {
    if a <= b && a <= c then a else if b <= c then b else c
  }

  /** `zip(tweets, preds, conf)` turned into records: as long as the shortest input,
      and record `i` holds the `i`-th text, label and score. */
  function Zip3(texts: seq<Text>, labels: seq<int>, scores: seq<Option<real>>): (r: seq<Prediction>)
    ensures |r| == Min3(|texts|, |labels|, |scores|)
    ensures forall i :: 0 <= i < |r| ==> r[i] == Prediction(texts[i], labels[i], scores[i])
  {
    if texts == [] || labels == [] || scores == [] then []
    else [Prediction(texts[0], labels[0], scores[0])] + Zip3(texts[1..], labels[1..], scores[1..])
  }

  /** The `for t, p, c in zip(...)` loop that appends one record per item. */
  method AssembleResults(texts: seq<Text>, labels: seq<int>, scores: seq<Option<real>>)
    returns (results: seq<Prediction>)
    ensures results == Zip3(texts, labels, scores)
  {
    var n := Min3(|texts|, |labels|, |scores|);
    results := [];
    var i := 0;
    while i < n
      invariant 0 <= i <= n
      invariant |results| == i
      invariant forall k :: 0 <= k < i ==> results[k] == Prediction(texts[k], labels[k], scores[k])
    {
      results := results + [Prediction(texts[i], labels[i], scores[i])];
      i := i + 1;
    }
  }

  // ---------------------------------------------------------------------------
  // Response shaping

  /** The confidence shown on the result page: `"N/A"` when the score is missing or zero
      (the handler tests its truthiness), otherwise the percentage followed by `%`.
      `percent(v)` stands for the one-decimal rendering of `v * 100`. */
  function ConfidenceText(score: Option<real>, percent: real -> Text): (s: Text)
    ensures s == "N/A" <==> score.None? || score.value == 0.0
    ensures s != "N/A" ==> |s| >= 1 && s[|s| - 1] == '%' && s[..|s| - 1] == percent(score.value)
  {
    if score.Some? && score.value != 0.0 then
      var s := percent(score.value) + "%";
      assert s[|s| - 1] != "N/A"[2];
      s
    else
      "N/A"
  }

  /** One `name=value` field of a query string. */
  function Field(name: Text, value: Text): Text
  {
    name + "=" + value
  }

  /** A character that may stand in the redirect target without escaping. */
  predicate IsUrlChar(c: char)
  {
    Percent.IsSafe(c) || c == '%' || c == '?' || c == '=' || c == '&'
  }

  /** The redirect target built from one result:
      `/result?tweet=<quoted text>&sentiment=<label>&confidence=<quoted confidence>`. */
  function RedirectTarget(res: Prediction, percent: real -> Text): (url: Text)
    ensures UrlText(url)
  {
    var tweet := Percent.Quote(res.text);
    var numeral := IntToDecimal(res.sentiment);
    var confidence := Percent.Quote(ConfidenceText(res.score, percent));
    TargetIsUrl(tweet, numeral, confidence);
    "/result?" + RedirectQuery(tweet, numeral, confidence)
  }

  /** The query string of the redirect: `tweet=<tweet>&sentiment=<numeral>&confidence=<confidence>`. */
  function RedirectQuery(tweet: Text, numeral: Text, confidence: Text): Text
  {
    Field("tweet", tweet) + "&" + Field("sentiment", numeral) + "&" + Field("confidence", confidence)
  }

  /** A target of the redirect's shape is made of URL characters when its values are. */
  lemma TargetIsUrl(tweet: Text, digits: Text, confidence: Text)
    requires forall k :: 0 <= k < |tweet| ==> Percent.IsSafe(tweet[k]) || tweet[k] == '%'
    requires forall k :: 0 <= k < |digits| ==> IsDigit(digits[k]) || digits[k] == '-'
    requires forall k :: 0 <= k < |confidence| ==> Percent.IsSafe(confidence[k]) || confidence[k] == '%'
    ensures UrlText("/result?" + RedirectQuery(tweet, digits, confidence))
  {
    assert UrlText("/result?") && UrlText("&") && UrlText("=");
    assert UrlText("tweet") && UrlText("sentiment") && UrlText("confidence");
    assert UrlText(tweet) && UrlText(digits) && UrlText(confidence);
    var t := Field("tweet", tweet);
    var l := Field("sentiment", digits);
    var c := Field("confidence", confidence);
    UrlJoin("tweet", "="); UrlJoin("tweet=", tweet);
    UrlJoin("sentiment", "="); UrlJoin("sentiment=", digits);
    UrlJoin("confidence", "="); UrlJoin("confidence=", confidence);
    UrlJoin(t, "&"); UrlJoin(t + "&", l); UrlJoin(t + "&" + l, "&"); UrlJoin(t + "&" + l + "&", c);
    UrlJoin("/result?", RedirectQuery(tweet, digits, confidence));
  }

  /** The text holds only URL characters. */
  predicate UrlText(s: seq<char>)
  {
    forall k :: 0 <= k < |s| ==> IsUrlChar(s[k])
  }

  lemma UrlJoin(a: seq<char>, b: seq<char>)
    requires UrlText(a) && UrlText(b)
    ensures UrlText(a + b)
  {
    forall k | 0 <= k < |a + b| ensures IsUrlChar((a + b)[k]) {
      if k >= |a| { assert (a + b)[k] == b[k - |a|]; }
    }
  }

  /** JSON clients get every result; form clients are redirected with the first one,
      and `results[0]` raises when there is none. */
  function Route(protocol: Protocol, results: seq<Prediction>, percent: real -> Text): (r: Response)
    ensures r.JsonResponse? ==> (r.status == 200 <==> protocol == Json)
    ensures protocol == Json ==> r.JsonResponse? && r.body == Predictions(results)
    ensures r.Redirect? <==> protocol == Form && results != []
    ensures r.Redirect? ==> r.location == RedirectTarget(results[0], percent)
    ensures protocol == Form && results == [] ==> r == ServerError(IndexErrorMessage)
  {
    match protocol
    case Json => JsonResponse(200, Predictions(results))
    case Form =>
      if results == [] then ServerError(IndexErrorMessage)
      else Redirect(RedirectTarget(results[0], percent))
  }

  // ---------------------------------------------------------------------------
  // The handler

  /** The response of `/analyze` to a request. A JSON response is a 200 with predictions,
      or a 400 or a 500 with an error: no other status, and never a partial result. */
  function Respond<X>(req: Request, model: Model<X>, percent: real -> Text): (r: Response)
    ensures r.JsonResponse? ==> r.status == 200 || r.status == 400 || r.status == 500
    ensures r.JsonResponse? ==> (r.status == 200 <==> r.body.Predictions?)
    ensures r.Redirect? ==> req.FormRequest?
    ensures r.JsonResponse? && r.status == 200 ==> req.JsonRequest?
  {
    match Normalise(req)
    case BodyError(m) => ServerError(m)
    case EmptyForm => NoTweetReceived
    case Batch(protocol, tweets) =>
      if tweets == [] then NoTweetReceived
      else match model.transform(tweets)
        case Err(m) => ServerError(m)
        case Ok(x) =>
          match model.predict(x)
          case Err(m) => ServerError(m)
          case Ok(preds) => Route(protocol, Zip3(tweets, preds, Confidence(model, x, |preds|)), percent)
  }

  /** The handler as the source runs it: one stage after another, returning early on
      an empty batch or a raised exception. */
  method Analyze<X>(req: Request, model: Model<X>, percent: real -> Text) returns (resp: Response)
    ensures resp == Respond(req, model, percent)
  {
    var ingress := Normalise(req);
    if ingress.BodyError? {
      return ServerError(ingress.message);
    }
    if ingress.EmptyForm? || ingress.tweets == [] {
      return NoTweetReceived;
    }
    var tweets := ingress.tweets;
    var x := model.transform(tweets);
    if x.Err? {
      return ServerError(x.message);
    }
    var preds := model.predict(x.value);
    if preds.Err? {
      return ServerError(preds.message);
    }
    var conf := Confidence(model, x.value, |preds.value|);
    var results := AssembleResults(tweets, preds.value, conf);
    resp := Route(ingress.protocol, results, percent);
  }
}
