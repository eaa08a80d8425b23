/**
 * What the `/analyze` handler promises, stated over `Analyze.Respond`.
 */
module Properties {
  import opened Wrappers
  import opened Strings
  import opened Analyze

  /** The 400 "No tweet received" answer is given exactly to the requests without text. */
  lemma RejectedIffEmpty<X>(req: Request, model: Model<X>, percent: real -> Text)
    ensures Respond(req, model, percent) == NoTweetReceived <==> EmptyInput(req)
  {
  }

  /** An empty request is answered without calling the vectorizer or the classifier:
      its answer is the same whatever they are. */
  lemma NoInferenceOnEmptyInput<X, Y>(req: Request, m1: Model<X>, m2: Model<Y>,
                                      p1: real -> Text, p2: real -> Text)
    requires EmptyInput(req)
    ensures Respond(req, m1, p1) == Respond(req, m2, p2) == NoTweetReceived
  {
  }

  /** The JSON protocol returns every assembled result, in input order: record `i` holds
      the `i`-th text, its predicted label and its score, and there are as many records as
      the shortest of the texts, the labels and the scores. */
  lemma JsonResultsCorrespond<X>(tweets: seq<Text>, model: Model<X>, percent: real -> Text)
    requires tweets != [] && model.transform(tweets).Ok?
    requires model.predict(model.transform(tweets).value).Ok?
    ensures var x := model.transform(tweets).value;
            var preds := model.predict(x).value;
            var conf := Confidence(model, x, |preds|);
            var r := Respond(JsonRequest(Object(Some(tweets))), model, percent);
            && r.JsonResponse? && r.status == 200 && r.body.Predictions?
            && |r.body.items| == Min3(|tweets|, |preds|, |conf|)
            && forall i :: 0 <= i < |r.body.items| ==>
                 r.body.items[i] == Prediction(tweets[i], preds[i], conf[i])
  {
  }

  /** When the classifier gives one label per text and the scores do not run short,
      a JSON client gets exactly one record per text, carrying that text. */
  lemma OneRecordPerTweet<X>(tweets: seq<Text>, model: Model<X>, percent: real -> Text)
    requires tweets != [] && model.transform(tweets).Ok?
    requires model.predict(model.transform(tweets).value).Ok?
    requires |model.predict(model.transform(tweets).value).value| == |tweets|
    requires var x := model.transform(tweets).value;
             model.predictProba.Some? && model.predictProba.value(x).Ok?
             ==> |model.predictProba.value(x).value| >= |tweets|
    ensures var r := Respond(JsonRequest(Object(Some(tweets))), model, percent);
            && r.JsonResponse? && r.body.Predictions? && |r.body.items| == |tweets|
            && forall i :: 0 <= i < |tweets| ==> r.body.items[i].text == tweets[i]
  {
    JsonResultsCorrespond(tweets, model, percent);
  }

  /** A `predict_proba` that raises on this request's features, or whose rows for them cannot all be maximised, is the same to
      the client as a classifier without `predict_proba`: the scores go missing and
      nothing else changes, so it never turns into an error. */
  lemma ProbaFailureRecovered<X>(req: Request, model: Model<X>,
                                 proba: X -> Result<seq<seq<real>>>, percent: real -> Text)
    requires var g := Normalise(req);
             g.Batch? && g.tweets != [] && model.transform(g.tweets).Ok? ==>
               var x := model.transform(g.tweets).value;
               proba(x).Err? || !NoEmptyRow(proba(x).value)
    ensures Respond(req, model.(predictProba := Some(proba)), percent)
         == Respond(req, model.(predictProba := None), percent)
  {
    var with, without := model.(predictProba := Some(proba)), model.(predictProba := None);
    match Normalise(req)
    case Batch(protocol, tweets) =>
      if tweets != [] && model.transform(tweets).Ok? {
        var x := model.transform(tweets).value;
        if model.predict(x).Ok? {
          var n := |model.predict(x).value|;
          assert Confidence(with, x, n) == NoScores(n) == Confidence(without, x, n);
        }
      }
    case _ =>
  }

  /** Without `predict_proba`, a JSON batch is answered with every label and no score. */
  lemma MissingScoresAreNotErrors<X>(tweets: seq<Text>, model: Model<X>, percent: real -> Text)
    requires model.predictProba.None?
    requires tweets != [] && model.transform(tweets).Ok?
    requires model.predict(model.transform(tweets).value).Ok?
    ensures var preds := model.predict(model.transform(tweets).value).value;
            var r := Respond(JsonRequest(Object(Some(tweets))), model, percent);
            && r == JsonResponse(200, r.body) && r.body.Predictions?
            && |r.body.items| == Min3(|tweets|, |preds|, |preds|)
            && forall i :: 0 <= i < |r.body.items| ==>
                 r.body.items[i].sentiment == preds[i] && r.body.items[i].score == None
  {
    JsonResultsCorrespond(tweets, model, percent);
  }

  /** Every entry of every row lies between 0 and 1. */
  predicate Probabilities(probs: seq<seq<real>>)
  {
    forall i, k :: 0 <= i < |probs| && 0 <= k < |probs[i]| ==> 0.0 <= probs[i][k] <= 1.0
  }

  /** When `predict_proba` yields probabilities, every score in a JSON answer is missing
      or lies between 0 and 1. */
  lemma ScoresAreProbabilities<X>(req: Request, model: Model<X>, percent: real -> Text)
    requires model.predictProba.Some? ==> forall x :: model.predictProba.value(x).Ok? ==>
               Probabilities(model.predictProba.value(x).value)
    ensures var r := Respond(req, model, percent);
            r.JsonResponse? && r.body.Predictions? ==>
              forall i :: 0 <= i < |r.body.items| ==>
                r.body.items[i].score.None? || 0.0 <= r.body.items[i].score.value <= 1.0
  {
    match Normalise(req)
    case Batch(protocol, tweets) =>
      if tweets != [] && model.transform(tweets).Ok? {
        var x := model.transform(tweets).value;
        if model.predict(x).Ok? {
          var preds := model.predict(x).value;
          var conf := Confidence(model, x, |preds|);
          assert forall i :: 0 <= i < |conf| ==> conf[i].None? || 0.0 <= conf[i].value <= 1.0 by {
            if model.predictProba.Some? && model.predictProba.value(x).Ok?
               && NoEmptyRow(model.predictProba.value(x).value) {
              var probs := model.predictProba.value(x).value;
              forall i | 0 <= i < |conf| ensures 0.0 <= conf[i].value <= 1.0 {
                var k :| 0 <= k < |probs[i]| && probs[i][k] == conf[i].value;
              }
            }
          }
        }
      }
    case _ =>
  }

  /** A failing vectorizer or classifier yields a 500 carrying its message and nothing else. */
  lemma InferenceFailureIsServerError<X>(req: Request, model: Model<X>, percent: real -> Text)
    requires Normalise(req).Batch? && Normalise(req).tweets != []
    ensures var tweets := Normalise(req).tweets;
            model.transform(tweets).Err? ==>
              Respond(req, model, percent) == ServerError(model.transform(tweets).message)
    ensures var tweets := Normalise(req).tweets;
            model.transform(tweets).Ok? && model.predict(model.transform(tweets).value).Err? ==>
              Respond(req, model, percent) == ServerError(model.predict(model.transform(tweets).value).message)
  {
  }

  /** A JSON body that cannot be read yields a 500 carrying the exception's message. */
  lemma UnreadableBodyIsServerError<X>(message: string, model: Model<X>, percent: real -> Text)
    ensures Respond(JsonRequest(Unreadable(message)), model, percent) == ServerError(message)
  {
  }

  /** A form with text is redirected with its one and only result, built from the trimmed field,
      the first label and the first score; with no result at all, `results[0]` raises and the
      client gets a 500. */
  lemma FormRedirectsFirstResult<X>(tweet: Option<Text>, model: Model<X>, percent: real -> Text)
    requires !AllSpace(tweet.GetOr(""))
    requires model.transform([FormText(tweet)]).Ok?
    requires model.predict(model.transform([FormText(tweet)]).value).Ok?
    ensures var x := model.transform([FormText(tweet)]).value;
            var preds := model.predict(x).value;
            var conf := Confidence(model, x, |preds|);
            var r := Respond(FormRequest(tweet), model, percent);
            && (preds != [] && conf != [] ==>
                  r == Redirect(RedirectTarget(Prediction(FormText(tweet), preds[0], conf[0]), percent)))
            && (preds == [] || conf == [] ==> r == ServerError(IndexErrorMessage))
  {
    var text := FormText(tweet);
    assert Normalise(FormRequest(tweet)) == Batch(Form, [text]);
    var x := model.transform([text]).value;
    var preds := model.predict(x).value;
    var conf := Confidence(model, x, |preds|);
    var results := Zip3([text], preds, conf);
    assert Respond(FormRequest(tweet), model, percent) == Route(Form, results, percent);
    if preds != [] && conf != [] {
      assert results[0] == Prediction(text, preds[0], conf[0]);
    } else {
      assert results == [];
    }
  }
}
