# Sentiment `/analyze` endpoint, modelled in Dafny

The repository is a small Flask service. It classifies pieces of text ("tweets") with a
pre-trained vectorizer and classifier. Its single piece of logic is the `/analyze` request
handler (`app.py`, lines 41-101). It serves two client protocols from one endpoint:

- A **JSON** client posts `{"tweets": [...]}` and gets back
  `{"predictions": [{text, sentiment, score}, ...]}`.
- A **form** client posts `tweet=<text>` and is redirected to
  `/result?tweet=…&sentiment=…&confidence=…`, built from the first result only.

Missing text gives a 400 `{"error": "No tweet received"}`. Any exception gives a 500
carrying the exception's message.

The model follows the handler stage by stage:

- `wrappers.dfy` (`Wrappers`): `Option`, and `Result` for a call that may raise (its error is
  the message `str(e)`).
- `strings.dfy` (`Strings`): the ASCII text domain, Python's `str.strip()`, and `str()` of an
  integer label.
- `percent.dfy` (`Percent`): `urllib.parse.quote` with its default safe `/`, which does the
  percent-encoding of section 2.1 of RFC 3986 and leaves the unreserved characters of
  section 2.3 alone. It also has the `unquote_plus` decoding that is applied when the query
  string is read back.
- `query.dfy` (`Query`): splitting and decoding a query string into its parameters.
- `analyze.dfy` (`Analyze`): the pipeline itself.
  - Normalisation (`Normalise`), confidence derivation (`Max`, `RowMaxima`, `Confidence`),
    result assembly (`Zip3` and the loop `AssembleResults`), response shaping
    (`ConfidenceText`, `RedirectTarget`, `Route`) and the catch-all error boundary
    (`ServerError`).
  - `Respond` is the response as a function of the request.
  - `Analyze` is the handler as an imperative method with early returns. It is proved to
    return exactly `Respond`.
- `properties.dfy` (`Properties`): what the endpoint promises, as lemmas over `Respond`.
- `result_page.dfy` (`ResultPage`): how the `/result` route reads the three query
  parameters, with their defaults (`app.py`, lines 105-109). This is the partner of the
  redirect: the redirect is proved to read back as exactly the text, label and confidence
  string it was built from.

The collaborators are parameters.
- `vectorizer.transform`, `model.predict` and `model.predict_proba` are the fields of a
  `Model<X>` value. Each is a function that returns a value or raises. `X` is the feature
  matrix.
- `predict_proba` is an `Option`, which models `hasattr(model, "predict_proba")`.
- The one-decimal rendering of `score * 100` is the parameter `percent: real -> Text`.

In four places the code does something other than what one might expect of the endpoint. The model follows the code:

- The number of results is the length of the shortest of the texts, the labels and the
  confidences, because the code builds them with `zip`. One might expect one result per
  input. `OneRecordPerTweet` states when the two agree.
- A form request whose results come out empty fails at `results[0]`. The client then gets a
  500 with the message of that `IndexError`. This happens when the classifier returns no
  label, or when `predict_proba` returns no rows.
- An empty probability row makes `max` raise. The bare `except` then sets every confidence
  to missing, just as when `predict_proba` is missing or raises.
- The confidence string is `"N/A"` for a score of zero as well as for a missing score,
  because the code tests the score's truthiness.

## Model

| member | source | states |
|---|---|---|
| `Strings.SkipLeading` | app.py:49 | the left-hand scan of `.strip()` stops at the first character that is not whitespace, or at the end, and passes only whitespace |
| `Strings.SkipTrailing` | app.py:49 | the right-hand scan of `.strip()` stops just after the last character that is not whitespace, never before where the left-hand scan stopped, and passes only whitespace |
| `Strings.Strip` | app.py:49 | `.strip()` returns the core of the text: a slice with only whitespace around it and none at its ends; it is empty exactly when the text is all whitespace |
| `Strings.StripIsUnique` | app.py:49 | any split of the text into whitespace, a core and whitespace has `Strip`'s result as its core |
| `Strings.StripIdempotent` | app.py:49 | stripping a stripped text changes nothing |
| `Strings.NatToDecimal` | app.py:97 | the numeral of a natural is a non-empty run of digits without a leading zero |
| `Strings.IntToDecimal` | app.py:97 | `str(label)` is a non-empty run of digits without a leading zero, preceded by a minus sign exactly when the label is negative |
| `Strings.IntToDecimalRoundTrip` | app.py:97 | the label's numeral in the redirect reads back as the label |
| `Percent.HexDigit` | app.py:97 | the hexadecimal digit that `quote` writes for a value is an upper-case unreserved character that reads back as that value |
| `Percent.EncodeChar` | app.py:97 | a safe character is written as itself; any other is written as `%` and two upper-case hexadecimal digits whose value is its code |
| `Percent.Quote` | app.py:97 | every character of `quote(s)` is unreserved, `/` or `%`, and the result is never shorter than the text; `Percent.QuoteAppend` and `Percent.QuoteOne` give its value: each character is replaced in place by its `EncodeChar` |
| `Percent.QuoteAppend` | app.py:97 | `quote(a + b) == quote(a) + quote(b)`: every character is encoded on its own, in place |
| `Percent.QuoteOne` | app.py:97 | a one-character text is encoded as `EncodeChar` of that character |
| `Percent.QuoteEscapes` | app.py:97 | every `%` in `quote(s)` is followed by two upper-case hexadecimal digits: the `%XX` escape of section 2.1 of RFC 3986 |
| `Percent.QuoteIdentity` | app.py:97 | `quote` leaves a text unchanged exactly when all its characters are unreserved or `/` |
| `Percent.EncodeCharDecodes` | app.py:97 | decoding reverses the encoding of a single character, whatever follows it |
| `Percent.UnquotePlus` | app.py:107-109 | decoding never makes a text longer |
| `Percent.UnquotePlain` | app.py:107-109 | a text with no `%` and no `+` decodes to itself |
| `Percent.QuoteRoundTrip` | app.py:97 | `unquote_plus(quote(s)) == s`: the percent-encoding loses nothing |
| `Percent.QuoteSpace` | app.py:97 | a space is sent as `%20` |
| `Percent.QuotePercentSign` | app.py:97 | a `%` is sent as `%25` |
| `Query.IndexOf` | app.py:107-109 | the position of the first occurrence of a character, or the length when it does not occur |
| `Query.Split` | app.py:107-109 | splitting the query at `&` gives pieces that hold no `&` and that join back, with `&` between them, to the query |
| `Query.SplitFirst` | app.py:107-109 | a separator after a piece that holds none ends that piece |
| `Query.ParseField` | app.py:107-109 | a field is cut at its first `=` into a decoded name and a decoded value; a field without `=` is a decoded name with an empty value |
| `Query.ParseFields` | app.py:107-109 | with no empty piece there is one field per piece, in order; with only empty pieces there is none; there are never more fields than pieces |
| `Query.ParseFieldsAppend` | app.py:107-109 | the fields of two runs of pieces are the fields of the first followed by those of the second, so in any list each empty piece is skipped and every other piece gives its decoded field, in order |
| `Query.Parse` | app.py:107-109 | an empty query has no fields, and a query without `&` is a single field |
| `Query.QueryString` | app.py:107-109 | the query of a URL is what follows its first `?`, and is empty when there is no `?` |
| `Query.Get` | app.py:107-109 | `args.get(name)` finds a value exactly when a parameter has that name, and then it is the value of the first such parameter |
| `Analyze.FormText` | app.py:49 | `request.form.get("tweet", "").strip()` is the stripped core of the field; it is empty exactly when the field is missing or all whitespace |
| `Analyze.Normalise` | app.py:44-52 | a JSON body keeps its `tweets` list unchanged, or `[]` when it is absent; an unreadable body is an error with its message; a form gives exactly one text, its trimmed `tweet` field, and nothing when the field is missing or whitespace only |
| `Analyze.EmptyInput` | app.py:50-58 | a request counts as carrying no text exactly when normalising it gives an empty form or an empty batch |
| `Analyze.Max` | app.py:72 | `max(row)` fails exactly on an empty row; otherwise it is an entry of the row and no entry exceeds it |
| `Analyze.RowMaxima` | app.py:72 | the comprehension succeeds exactly when no row is empty, and then gives one maximum per row, in order |
| `Analyze.NoScores` | app.py:74 | `[None] * n` is `n` missing scores |
| `Analyze.Confidence` | app.py:69-76 | without `predict_proba`, when it raises, or when a row is empty, there are `len(preds)` missing scores; otherwise score `i` is an entry of probability row `i` that no entry of that row exceeds |
| `Analyze.Zip3` | app.py:80-85 | the records are as many as the shortest input, and record `i` holds the `i`-th text, label and score |
| `Analyze.AssembleResults` | app.py:79-85 | the append loop builds exactly the zipped records |
| `Analyze.ConfidenceText` | app.py:96 | the confidence is `"N/A"` exactly when the score is missing or zero; otherwise it is the percentage rendering followed by `%` |
| `Analyze.RedirectTarget` | app.py:97 | the redirect location, `/result?` followed by the `tweet`, `sentiment` and `confidence` fields that `Analyze.RedirectQuery` joins with `&`, is made only of unreserved characters, `/`, `%`, `?`, `=` and `&`, so no value needs escaping again; `ResultPage.RedirectRoundTrip` proves that it reads back as its values |
| `Analyze.Route` | app.py:89-97 | a JSON batch gets a 200 with all the records; a form gets a redirect exactly when there is a record, built from the first one, and otherwise the 500 of `results[0]`'s `IndexError`; `Properties.FormRedirectsFirstResult` states this for the whole handler |
| `Analyze.ServerError` | app.py:99-101 | the catch-all answer is a 500 whose error body is the exception's message |
| `Analyze.Respond` | app.py:41-101 | a JSON response has status 200, 400 or 500, and it carries predictions exactly when its status is 200; only JSON requests get a 200, and only form requests get a redirect |
| `Analyze.Analyze` | app.py:41-101 | the stage-by-stage handler returns exactly `Respond` for every request and every collaborator |
| `Properties.RejectedIffEmpty` | app.py:49-58 | the 400 "No tweet received" answer is given exactly to the requests that carry no text |
| `Properties.NoInferenceOnEmptyInput` | app.py:49-58 | the answer to an empty request does not depend on the vectorizer, the classifier or the formatting, so none of them was used |
| `Properties.JsonResultsCorrespond` | app.py:79-91 | a JSON client gets a 200 whose predictions are, in order, the records of the `i`-th text, label and score, as many as the shortest input |
| `Properties.OneRecordPerTweet` | app.py:79-91 | with one label per text and enough probability rows, a JSON client gets exactly one record per text, carrying that text |
| `Properties.ProbaFailureRecovered` | app.py:69-76 | a `predict_proba` that raises on this request's features, or whose rows for them cannot all be maximised, gives the same response as having no `predict_proba`, so it never becomes an error response |
| `Properties.MissingScoresAreNotErrors` | app.py:73-74 | without `predict_proba`, a JSON batch gets a 200 in which every label is present and every score is missing |
| `Properties.ScoresAreProbabilities` | app.py:72 | when the probability rows hold values between 0 and 1, every score in a JSON answer is missing or between 0 and 1 |
| `Properties.InferenceFailureIsServerError` | app.py:61-65 | a raising vectorizer or classifier gives a 500 whose body is the exception's message and nothing else |
| `Properties.UnreadableBodyIsServerError` | app.py:45-46 | a JSON body that cannot be read gives a 500 with the exception's message |
| `Properties.FormRedirectsFirstResult` | app.py:93-97 | a form with text is redirected with the record of its trimmed text, the first label and the first score; with no record, `results[0]` raises and the answer is a 500 "list index out of range" |
| `ResultPage.Read` | app.py:107-109 | each of `tweet`, `sentiment` and `confidence` shows the value of the first field with that name, or `""`, `"Unknown"` and `"N/A"` when no field has it |
| `ResultPage.ParseThreeFields` | app.py:107-109 | three fields with plain names and values free of `&`, joined by `&`, decode to those names and the decoded values, in order |
| `ResultPage.ReadBack` | app.py:97 | a URL shaped like the redirect reads back as its text, numeral and confidence string |
| `ResultPage.RedirectRoundTrip` | app.py:97 | the result page reads the redirect back as exactly the text, `str(label)` and the confidence string that built it, and no value spills into another parameter |
| `ResultPage.FormClientSeesItsResult` | app.py:93-109 | a redirected form client's result page shows its trimmed text, its first label and the confidence string of its first score |

## Left out

- Loading the model and the vectorizer at startup, with its `FileNotFoundError` (app.py:13-27). This is startup I/O, not request handling.
- What `vectorizer.transform`, `model.predict` and `model.predict_proba` compute. They are opaque library calls, so the model takes them as parameters that return a value or an error.
- The `"%.1f"` rendering of `score * 100`. It is floating-point formatting, so it is the parameter `percent`. The model only uses the fact that `"%"` is appended to its result.
- Floating point in general. Scores are `real`, and `float(...)` of a score is the identity.
- The `int(p)` conversion of a label (app.py:83). A classifier whose labels are not integers, such as one trained on string classes, makes it raise, and the outer `except` then answers every such request with a 500. The model types labels as `int`, so this failure does not occur in it.
- Non-ASCII text. The text domain is 7-bit ASCII. So `quote`'s UTF-8 encoding, `strip()` of non-ASCII whitespace, and the decoding of escapes above `%7F` are not modelled. `unquote_plus` reads such escapes as single code points, and `quote` never writes them for ASCII text.
- JSON `tweets` values that are not a list of strings, such as `null`, a string or a number. Python's truthiness decides whether these reach the vectorizer. The model's `tweets` member is either absent or a list of texts.
- Bodies that are not JSON objects. Any failure to read the body is the single `Unreadable(message)` variant, which gives a 500.
- Exceptions outside `Exception`, such as `KeyboardInterrupt`. The outer `except Exception` does not catch them.
- Two exceptions that the outer `except` turns into a 500 and that the model cannot produce: reading `X.shape` in the `print` at app.py:62, which raises when the vectorizer's result has no `.shape`, and a failure while reading `request.form` at app.py:49, such as an over-large form body. `Model.transform` returning `Ok` stands for a result that has a shape, and a `FormRequest` is a form that could be read.
- The `print` logging, `render_template`, the `/` route, `app.run`, and the headers and body of Flask's redirect response. None of them has logic.
- The rendering of the result page. Only how `/result` reads its three query parameters is modelled.
- Query-string syntax that the redirect never produces, such as `;` separators. The model's decoder splits on `&`, skips empty fields, splits each field at its first `=`, and takes the first match.
- Idempotence of the handler as a separate property. Every member here is a function of its inputs, so equal requests with equal collaborators give equal responses.
- Concurrency. The handler has none.
