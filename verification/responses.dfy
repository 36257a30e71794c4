/**
 * What the upstream call can end with, and how a failure becomes the
 * `{"error": text}` dictionary that `make_opendota_request` returns.
 */
module Responses {
  import opened Options
  import opened Strings

  /** A parsed JSON value (numbers are integers; floats are not modelled). */
  datatype Json =
    | Null
    | Bool(b: bool)
    | Number(n: int)
    | Str(s: string)
    | Array(items: seq<Json>)
    | Object(fields: seq<(string, Json)>)

  /** How the HTTP GET, `raise_for_status` and `response.json()` ended. */
  datatype Outcome =
    | Success(body: Json)                 // a success status and a body that parsed
    | HttpStatus(code: int, text: string) // `httpx.HTTPStatusError` for this status and body text
    | Timeout(detail: string)             // an httpx timeout exception; `detail` is `str(e)`
    | Exception(detail: string)           // any other exception, a JSON decoding error among them

  /** The failure classes the two copies of the server tell apart. */
  datatype Failure =
    | RateLimited
    | NotFound
    | ServerError
    | HttpError(code: int, text: string)
    | TimedOut
    | Unexpected(detail: string)

  // The solver reads the first character of a string literal only when the literal
  // is short, so each text is the concatenation of a short literal and the rest.
  const RateLimitedText := "Rate limit exceeded. " + "Consider using an API key for more requests."
  const NotFoundText := "Not found. " + "The requested resource doesn't exist."
  const ServerErrorText := "OpenDota API " + "server error. Please try again later."
  const TimedOutText := "Request timed out, " + "please try again later"

  /**
   * The status checks of the `HTTPStatusError` handler, in their order:
   * 429, then 404, then any status of 500 or more, then everything else.
   */
  function ClassifyStatus(code: int, text: string): (f: Failure)
    ensures f.RateLimited? <==> code == 429
    ensures f.NotFound? <==> code == 404
    ensures f.ServerError? <==> code >= 500
    ensures f.HttpError? <==> code != 429 && code != 404 && code < 500
    ensures f.HttpError? ==> f.code == code && f.text == text
  {
    if code == 429 then RateLimited
    else if code == 404 then NotFound
    else if code >= 500 then ServerError
    else HttpError(code, text)
  }

  /** The text under `"error"` for each failure class. */
  function Message(f: Failure): string {
    match f
    case RateLimited => RateLimitedText
    case NotFound => NotFoundText
    case ServerError => ServerErrorText
    case HttpError(code, text) => "HTTP error " + IntToString(code) + ": " + text
    case TimedOut => TimedOutText
    case Unexpected(detail) => "Unexpected error: " + detail
  }

  /**
   * `{"error": message}`: a dictionary whose only key is `"error"`, so a caller that
   * looks up `"error"` in it gets the message back.
   */
  function ErrorObject(message: string): (j: Json)
    ensures j.Object? && |j.fields| == 1
    ensures ErrorText(j) == Some(message)
  {
    Object([("error", Str(message))])
  }

  /** What a caller reads back with `if "error" in result: result["error"]`. */
  function ErrorText(j: Json): Option<string> {
    if j.Object? && |j.fields| > 0 && j.fields[0].0 == "error" && j.fields[0].1.Str? then
      Some(j.fields[0].1.s)
    else None
  }

  /** Newer copy: a status error is classified by its code; every other exception is "unexpected". */
  function Classify(o: Outcome): (f: Option<Failure>)
    ensures f.None? <==> o.Success?
    ensures o.HttpStatus? ==> f == Some(ClassifyStatus(o.code, o.text))
    ensures o.Timeout? || o.Exception? ==> f == Some(Unexpected(o.detail))
  {
    match o
    case Success(_) => None
    case HttpStatus(code, text) => Some(ClassifyStatus(code, text))
    case Timeout(detail) => Some(Unexpected(detail))
    case Exception(detail) => Some(Unexpected(detail))
  }

  /** The index of the first ':' in `s`, or `|s|` when there is none. */
  function FirstColon(s: string): (i: nat)
    ensures i <= |s|
    decreases |s|
  {
    if |s| == 0 || s[0] == ':' then 0 else 1 + FirstColon(s[1..])
  }

  lemma {:induction false} FirstColonAfter(a: string, rest: string)
    requires forall k :: 0 <= k < |a| ==> a[k] != ':'
    ensures FirstColon(a + ": " + rest) == |a|
    decreases |a|
  {
    if |a| > 0 {
      assert (a + ": " + rest)[1..] == a[1..] + ": " + rest;
      FirstColonAfter(a[1..], rest);
    }
  }

  /** A rendered integer holds no ':', so `"{code}: {text}"` splits back into code and text. */
  lemma SplitAtColon(a: string, b: string, s: string, t: string)
    requires forall k :: 0 <= k < |a| ==> a[k] != ':'
    requires forall k :: 0 <= k < |b| ==> b[k] != ':'
    requires a + ": " + s == b + ": " + t
    ensures a == b && s == t
  {
    var x := a + ": " + s;
    var y := b + ": " + t;
    FirstColonAfter(a, s);
    FirstColonAfter(b, t);
    assert a == x[..|a|] == y[..|b|] == b;
    assert s == x[|a| + 2..] == y[|b| + 2..] == t;
  }

  /**
   * The first character of each text. It tells the failure classes apart, except
   * that the rate-limit and timeout texts both start with 'R'; those two differ in length.
   */
  function Initial(f: Failure): char {
    match f
    case RateLimited => 'R'
    case NotFound => 'N'
    case ServerError => 'O'
    case HttpError(_, _) => 'H'
    case TimedOut => 'R'
    case Unexpected(_) => 'U'
  }

  lemma MessageInitial(f: Failure)
    ensures |Message(f)| > 0 && Message(f)[0] == Initial(f)
    ensures |RateLimitedText| != |TimedOutText|
  {
  }

  /** The error text identifies its failure class, and with it the status code, body text or detail. */
  lemma MessageInjective(f: Failure, g: Failure)
    requires Message(f) == Message(g)
    ensures f == g
  {
    MessageInitial(f);
    MessageInitial(g);
    if f.HttpError? && g.HttpError? {
      var a := IntToString(f.code);
      var b := IntToString(g.code);
      assert a + ": " + f.text == Message(f)[11..] == Message(g)[11..] == b + ": " + g.text;
      SplitAtColon(a, b, f.text, g.text);
      IntToStringInjective(f.code, g.code);
    } else if f.Unexpected? && g.Unexpected? {
      assert f.detail == Message(f)[18..] == Message(g)[18..] == g.detail;
    }
  }
}
