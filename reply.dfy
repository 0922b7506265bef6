/**
 * What GeminiService and OpenAIService share: the HTTP exchange as a value, the order of the
 * body and status checks, the fence-stripping chain applied to the model's reply text, the
 * product listing of the stage-2 prompt, and the pipeline from response to decoded Food.
 */
module Reply {
  import opened Wrappers
  import opened Text
  import opened Json
  import opened Models

  datatype Header = Header(name: string, value: string)

  /** A POST request: URL, headers in the order they are added, and the JSON body. */
  datatype HttpRequest = HttpRequest(url: string, headers: seq<Header>, body: Json)

  /** What `client.newCall(request).execute()` yields: an IOException, or a status and an optional body. */
  datatype HttpResult = NetworkFailure | Response(code: int, body: Option<string>)

  /** OkHttp's `Response.isSuccessful`: a 2xx status. */
  predicate IsSuccessful(code: int) { 200 <= code < 300 }

  /** The value of the first header called `name`. */
  function HeaderValue(headers: seq<Header>, name: string): (r: Option<string>)
    ensures r.Some? ==> Header(name, r.value) in headers
    ensures r.None? ==> forall h :: h in headers ==> h.name != name
    ensures r.Some? ==> exists i :: 0 <= i < |headers| && headers[i] == Header(name, r.value) && forall j :: 0 <= j < i ==> headers[j].name != name
  {
    if headers == [] then None
    else if headers[0].name == name then Some(headers[0].value)
    else HeaderValue(headers[1..], name)
  }

  /** Every way an analysis call fails. */
  datatype ServiceError =
    | NetworkError          // execute() threw
    | EmptyResponse         // the response had no body
    | ApiError(body: string) // a non-2xx status; carries the raw body
    | MalformedEnvelope     // Gson threw while parsing or walking the envelope
    | MissingText           // a step of a `?.` chain was absent
    | SchemaError(detail: string) // the reply text did not decode to a Food

  const EmptyResponseMessage: string := "Порожня відповідь"
  const ApiErrorPrefix: string := "Помилка API: "
  const MissingTextMessage: string := "Не вдалося отримати текст відповіді"

  /** The exception message the services compose; the library's own messages are not modelled. */
  function Message(e: ServiceError): (r: Option<string>)
    ensures e.ApiError? ==> r.Some? && EndsWith(r.value, e.body) && StartsWith(r.value, ApiErrorPrefix)
    ensures e.EmptyResponse? ==> r == Some(EmptyResponseMessage)
    ensures e.MissingText? ==> r == Some(MissingTextMessage)
  {
    match e
    case EmptyResponse => Some(EmptyResponseMessage)
    case ApiError(body) => Some(ApiErrorPrefix + body)
    case MissingText => Some(MissingTextMessage)
    case _ => None
  }

  /**
   * `response.body?.string() ?: throw ...` followed by `if (!response.isSuccessful) throw ...`:
   * an absent body fails first, whatever the status; a present body with a non-2xx status fails
   * with that body; only a 2xx response with a body goes on.
   */
  function ReadBody(response: HttpResult): (r: Result<string, ServiceError>)
    ensures response.NetworkFailure? ==> r == Err(NetworkError)
    ensures response.Response? && response.body.None? ==> r == Err(EmptyResponse)
    ensures response.Response? && response.body.Some? && !IsSuccessful(response.code) ==> r == Err(ApiError(response.body.value))
    ensures r.Ok? <==> response.Response? && response.body.Some? && IsSuccessful(response.code)
    ensures r.Ok? ==> r.value == response.body.value
  {
    match response
    case NetworkFailure => Err(NetworkError)
    case Response(code, body) =>
      if body.None? then Err(EmptyResponse)
      else if !IsSuccessful(code) then Err(ApiError(body.value))
      else Ok(body.value)
  }

  const JsonFence: string := "```json"
  const Fence: string := "```"

  /**
   * The chain both services apply to the reply text: trim, drop a leading "```json", then a
   * leading "```", then a trailing "```", trim again. The result never starts or ends with
   * whitespace.
   */
  function StripFences(text: string): (r: string)
    ensures Trimmed(r)
  {
    Trim(RemoveSuffix(RemovePrefix(RemovePrefix(Trim(text), JsonFence), Fence), Fence))
  }

  /** No fence at either end of the trimmed text: each removal is a no-op, so only trimming happens. */
  lemma StripFencesUnfenced(s: string)
    requires !StartsWith(Trim(s), Fence) && !EndsWith(Trim(s), Fence)
    ensures StripFences(s) == Trim(s)
  {
    var t := Trim(s);
    JsonFenceOpensWithFence(t);
    StripFencesSteps(s, t, t, t, t);
    TrimIdempotent(s);
  }

  /** A text opening with "```json" opens with "```". */
  lemma JsonFenceOpensWithFence(t: string)
    ensures StartsWith(t, JsonFence) ==> StartsWith(t, Fence)
  {
    if StartsWith(t, JsonFence) {
      assert t[..3] == JsonFence[..3];
    }
  }

  /** Inside "```json" + padding + body + padding + "```" the body comes out exactly as it would alone. */
  lemma StripFencesJsonBlock(pad: string, body: string, pad': string)
    requires AllWhitespace(pad) && |pad| > 0 && AllWhitespace(pad')
    requires !StartsWith(Trim(body), Fence) && !EndsWith(Trim(body), Fence)
    ensures StripFences(JsonFence + pad + body + pad' + Fence) == StripFences(body) == Trim(body)
  {
    var inner := pad + body + pad';
    var tail := inner + Fence;
    Regroup(JsonFence, pad, body, pad', Fence);
    FencedIsTrimmed(JsonFence, tail);
    RemovePrefixOfConcat(JsonFence, tail);
    PaddedHasNoFence(pad, body + pad' + Fence);
    RemoveSuffixOfConcat(inner, Fence);
    StripFencesSteps(JsonFence + tail, JsonFence + tail, tail, tail, inner);
    TrimIgnoresPadding(pad, body, pad');
    StripFencesUnfenced(body);
  }

  lemma Regroup<T>(a: seq<T>, b: seq<T>, c: seq<T>, d: seq<T>, e: seq<T>)
    ensures a + b + c + d + e == a + ((b + c + d) + e)
    ensures b + (c + d + e) == b + c + d + e
  {
  }

  /** A text that opens and closes with a backquote is its own `trim`. */
  lemma FencedIsTrimmed(open: string, tail: string)
    requires |open| > 0 && open[0] == '`' && |tail| > 0 && tail[|tail| - 1] == '`'
    ensures Trim(open + tail) == open + tail
  {
    var s := open + tail;
    assert s[0] == '`' && s[|s| - 1] == '`';
    TrimmedIsFixed(s);
  }

  /** A concatenation opens with the first part's first element. */
  lemma Opening<T>(a: seq<T>, b: seq<T>, c: seq<T>, d: seq<T>)
    requires |a| > 0
    ensures (a + b + c + d)[0] == a[0]
  {
  }

  /** A text opening with whitespace does not open with a fence. */
  lemma PaddedHasNoFence(pad: string, rest: string)
    requires |pad| > 0 && AllWhitespace(pad)
    ensures RemovePrefix(pad + rest, Fence) == pad + rest
  {
    assert (pad + rest)[0] == pad[0];
  }

  /** StripFences in terms of the intermediate strings of its chain. */
  lemma StripFencesSteps(s: string, trimmed: string, afterJson: string, afterFence: string, inner: string)
    requires Trim(s) == trimmed
    requires RemovePrefix(trimmed, JsonFence) == afterJson && RemovePrefix(afterJson, Fence) == afterFence
    requires RemoveSuffix(afterFence, Fence) == inner
    ensures StripFences(s) == Trim(inner)
  {
  }

  lemma BareFenceIsNotJsonFence(rest: string)
    requires |rest| > 0 && IsWhitespace(rest[0])
    ensures RemovePrefix(Fence + rest, JsonFence) == Fence + rest
  {
    var s := Fence + rest;
    assert s[3] == rest[0];
    assert JsonFence[3] == 'j';
  }

  /** The same holds for a fence without a language tag. */
  lemma StripFencesBareBlock(pad: string, body: string, pad': string)
    requires AllWhitespace(pad) && |pad| > 0 && AllWhitespace(pad')
    requires !StartsWith(Trim(body), Fence) && !EndsWith(Trim(body), Fence)
    ensures StripFences(Fence + pad + body + pad' + Fence) == StripFences(body) == Trim(body)
  {
    var inner := pad + body + pad';
    var tail := inner + Fence;
    Regroup(Fence, pad, body, pad', Fence);
    FencedIsTrimmed(Fence, tail);
    Opening(pad, body, pad', Fence);
    BareFenceIsNotJsonFence(tail);
    RemovePrefixOfConcat(Fence, tail);
    RemoveSuffixOfConcat(inner, Fence);
    StripFencesSteps(Fence + tail, Fence + tail, Fence + tail, tail, inner);
    TrimIgnoresPadding(pad, body, pad');
    StripFencesUnfenced(body);
  }

  /** One line of the stage-2 listing: "- name: weightг", with the weight as Kotlin prints a Double. */
  function ProductLine(p: Product, weightText: real -> string): string {
    "- " + p.name + ": " + weightText(p.weight) + "г"
  }

  function ProductLines(products: seq<Product>, weightText: real -> string): (r: seq<string>)
    ensures |r| == |products|
    ensures forall i :: 0 <= i < |products| ==> r[i] == ProductLine(products[i], weightText)
  {
    seq(|products|, i requires 0 <= i < |products| => ProductLine(products[i], weightText))
  }

  /** `products.joinToString("\n") { "- ${it.name}: ${it.weight}г" }`. */
  function ProductsInfo(products: seq<Product>, weightText: real -> string): (r: string)
    ensures products == [] ==> r == []
  {
    JoinToString(ProductLines(products, weightText), "\n")
  }

  /** Without '\r' in the names and the weight texts, the listing holds no '\r'. */
  lemma ProductsInfoNoReturn(products: seq<Product>, weightText: real -> string)
    requires forall i :: 0 <= i < |products| ==> '\r' !in products[i].name && '\r' !in weightText(products[i].weight)
    ensures '\r' !in ProductsInfo(products, weightText)
  {
    var lines := ProductLines(products, weightText);
    forall i | 0 <= i < |lines| ensures '\r' !in lines[i] {
      assert lines[i] == "- " + products[i].name + ": " + weightText(products[i].weight) + "г";
    }
    JoinAvoids(lines, "\n", '\r');
  }

  /** At most one product, with no line break in its name or weight text, gives a one-line listing. */
  lemma ProductsInfoSingleLine(products: seq<Product>, weightText: real -> string)
    requires |products| <= 1
    requires forall i :: 0 <= i < |products| ==> NoBreak(products[i].name) && NoBreak(weightText(products[i].weight))
    ensures NoBreak(ProductsInfo(products, weightText))
  {
    if |products| == 1 {
      assert ProductsInfo(products, weightText) == "- " + products[0].name + ": " + weightText(products[0].weight) + "г";
    }
  }

  /**
   * The listing has exactly one line per product, in list order: splitting it at line breaks
   * gives back each product's line (when no name or weight text has a line break of its own).
   */
  lemma ProductsInfoLines(products: seq<Product>, weightText: real -> string)
    requires |products| > 0
    requires forall i :: 0 <= i < |products| ==> '\n' !in products[i].name && '\n' !in weightText(products[i].weight)
    ensures Split(ProductsInfo(products, weightText), '\n') == ProductLines(products, weightText)
  {
    var lines := ProductLines(products, weightText);
    forall i | 0 <= i < |lines| ensures '\n' !in lines[i] {
      var p := products[i];
      assert lines[i] == "- " + p.name + ": " + weightText(p.weight) + "г";
    }
    SplitJoinRoundTrip(lines, '\n');
  }

  /**
   * With two or more products the listing has a second line: right after the first product's
   * line come a line break and the "-" that opens the next one.
   */
  lemma ProductsInfoSecondLine(products: seq<Product>, weightText: real -> string)
    requires |products| >= 2
    ensures var k := |ProductLine(products[0], weightText)|;
      k + 1 < |ProductsInfo(products, weightText)|
      && ProductsInfo(products, weightText)[k] == '\n'
      && ProductsInfo(products, weightText)[k + 1] == '-'
  {
    var lines := ProductLines(products, weightText);
    var rest := JoinToString(lines[1..], "\n");
    assert ProductsInfo(products, weightText) == lines[0] + "\n" + rest;
    assert lines[1..][0] == ProductLine(products[1], weightText);
    JoinStartsWithFirst(lines[1..], "\n");
    assert rest[0] == '-';
  }

  /**
   * The reply text at the end of an envelope path. `Thrown` is a Gson exception; a `null` at the
   * end is the "missing text" error under `?.`, and a NullPointerException under `.`.
   */
  function ReplyText(envelope: Json, path: seq<Call>, nullSafe: bool): (r: Result<string, ServiceError>)
    ensures r.Err? ==> r.error == MalformedEnvelope || (nullSafe && r.error == MissingText)
  {
    match Walk(Value(envelope), path, nullSafe)
    case Thrown => Err(MalformedEnvelope)
    case Null => if nullSafe then Err(MissingText) else Err(MalformedEnvelope)
    case Value(j) =>
      match AsString(j)
      case None => Err(MalformedEnvelope)
      case Some(t) => Ok(t)
  }

  /**
   * From HTTP result to Food: body and status checks, `JsonParser.parseString(body).asJsonObject`,
   * the envelope path, fence stripping and `gson.fromJson(content, Food::class.java)`. The two
   * Gson entry points are given as functions.
   */
  function Interpret(
    response: HttpResult,
    parse: string -> Option<Json>,
    path: seq<Call>,
    nullSafe: bool,
    decode: string -> Result<Food, string>): (r: Result<Food, ServiceError>)
    ensures ReadBody(response).Err? ==> r == Err(ReadBody(response).error)
    ensures r.Ok? ==>
      && ReadBody(response).Ok?
      && var env := parse(ReadBody(response).value);
      && env.Some? && env.value.JObject?
      && ReplyText(env.value, path, nullSafe).Ok?
      && decode(StripFences(ReplyText(env.value, path, nullSafe).value)) == Ok(r.value)
    ensures r.Err? && r.error.SchemaError? ==>
      && ReadBody(response).Ok?
      && var env := parse(ReadBody(response).value);
      && env.Some? && env.value.JObject?
      && ReplyText(env.value, path, nullSafe).Ok?
      && decode(StripFences(ReplyText(env.value, path, nullSafe).value)) == Err(r.error.detail)
    ensures ReadBody(response).Ok? ==>
      var env := parse(ReadBody(response).value);
      && (env.None? || !env.value.JObject? ==> r == Err(MalformedEnvelope))
      && (env.Some? && env.value.JObject? ==>
        match ReplyText(env.value, path, nullSafe)
        case Err(e) => r == Err(e)
        case Ok(text) =>
          match decode(StripFences(text))
          case Ok(food) => r == Ok(food)
          case Err(detail) => r == Err(SchemaError(detail)))
  {
    var body :- ReadBody(response);
    var env := parse(body);
    if env.None? || !env.value.JObject? then Err(MalformedEnvelope)
    else
      var text :- ReplyText(env.value, path, nullSafe);
      match decode(StripFences(text))
      case Ok(food) => Ok(food)
      case Err(detail) => Err(SchemaError(detail))
  }
}
