/**
 * OpenAIService: the same two stages as GeminiService against the chat-completions endpoint.
 * The key is a fixed placeholder sent as a bearer token, the photo travels as a `data:` URL
 * (RFC 2397), and the envelope is walked with plain `.` calls, so any missing step throws.
 */
module OpenAIService {
  import opened Wrappers
  import opened Text
  import opened Json
  import opened Models
  import opened Reply
  import opened Prompts

  /** The key the service is shipped with. */
  const ApiKey: string := "YOUR_API_KEY"
  const ApiUrl: string := "https://api.openai.com/v1/chat/completions"

  const BearerPrefix: string := "Bearer "

  /** `Authorization: Bearer <key>`, then `Content-Type: application/json`, on every request. */
  function Headers(apiKey: string): seq<Header> {
    [Header("Authorization", BearerPrefix + apiKey), Header("Content-Type", "application/json")]
  }

  // ---------------------------------------------------------------------------------------------
  // `data:` URLs (RFC 2397): "data:" [mediatype] [";base64"] "," data
  // ---------------------------------------------------------------------------------------------

  const DataScheme: string := "data:"
  const Base64Marker: string := ";base64"
  const JpegMediaType: string := "image/jpeg"

  /** `"data:image/jpeg;base64,$base64Image"`. */
  function DataUrl(base64Image: string): string {
    DataScheme + JpegMediaType + Base64Marker + "," + base64Image
  }

  datatype DataUrlParts = DataUrlParts(mediaType: string, base64: bool, data: string)

  /** The index of the first `c` in `s`. */
  function IndexOf(s: string, c: char): (r: Option<nat>)
    ensures r.Some? ==> r.value < |s| && s[r.value] == c && c !in s[..r.value]
    ensures r.None? ==> c !in s
  {
    if s == [] then None
    else if s[0] == c then Some(0)
    else match IndexOf(s[1..], c)
      case None => None
      case Some(i) =>
        assert s[..i + 1] == [s[0]] + s[1..][..i];
        Some(i + 1)
  }

  /**
   * Reads a `data:` URL: the scheme, the header up to the first ",", a trailing ";base64" in the
   * header, and the data after the comma.
   */
  function ParseDataUrl(url: string): (r: Option<DataUrlParts>)
    ensures r.Some? ==> StartsWith(url, DataScheme) && EndsWith(url, r.value.data)
  {
    if !StartsWith(url, DataScheme) then None
    else
      var rest := url[|DataScheme|..];
      match IndexOf(rest, ',')
      case None => None
      case Some(comma) =>
        var header := rest[..comma];
        var data := rest[comma + 1..];
        assert url[|url| - |data|..] == data;
        if EndsWith(header, Base64Marker) then
          Some(DataUrlParts(header[..|header| - |Base64Marker|], true, data))
        else
          Some(DataUrlParts(header, false, data))
  }

  /** The image URL of stage 1 reads back as base64 JPEG data holding exactly the argument. */
  lemma DataUrlRoundTrip(base64Image: string)
    ensures ParseDataUrl(DataUrl(base64Image)) == Some(DataUrlParts(JpegMediaType, true, base64Image))
  {
    var url := DataUrl(base64Image);
    var header := JpegMediaType + Base64Marker;
    var rest := header + "," + base64Image;
    assert url == DataScheme + rest;
    assert url[|DataScheme|..] == rest;
    assert ',' !in header;
    IndexOfAfter(header, ',', base64Image);
    assert rest[..|header|] == header;
    assert rest[|header| + 1..] == base64Image;
    assert header[..|header| - |Base64Marker|] == JpegMediaType;
  }

  lemma {:induction false} IndexOfAfter(a: string, c: char, b: string)
    requires c !in a
    ensures IndexOf(a + [c] + b, c) == Some(|a|)
  {
    if a != [] {
      assert (a + [c] + b)[1..] == a[1..] + [c] + b;
      assert c !in a[1..] by { assert forall k :: 0 <= k < |a| - 1 ==> a[1..][k] == a[k + 1]; }
      IndexOfAfter(a[1..], c, b);
    }
  }

  // ---------------------------------------------------------------------------------------------
  // Requests
  // ---------------------------------------------------------------------------------------------

  function TextContent(text: string): Json {
    JObject([Member("type", JString("text")), Member("text", JString(text))])
  }

  function ImageContent(base64Image: string): Json {
    JObject([Member("type", JString("image_url")), Member("image_url", Obj1("url", JString(DataUrl(base64Image))))])
  }

  /** `{"model": model, "messages": [{"role": "user", "content": content}], "max_tokens": maxTokens}`. */
  function RequestBody(model: string, content: Json, maxTokens: string): Json {
    JObject([
      Member("model", JString(model)),
      Member("messages", JArray([JObject([Member("role", JString("user")), Member("content", content)])])),
      Member("max_tokens", JNumber(maxTokens))])
  }

  /** OpenAI's stage-1 prompt has a blank line where Gemini's asks for accuracy. */
  const StageOnePrompt: string := FoodPrompt("")

  function FoodRequest(apiKey: string, base64Image: string): HttpRequest {
    HttpRequest(ApiUrl, Headers(apiKey),
      RequestBody("gpt-4-vision-preview", JArray([TextContent(StageOnePrompt), ImageContent(base64Image)]), "1000"))
  }

  /**
   * The stage-2 prompt as the service builds it: the dish name and its product listing
   * interpolated into the template (an empty line where Gemini's has the accuracy instruction),
   * then `trimIndent()`.
   */
  function StageTwoPrompt(food: Food, weightText: real -> string): string {
    NutritionPromptAsWritten(food.name, ProductsInfo(food.products, weightText), "")
  }

  function NutritionRequest(apiKey: string, food: Food, weightText: real -> string): HttpRequest {
    HttpRequest(ApiUrl, Headers(apiKey),
      RequestBody("gpt-4-turbo-preview", JString(StageTwoPrompt(food, weightText)), "2000"))
  }

  /** Both requests carry the bearer token of the key they are built with. */
  lemma AuthorizationHeader(apiKey: string, base64Image: string, food: Food, weightText: real -> string)
    ensures HeaderValue(FoodRequest(apiKey, base64Image).headers, "Authorization") == Some(BearerPrefix + apiKey)
    ensures HeaderValue(NutritionRequest(apiKey, food, weightText).headers, "Authorization") == Some(BearerPrefix + apiKey)
    ensures HeaderValue(FoodRequest(apiKey, base64Image).headers, "Content-Type") == Some("application/json")
  {
  }

  /** The path to the content of the single message. */
  const ContentPath: seq<Call> := [GetAsJsonArray("messages"), GetIndex(0), AsJsonObject, GetMember("content")]

  /** Any request body names its model and token cap and holds one user message with the given content. */
  lemma RequestBodyShape(model: string, content: Json, maxTokens: string)
    ensures var body := RequestBody(model, content, maxTokens);
      && Walk(Value(body), [GetMember("model")], false) == Value(JString(model))
      && Walk(Value(body), [GetMember("max_tokens")], false) == Value(JNumber(maxTokens))
      && Walk(Value(body), [GetAsJsonArray("messages")], false)
        == Value(JArray([JObject([Member("role", JString("user")), Member("content", content)])]))
      && Walk(Value(body), ContentPath, false) == Value(content)
  {
    var message := JObject([Member("role", JString("user")), Member("content", content)]);
    var m0, m1, m2 := Member("model", JString(model)), Member("messages", JArray([message])), Member("max_tokens", JNumber(maxTokens));
    var body := RequestBody(model, content, maxTokens);
    assert body.members == [m0, m1] + [m2] && [m0, m1] == [m0] + [m1] && [m0] == [] + [m0];
    assert Get(body.members, "model") == Some(JString(model)) by {
      GetAppended([m0, m1], m2, "model");
      GetAppended([m0], m1, "model");
      GetAppended([], m0, "model");
    }
    assert Get(body.members, "messages") == Some(JArray([message])) by {
      GetAppended([m0, m1], m2, "messages");
      GetAppended([m0], m1, "messages");
    }
    assert Get(body.members, "max_tokens") == Some(JNumber(maxTokens)) by {
      GetAppended([m0, m1], m2, "max_tokens");
    }
    WalkOne(body, GetMember("model"), false);
    WalkOne(body, GetMember("max_tokens"), false);
    WalkOne(body, GetAsJsonArray("messages"), false);
    assert Walk(Value(body), ContentPath, false) == Value(content) by {
      var r0, r1 := Member("role", JString("user")), Member("content", content);
      assert message.members == [r0] + [r1] && [r0] == [] + [r0];
      GetAppended([r0], r1, "content");
      assert ContentPath == [GetAsJsonArray("messages")] + ([GetIndex(0)] + ([AsJsonObject] + [GetMember("content")]));
      WalkCons(body, GetAsJsonArray("messages"), [GetIndex(0)] + ([AsJsonObject] + [GetMember("content")]), false);
      WalkCons(JArray([message]), GetIndex(0), [AsJsonObject] + [GetMember("content")], false);
      WalkCons(message, AsJsonObject, [GetMember("content")], false);
      WalkOne(message, GetMember("content"), false);
    }
  }

  /**
   * The stage-1 content is [text part with the prompt, image_url part], the image URL being
   * "data:image/jpeg;base64," followed by the argument; model gpt-4-vision-preview, 1000 tokens.
   */
  lemma FoodRequestShape(apiKey: string, base64Image: string)
    ensures var body := FoodRequest(apiKey, base64Image).body;
      && Walk(Value(body), [GetMember("model")], false) == Value(JString("gpt-4-vision-preview"))
      && Walk(Value(body), [GetMember("max_tokens")], false) == Value(JNumber("1000"))
      && Walk(Value(body), ContentPath, false) == Value(JArray([TextContent(StageOnePrompt), ImageContent(base64Image)]))
    ensures Walk(Value(ImageContent(base64Image)), [GetAsJsonObject("image_url"), GetMember("url")], false)
      == Value(JString("data:image/jpeg;base64," + base64Image))
    ensures Walk(Value(TextContent(StageOnePrompt)), [GetMember("text")], false) == Value(JString(StageOnePrompt))
  {
    RequestBodyShape("gpt-4-vision-preview", JArray([TextContent(StageOnePrompt), ImageContent(base64Image)]), "1000");
    ImageContentUrl(base64Image);
    TextContentText(StageOnePrompt);
  }

  lemma ImageContentUrl(base64Image: string)
    ensures Walk(Value(ImageContent(base64Image)), [GetAsJsonObject("image_url"), GetMember("url")], false)
      == Value(JString("data:image/jpeg;base64," + base64Image))
  {
    var image := ImageContent(base64Image);
    var m0, m1 := Member("type", JString("image_url")), Member("image_url", Obj1("url", JString(DataUrl(base64Image))));
    assert image.members == [m0] + [m1];
    GetAppended([m0], m1, "image_url");
    var url := Obj1("url", JString(DataUrl(base64Image)));
    assert url.members == [] + [Member("url", JString(DataUrl(base64Image)))];
    GetAppended([], Member("url", JString(DataUrl(base64Image))), "url");
    WalkCons(image, GetAsJsonObject("image_url"), [GetMember("url")], false);
    WalkOne(url, GetMember("url"), false);
    assert DataUrl(base64Image) == "data:image/jpeg;base64," + base64Image;
  }

  lemma TextContentText(text: string)
    ensures Walk(Value(TextContent(text)), [GetMember("text")], false) == Value(JString(text))
  {
    var m0, m1 := Member("type", JString("text")), Member("text", JString(text));
    assert TextContent(text).members == [m0] + [m1];
    GetAppended([m0], m1, "text");
    WalkOne(TextContent(text), GetMember("text"), false);
  }

  /** The stage-2 message content is the prompt string itself; model gpt-4-turbo-preview, 2000 tokens. */
  lemma NutritionRequestShape(apiKey: string, food: Food, weightText: real -> string)
    ensures var body := NutritionRequest(apiKey, food, weightText).body;
      && Walk(Value(body), [GetMember("model")], false) == Value(JString("gpt-4-turbo-preview"))
      && Walk(Value(body), [GetMember("max_tokens")], false) == Value(JNumber("2000"))
      && Walk(Value(body), ContentPath, false) == Value(JString(StageTwoPrompt(food, weightText)))
  {
    RequestBodyShape("gpt-4-turbo-preview", JString(StageTwoPrompt(food, weightText)), "2000");
  }

  /**
   * With at most one product and no line break in the names or the weight texts, the prompt is
   * the intended one, opening at column 0 with the dish name's heading and then the product's line.
   */
  lemma StageTwoPromptListing(food: Food, weightText: real -> string)
    requires |food.products| <= 1 && NoBreak(food.name)
    requires forall i :: 0 <= i < |food.products| ==> NoBreak(food.products[i].name) && NoBreak(weightText(food.products[i].weight))
    ensures StageTwoPrompt(food, weightText) == NutritionPrompt(food.name, ProductsInfo(food.products, weightText), "")
    ensures StartsWith(StageTwoPrompt(food, weightText),
      NutritionHeading(food.name) + "\n" + ProductsInfo(food.products, weightText) + "\n")
  {
    ProductsInfoSingleLine(food.products, weightText);
    NutritionPromptAsWrittenUnbroken(food.name, ProductsInfo(food.products, weightText), "");
  }

  /**
   * With two or more products (and no '\r' in the names or the weight texts), `trimIndent()` cuts
   * nothing: the heading and the first product line stay behind the 12-space indent, while the
   * later product lines start at column 0.
   */
  lemma StageTwoPromptIndented(food: Food, weightText: real -> string)
    requires |food.products| >= 2 && '\r' !in food.name
    requires forall i :: 0 <= i < |food.products| ==> '\r' !in food.products[i].name && '\r' !in weightText(food.products[i].weight)
    ensures StartsWith(StageTwoPrompt(food, weightText),
      TemplateIndent + NutritionHeading(food.name) + "\n" + TemplateIndent + ProductsInfo(food.products, weightText) + "\n")
  {
    ProductsInfoSecondLine(food.products, weightText);
    ProductsInfoNoReturn(food.products, weightText);
    var k := |ProductLine(food.products[0], weightText)|;
    assert !IsWhitespace('-');
    NutritionPromptAsWrittenIndented(food.name, ProductsInfo(food.products, weightText), "", k);
  }

  /**
   * A dish with two or more products gets a prompt that keeps the template's 12-space
   * indentation, unlike the intended prompt.
   */
  lemma StageTwoPromptAsWrittenKeepsIndent(food: Food, weightText: real -> string)
    requires |food.products| >= 2
    ensures StartsWith(StageTwoPrompt(food, weightText), TemplateIndent)
    ensures StageTwoPrompt(food, weightText) != NutritionPrompt(food.name, ProductsInfo(food.products, weightText), "")
  {
    ProductsInfoSecondLine(food.products, weightText);
    var k := |ProductLine(food.products[0], weightText)|;
    assert !IsWhitespace('-');
    NutritionPromptKeepsIndent(food.name, ProductsInfo(food.products, weightText), "", k);
  }

  // ---------------------------------------------------------------------------------------------
  // Response
  // ---------------------------------------------------------------------------------------------

  /** `getAsJsonArray("choices").get(0).asJsonObject.getAsJsonObject("message").get("content")`. */
  const TextPath: seq<Call> := [
    GetAsJsonArray("choices"), GetIndex(0), AsJsonObject, GetAsJsonObject("message"), GetMember("content")]

  /** The reply text read straight off the envelope: choices[0].message.content. */
  function EnvelopeText(envelope: Json): Option<string> {
    if !envelope.JObject? then None
    else match Get(envelope.members, "choices")
      case Some(JArray(choices)) =>
        if |choices| == 0 || !choices[0].JObject? then None
        else (match Get(choices[0].members, "message")
          case Some(JObject(message)) =>
            (match Get(message, "content")
              case Some(content) => AsString(content)
              case None => None)
          case _ => None)
      case _ => None
  }

  /**
   * Walking the `.` chain finds exactly the text at choices[0].message.content; every other
   * envelope, a missing step included, throws.
   */
  lemma TextPathReadsEnvelope(envelope: Json)
    ensures ReplyText(envelope, TextPath, false).Ok? <==> EnvelopeText(envelope).Some?
    ensures ReplyText(envelope, TextPath, false).Ok? ==> ReplyText(envelope, TextPath, false).value == EnvelopeText(envelope).value
    ensures ReplyText(envelope, TextPath, false).Err? ==> ReplyText(envelope, TextPath, false).error == MalformedEnvelope
  {
    assert TextPath[1..] == [GetIndex(0), AsJsonObject, GetAsJsonObject("message"), GetMember("content")];
    assert TextPath[1..][1..] == [AsJsonObject, GetAsJsonObject("message"), GetMember("content")];
    assert TextPath[1..][1..][1..] == [GetAsJsonObject("message"), GetMember("content")];
    assert TextPath[1..][1..][1..][1..] == [GetMember("content")];
  }

  /**
   * What an exchange answers for a response, case by case: the body and status failures as they
   * are; a body that is not a JSON object, or an envelope without the text at
   * choices[0].message.content, is a malformed envelope; the text itself is decoded after fence
   * stripping, a decoding failure becoming a schema error.
   */
  predicate Answers(
    response: HttpResult,
    parse: string -> Option<Json>,
    decode: string -> Result<Food, string>,
    r: Result<Food, ServiceError>)
  {
    match ReadBody(response)
    case Err(e) => r == Err(e)
    case Ok(body) =>
      match parse(body)
      case None => r == Err(MalformedEnvelope)
      case Some(envelope) =>
        match EnvelopeText(envelope)
        case None => r == Err(MalformedEnvelope)
        case Some(text) =>
          match decode(StripFences(text))
          case Ok(food) => r == Ok(food)
          case Err(detail) => r == Err(SchemaError(detail))
  }

  /**
   * What both stages make of the response. A missing body is the empty-response error whatever
   * the status; a Food comes back exactly from a 2xx body holding the text, decoded after fence
   * stripping; no failure is the "missing text" error, since nothing on the path is null-safe.
   */
  function Exchange(
    response: HttpResult,
    parse: string -> Option<Json>,
    decode: string -> Result<Food, string>): (r: Result<Food, ServiceError>)
    ensures response.NetworkFailure? ==> r == Err(NetworkError)
    ensures response.Response? && response.body.None? ==> r == Err(EmptyResponse)
    ensures response.Response? && response.body.Some? && !IsSuccessful(response.code) ==> r == Err(ApiError(response.body.value))
    ensures r.Ok? ==>
      && ReadBody(response).Ok?
      && var envelope := parse(ReadBody(response).value);
      && envelope.Some? && EnvelopeText(envelope.value).Some?
      && decode(StripFences(EnvelopeText(envelope.value).value)) == Ok(r.value)
    ensures r != Err(MissingText)
    ensures Answers(response, parse, decode, r)
  {
    var body := ReadBody(response);
    if body.Ok? && parse(body.value).Some? then TextPathReadsEnvelope(parse(body.value).value); Interpret(response, parse, TextPath, false, decode)
    else Interpret(response, parse, TextPath, false, decode)
  }

  /** Stage 1 with the shipped key: the exchange over the image request. */
  function AnalyzeFood(
    base64Image: string,
    provider: HttpRequest -> HttpResult,
    parse: string -> Option<Json>,
    decode: string -> Result<Food, string>): (r: Result<Food, ServiceError>)
    ensures Answers(provider(FoodRequest(ApiKey, base64Image)), parse, decode, r)
    ensures var response := provider(FoodRequest(ApiKey, base64Image));
      && (response.Response? && response.body.None? ==> r == Err(EmptyResponse))
      && (response.Response? && response.body.Some? && !IsSuccessful(response.code) ==> r == Err(ApiError(response.body.value)))
      && (r.Ok? ==>
        && ReadBody(response).Ok?
        && var envelope := parse(ReadBody(response).value);
        && envelope.Some? && EnvelopeText(envelope.value).Some?
        && decode(StripFences(EnvelopeText(envelope.value).value)) == Ok(r.value))
      && r != Err(MissingText)
  {
    Exchange(provider(FoodRequest(ApiKey, base64Image)), parse, decode)
  }

  /** Stage 2 with the shipped key: the same exchange with the nutrition request. */
  function AnalyzeNutrition(
    food: Food, weightText: real -> string,
    provider: HttpRequest -> HttpResult,
    parse: string -> Option<Json>,
    decode: string -> Result<Food, string>): (r: Result<Food, ServiceError>)
    ensures Answers(provider(NutritionRequest(ApiKey, food, weightText)), parse, decode, r)
    ensures var response := provider(NutritionRequest(ApiKey, food, weightText));
      && (response.Response? && response.body.None? ==> r == Err(EmptyResponse))
      && (response.Response? && response.body.Some? && !IsSuccessful(response.code) ==> r == Err(ApiError(response.body.value)))
      && (r.Ok? ==>
        && ReadBody(response).Ok?
        && var envelope := parse(ReadBody(response).value);
        && envelope.Some? && EnvelopeText(envelope.value).Some?
        && decode(StripFences(EnvelopeText(envelope.value).value)) == Ok(r.value))
      && r != Err(MissingText)
  {
    Exchange(provider(NutritionRequest(ApiKey, food, weightText)), parse, decode)
  }
}
