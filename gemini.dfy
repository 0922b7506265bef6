/**
 * GeminiService: stage 1 sends the photo with a fixed prompt and gets back a dish name and its
 * products; stage 2 sends the (edited) dish as a text listing and gets back the same dish with
 * nutrition. The HTTP call is the `provider` parameter and Gson's parser and decoder are the
 * `parse` and `decode` parameters.
 */
module GeminiService {
  import opened Wrappers
  import opened Text
  import opened Json
  import opened Models
  import opened Reply
  import opened Prompts

  const ApiUrlPrefix: string := "https://generativelanguage.googleapis.com/v1beta/models/gemini-2.0-flash-exp:generateContent?key="

  /** The endpoint carries the key as a query parameter. */
  function ApiUrl(apiKey: string): (r: string)
    ensures StartsWith(r, ApiUrlPrefix) && RemovePrefix(r, ApiUrlPrefix) == apiKey
  {
    RemovePrefixOfConcat(ApiUrlPrefix, apiKey);
    ApiUrlPrefix + apiKey
  }

  const JsonContentType: Header := Header("Content-Type", "application/json")

  /** `generationConfig`: temperature 0.4, topK 32, topP 1 and the given token cap. */
  function GenerationConfig(maxOutputTokens: string): Json {
    JObject([
      Member("temperature", JNumber("0.4")),
      Member("topK", JNumber("32")),
      Member("topP", JNumber("1")),
      Member("maxOutputTokens", JNumber(maxOutputTokens))])
  }

  /** `{"contents": [{"parts": parts}], "generationConfig": ...}`. */
  function RequestBody(parts: seq<Json>, maxOutputTokens: string): Json {
    JObject([
      Member("contents", JArray([Obj1("parts", JArray(parts))])),
      Member("generationConfig", GenerationConfig(maxOutputTokens))])
  }

  function TextPart(text: string): Json { Obj1("text", JString(text)) }

  function ImagePart(base64Image: string): Json {
    Obj1("inline_data", JObject([Member("mime_type", JString("image/jpeg")), Member("data", JString(base64Image))]))
  }

  const StageOnePrompt: string := FoodPrompt(AccuracyInstruction)

  /** The stage-1 request: the prompt and the photo, at most 2048 output tokens. */
  function FoodRequest(apiKey: string, base64Image: string): HttpRequest {
    HttpRequest(ApiUrl(apiKey), [JsonContentType],
      RequestBody([TextPart(StageOnePrompt), ImagePart(base64Image)], "2048"))
  }

  /**
   * The stage-2 prompt as the service builds it: the dish name, its product listing and the
   * accuracy instruction interpolated into the template, then `trimIndent()`.
   */
  function StageTwoPrompt(food: Food, weightText: real -> string): string {
    NutritionPromptAsWritten(food.name, ProductsInfo(food.products, weightText), AccuracyInstruction)
  }

  /** The stage-2 request: the text prompt alone, at most 4096 output tokens. */
  function NutritionRequest(apiKey: string, food: Food, weightText: real -> string): HttpRequest {
    HttpRequest(ApiUrl(apiKey), [JsonContentType],
      RequestBody([TextPart(StageTwoPrompt(food, weightText))], "4096"))
  }

  /** `candidates?.get(0)?.asJsonObject?.getAsJsonObject("content")?.getAsJsonArray("parts")?.get(0)?.asJsonObject?.get("text")`. */
  const TextPath: seq<Call> := CandidateContentPath + PartTextPath

  const CandidateContentPath: seq<Call> := [GetAsJsonArray("candidates"), GetIndex(0), AsJsonObject, GetAsJsonObject("content")]
  const PartTextPath: seq<Call> := [GetAsJsonArray("parts"), GetIndex(0), AsJsonObject, GetMember("text")]

  /** The reply text read straight off the envelope: candidates[0].content.parts[0].text. */
  function EnvelopeText(envelope: Json): Option<string> {
    if !envelope.JObject? then None
    else match Get(envelope.members, "candidates")
      case Some(JArray(candidates)) =>
        if |candidates| == 0 || !candidates[0].JObject? then None
        else (match Get(candidates[0].members, "content")
          case Some(JObject(content)) =>
            (match Get(content, "parts")
              case Some(JArray(parts)) =>
                if |parts| == 0 || !parts[0].JObject? then None
                else (match Get(parts[0].members, "text")
                  case Some(text) => AsString(text)
                  case None => None)
              case _ => None)
          case _ => None)
      case _ => None
  }

  /** Some member along the path is absent while every step before it has the expected kind. */
  predicate MissingStep(envelope: Json) {
    envelope.JObject? &&
    match Get(envelope.members, "candidates")
    case None => true
    case Some(JArray(candidates)) =>
      |candidates| > 0 && candidates[0].JObject? &&
      (match Get(candidates[0].members, "content")
        case None => true
        case Some(JObject(content)) =>
          (match Get(content, "parts")
            case None => true
            case Some(JArray(parts)) =>
              |parts| > 0 && parts[0].JObject? && Get(parts[0].members, "text").None?
            case _ => false)
        case _ => false)
    case _ => false
  }

  /** What the first half of the chain gives: `candidates?.get(0)?.asJsonObject?.getAsJsonObject("content")`. */
  function ContentOutcome(envelope: Json): Outcome {
    if !envelope.JObject? then Thrown
    else match Get(envelope.members, "candidates")
      case None => Null
      case Some(candidates) =>
        if !candidates.JArray? || |candidates.items| == 0 || !candidates.items[0].JObject? then Thrown
        else (match Get(candidates.items[0].members, "content")
          case None => Null
          case Some(content) => if content.JObject? then Value(content) else Thrown)
  }

  /** What the second half gives on the content object: `getAsJsonArray("parts")?.get(0)?.asJsonObject?.get("text")`. */
  function PartOutcome(content: seq<Member>): Outcome {
    match Get(content, "parts")
    case None => Null
    case Some(parts) =>
      if !parts.JArray? || |parts.items| == 0 || !parts.items[0].JObject? then Thrown
      else (match Get(parts.items[0].members, "text")
        case None => Null
        case Some(text) => Value(text))
  }

  /** `get(0)?.asJsonObject?.c`: the call on the first element when that is an object. */
  lemma FirstObjectWalk(items: Json, c: Call)
    ensures Walk(Value(items), [GetIndex(0), AsJsonObject, c], true)
      == if items.JArray? && |items.items| > 0 && items.items[0].JObject? then Invoke(c, items.items[0]) else Thrown
  {
    WalkCons(items, GetIndex(0), [AsJsonObject, c], true);
    if items.JArray? && |items.items| > 0 {
      var first := items.items[0];
      WalkCons(first, AsJsonObject, [c], true);
      if first.JObject? {
        WalkOne(first, c, true);
      }
    }
  }

  lemma CandidateWalk(envelope: Json)
    ensures Walk(Value(envelope), CandidateContentPath, true) == ContentOutcome(envelope)
  {
    var rest := [GetIndex(0), AsJsonObject, GetAsJsonObject("content")];
    assert CandidateContentPath == [GetAsJsonArray("candidates")] + rest;
    WalkCons(envelope, GetAsJsonArray("candidates"), rest, true);
    match Invoke(GetAsJsonArray("candidates"), envelope)
    case Thrown => WalkFromThrown(rest, true);
    case Null => WalkFromNull(rest, true);
    case Value(candidates) => FirstObjectWalk(candidates, GetAsJsonObject("content"));
  }

  lemma PartWalk(content: seq<Member>)
    ensures Walk(Value(JObject(content)), PartTextPath, true) == PartOutcome(content)
  {
    var rest := [GetIndex(0), AsJsonObject, GetMember("text")];
    assert PartTextPath == [GetAsJsonArray("parts")] + rest;
    WalkCons(JObject(content), GetAsJsonArray("parts"), rest, true);
    match Invoke(GetAsJsonArray("parts"), JObject(content))
    case Thrown => WalkFromThrown(rest, true);
    case Null => WalkFromNull(rest, true);
    case Value(parts) => FirstObjectWalk(parts, GetMember("text"));
  }

  /** The whole chain is its two halves, a `null` from the first flowing through the second. */
  lemma TextPathHalves(envelope: Json)
    ensures Walk(Value(envelope), TextPath, true) ==
      match ContentOutcome(envelope)
      case Value(JObject(content)) => PartOutcome(content)
      case other => other
  {
    WalkConcat(Value(envelope), CandidateContentPath, PartTextPath, true);
    CandidateWalk(envelope);
    match ContentOutcome(envelope)
    case Value(j) =>
      assert j.JObject?;
      PartWalk(j.members);
    case Null => WalkFromNull(PartTextPath, true);
    case Thrown => WalkFromThrown(PartTextPath, true);
  }

  /**
   * Walking the `?.` chain finds exactly the text at candidates[0].content.parts[0].text; it
   * ends in the "missing text" error exactly when a member along the way is absent, and in a
   * Gson exception otherwise.
   */
  lemma TextPathReadsEnvelope(envelope: Json)
    ensures ReplyText(envelope, TextPath, true).Ok? <==> EnvelopeText(envelope).Some?
    ensures ReplyText(envelope, TextPath, true).Ok? ==> ReplyText(envelope, TextPath, true).value == EnvelopeText(envelope).value
    ensures ReplyText(envelope, TextPath, true) == Err(MissingText) <==> MissingStep(envelope)
  {
    TextPathHalves(envelope);
  }

  /**
   * What an exchange answers for a response, case by case: the body and status failures as they
   * are; a body that is not a JSON object is a malformed envelope; an envelope without the text
   * fails with the "missing text" error when a member along the path is absent and as malformed
   * otherwise; the text itself is decoded after fence stripping, a decoding failure becoming a
   * schema error.
   */
  predicate Answers(
    response: HttpResult,
    parse: string -> Option<Json>,
    decode: string -> Result<Food, string>,
    r: Result<Food, ServiceError>)
  {
    match ReadBody(response)
    case Err(e) => r == Err(e)
    case Ok(body) =>
      match parse(body)
      case None => r == Err(MalformedEnvelope)
      case Some(envelope) =>
        match EnvelopeText(envelope)
        case None => r == Err(if MissingStep(envelope) then MissingText else MalformedEnvelope)
        case Some(text) =>
          match decode(StripFences(text))
          case Ok(food) => r == Ok(food)
          case Err(detail) => r == Err(SchemaError(detail))
  }

  /**
   * What both stages make of the response. Whatever the status, a missing body is the
   * empty-response error; a Food comes back exactly from a 2xx body whose envelope holds the
   * text and whose fence-stripped text decodes.
   */
  function Exchange(
    response: HttpResult,
    parse: string -> Option<Json>,
    decode: string -> Result<Food, string>): (r: Result<Food, ServiceError>)
    ensures response.NetworkFailure? ==> r == Err(NetworkError)
    ensures response.Response? && response.body.None? ==> r == Err(EmptyResponse)
    ensures response.Response? && response.body.Some? && !IsSuccessful(response.code) ==> r == Err(ApiError(response.body.value))
    ensures r.Ok? ==>
      && ReadBody(response).Ok?
      && var envelope := parse(ReadBody(response).value);
      && envelope.Some? && EnvelopeText(envelope.value).Some?
      && decode(StripFences(EnvelopeText(envelope.value).value)) == Ok(r.value)
    ensures Answers(response, parse, decode, r)
  {
    var body := ReadBody(response);
    if body.Ok? && parse(body.value).Some? then TextPathReadsEnvelope(parse(body.value).value); Interpret(response, parse, TextPath, true, decode)
    else Interpret(response, parse, TextPath, true, decode)
  }

  /** Stage 1: send the photo, then the exchange over the reply. */
  function AnalyzeFood(
    apiKey: string, base64Image: string,
    provider: HttpRequest -> HttpResult,
    parse: string -> Option<Json>,
    decode: string -> Result<Food, string>): (r: Result<Food, ServiceError>)
    ensures Answers(provider(FoodRequest(apiKey, base64Image)), parse, decode, r)
    ensures var response := provider(FoodRequest(apiKey, base64Image));
      && (response.Response? && response.body.None? ==> r == Err(EmptyResponse))
      && (response.Response? && response.body.Some? && !IsSuccessful(response.code) ==> r == Err(ApiError(response.body.value)))
      && (r.Ok? ==>
        && ReadBody(response).Ok?
        && var envelope := parse(ReadBody(response).value);
        && envelope.Some? && EnvelopeText(envelope.value).Some?
        && decode(StripFences(EnvelopeText(envelope.value).value)) == Ok(r.value))
  {
    Exchange(provider(FoodRequest(apiKey, base64Image)), parse, decode)
  }

  /** Stage 2: the same exchange with the nutrition request. */
  function AnalyzeNutrition(
    apiKey: string, food: Food, weightText: real -> string,
    provider: HttpRequest -> HttpResult,
    parse: string -> Option<Json>,
    decode: string -> Result<Food, string>): (r: Result<Food, ServiceError>)
    ensures Answers(provider(NutritionRequest(apiKey, food, weightText)), parse, decode, r)
    ensures var response := provider(NutritionRequest(apiKey, food, weightText));
      && (response.Response? && response.body.None? ==> r == Err(EmptyResponse))
      && (response.Response? && response.body.Some? && !IsSuccessful(response.code) ==> r == Err(ApiError(response.body.value)))
      && (r.Ok? ==>
        && ReadBody(response).Ok?
        && var envelope := parse(ReadBody(response).value);
        && envelope.Some? && EnvelopeText(envelope.value).Some?
        && decode(StripFences(EnvelopeText(envelope.value).value)) == Ok(r.value))
  {
    Exchange(provider(NutritionRequest(apiKey, food, weightText)), parse, decode)
  }

  /** A missing step anywhere along the path fails the call, with the "missing text" error. */
  lemma MissingStepFails(
    apiKey: string, base64Image: string,
    provider: HttpRequest -> HttpResult,
    parse: string -> Option<Json>,
    decode: string -> Result<Food, string>)
    requires var response := provider(FoodRequest(apiKey, base64Image));
      && ReadBody(response).Ok?
      && var envelope := parse(ReadBody(response).value);
      && envelope.Some? && MissingStep(envelope.value)
    ensures AnalyzeFood(apiKey, base64Image, provider, parse, decode) == Err(MissingText)
  {
    var response := provider(FoodRequest(apiKey, base64Image));
    TextPathReadsEnvelope(parse(ReadBody(response).value).value);
  }

  /** The same for stage 2: a missing step fails the nutrition call with the "missing text" error. */
  lemma MissingStepFailsNutrition(
    apiKey: string, food: Food, weightText: real -> string,
    provider: HttpRequest -> HttpResult,
    parse: string -> Option<Json>,
    decode: string -> Result<Food, string>)
    requires var response := provider(NutritionRequest(apiKey, food, weightText));
      && ReadBody(response).Ok?
      && var envelope := parse(ReadBody(response).value);
      && envelope.Some? && MissingStep(envelope.value)
    ensures AnalyzeNutrition(apiKey, food, weightText, provider, parse, decode) == Err(MissingText)
  {
    var response := provider(NutritionRequest(apiKey, food, weightText));
    TextPathReadsEnvelope(parse(ReadBody(response).value).value);
  }

  /** The path to the `i`-th part of the single content entry. */
  function PartPath(i: nat): seq<Call> {
    [GetAsJsonArray("contents"), GetIndex(0), AsJsonObject, GetAsJsonArray("parts"), GetIndex(i)]
  }

  /** Any request body holds one content entry with the given parts, and the given token cap. */
  lemma RequestBodyShape(parts: seq<Json>, maxOutputTokens: string, i: nat)
    ensures Walk(Value(RequestBody(parts, maxOutputTokens)), [GetAsJsonArray("contents")], false)
      == Value(JArray([Obj1("parts", JArray(parts))]))
    ensures Walk(Value(RequestBody(parts, maxOutputTokens)), PartPath(i), false)
      == if i < |parts| then Value(parts[i]) else Thrown
    ensures Walk(Value(RequestBody(parts, maxOutputTokens)), [GetAsJsonObject("generationConfig"), GetMember("maxOutputTokens")], false)
      == Value(JNumber(maxOutputTokens))
  {
    var body := RequestBody(parts, maxOutputTokens);
    var content := Obj1("parts", JArray(parts));
    assert Get(body.members, "contents") == Some(JArray([content]));
    assert Get(content.members, "parts") == Some(JArray(parts));
    assert Get(body.members, "generationConfig") == Some(GenerationConfig(maxOutputTokens));
    assert Get(GenerationConfig(maxOutputTokens).members, "maxOutputTokens") == Some(JNumber(maxOutputTokens));
    WalkConcat(Value(body), [GetAsJsonArray("contents")], [GetIndex(0), AsJsonObject, GetAsJsonArray("parts"), GetIndex(i)], false);
    WalkConcat(Value(JArray([content])), [GetIndex(0)], [AsJsonObject, GetAsJsonArray("parts"), GetIndex(i)], false);
    WalkConcat(Value(content), [AsJsonObject], [GetAsJsonArray("parts"), GetIndex(i)], false);
    WalkConcat(Value(content), [GetAsJsonArray("parts")], [GetIndex(i)], false);
  }

  /**
   * The stage-1 body: one content entry whose parts are the prompt and the photo as
   * `inline_data` (JPEG, the argument verbatim), with 2048 output tokens.
   */
  lemma FoodRequestShape(apiKey: string, base64Image: string)
    ensures var body := FoodRequest(apiKey, base64Image).body;
      && Walk(Value(body), [GetAsJsonArray("contents")], false) == Value(JArray([Obj1("parts", JArray([TextPart(StageOnePrompt), ImagePart(base64Image)]))]))
      && Walk(Value(body), PartPath(0) + [AsJsonObject, GetMember("text")], false) == Value(JString(StageOnePrompt))
      && Walk(Value(body), PartPath(1) + [AsJsonObject, GetAsJsonObject("inline_data"), GetMember("mime_type")], false) == Value(JString("image/jpeg"))
      && Walk(Value(body), PartPath(1) + [AsJsonObject, GetAsJsonObject("inline_data"), GetMember("data")], false) == Value(JString(base64Image))
      && Walk(Value(body), [GetAsJsonObject("generationConfig"), GetMember("maxOutputTokens")], false) == Value(JNumber("2048"))
    ensures FoodRequest(apiKey, base64Image).headers == [Header("Content-Type", "application/json")]
  {
    var parts := [TextPart(StageOnePrompt), ImagePart(base64Image)];
    var body := FoodRequest(apiKey, base64Image).body;
    RequestBodyShape(parts, "2048", 0);
    RequestBodyShape(parts, "2048", 1);
    WalkConcat(Value(body), PartPath(0), [AsJsonObject, GetMember("text")], false);
    WalkConcat(Value(body), PartPath(1), [AsJsonObject, GetAsJsonObject("inline_data"), GetMember("mime_type")], false);
    WalkConcat(Value(body), PartPath(1), [AsJsonObject, GetAsJsonObject("inline_data"), GetMember("data")], false);
    TextPartText(StageOnePrompt);
    ImagePartFields(base64Image);
  }

  lemma TextPartText(text: string)
    ensures Walk(Value(TextPart(text)), [AsJsonObject, GetMember("text")], false) == Value(JString(text))
  {
  }

  lemma ImagePartFields(base64Image: string)
    ensures Walk(Value(ImagePart(base64Image)), [AsJsonObject, GetAsJsonObject("inline_data"), GetMember("mime_type")], false) == Value(JString("image/jpeg"))
    ensures Walk(Value(ImagePart(base64Image)), [AsJsonObject, GetAsJsonObject("inline_data"), GetMember("data")], false) == Value(JString(base64Image))
  {
    var inline := JObject([Member("mime_type", JString("image/jpeg")), Member("data", JString(base64Image))]);
    assert Get(inline.members, "data") == Some(JString(base64Image));
    assert Get(inline.members, "mime_type") == Some(JString("image/jpeg"));
  }

  /** The stage-2 body: one content entry with the text part alone, and 4096 output tokens. */
  lemma NutritionRequestShape(apiKey: string, food: Food, weightText: real -> string)
    ensures var body := NutritionRequest(apiKey, food, weightText).body;
      && Walk(Value(body), [GetAsJsonArray("contents")], false) == Value(JArray([Obj1("parts", JArray([TextPart(StageTwoPrompt(food, weightText))]))]))
      && Walk(Value(body), PartPath(0) + [AsJsonObject, GetMember("text")], false) == Value(JString(StageTwoPrompt(food, weightText)))
      && Walk(Value(body), PartPath(1), false) == Thrown
      && Walk(Value(body), [GetAsJsonObject("generationConfig"), GetMember("maxOutputTokens")], false) == Value(JNumber("4096"))
  {
    var parts := [TextPart(StageTwoPrompt(food, weightText))];
    var body := NutritionRequest(apiKey, food, weightText).body;
    RequestBodyShape(parts, "4096", 0);
    RequestBodyShape(parts, "4096", 1);
    WalkConcat(Value(body), PartPath(0), [AsJsonObject, GetMember("text")], false);
    TextPartText(StageTwoPrompt(food, weightText));
  }

  /**
   * With at most one product and no line break in the names or the weight texts, nothing
   * interpolated breaks a line: the prompt is the intended one, opening at column 0 with the
   * dish name's heading and then the product's line.
   */
  lemma StageTwoPromptListing(food: Food, weightText: real -> string)
    requires |food.products| <= 1 && NoBreak(food.name)
    requires forall i :: 0 <= i < |food.products| ==> NoBreak(food.products[i].name) && NoBreak(weightText(food.products[i].weight))
    ensures StageTwoPrompt(food, weightText) == NutritionPrompt(food.name, ProductsInfo(food.products, weightText), AccuracyInstruction)
    ensures StartsWith(StageTwoPrompt(food, weightText),
      NutritionHeading(food.name) + "\n" + ProductsInfo(food.products, weightText) + "\n")
  {
    ProductsInfoSingleLine(food.products, weightText);
    AccuracyUnbroken();
    NutritionPromptAsWrittenUnbroken(food.name, ProductsInfo(food.products, weightText), AccuracyInstruction);
  }

  /**
   * With two or more products (and no '\r' in the names or the weight texts), `trimIndent()` cuts
   * nothing: the heading and the first product line stay behind the 12-space indent, while the
   * later product lines start at column 0.
   */
  lemma StageTwoPromptIndented(food: Food, weightText: real -> string)
    requires |food.products| >= 2 && '\r' !in food.name
    requires forall i :: 0 <= i < |food.products| ==> '\r' !in food.products[i].name && '\r' !in weightText(food.products[i].weight)
    ensures StartsWith(StageTwoPrompt(food, weightText),
      TemplateIndent + NutritionHeading(food.name) + "\n" + TemplateIndent + ProductsInfo(food.products, weightText) + "\n")
  {
    ProductsInfoSecondLine(food.products, weightText);
    ProductsInfoNoReturn(food.products, weightText);
    var k := |ProductLine(food.products[0], weightText)|;
    assert !IsWhitespace('-');
    NutritionPromptAsWrittenIndented(food.name, ProductsInfo(food.products, weightText), AccuracyInstruction, k);
  }

  /**
   * A dish with two or more products gets a prompt that keeps the template's 12-space
   * indentation, unlike the intended prompt.
   */
  lemma StageTwoPromptAsWrittenKeepsIndent(food: Food, weightText: real -> string)
    requires |food.products| >= 2
    ensures StartsWith(StageTwoPrompt(food, weightText), TemplateIndent)
    ensures StageTwoPrompt(food, weightText) != NutritionPrompt(food.name, ProductsInfo(food.products, weightText), AccuracyInstruction)
  {
    ProductsInfoSecondLine(food.products, weightText);
    var k := |ProductLine(food.products[0], weightText)|;
    assert !IsWhitespace('-');
    NutritionPromptKeepsIndent(food.name, ProductsInfo(food.products, weightText), AccuracyInstruction, k);
  }
}
