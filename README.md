# FoodAnalyzer in Dafny

A model of the logic in FoodAnalyzer, an Android app that estimates the nutrition of a dish from a photo. The model covers:

- **The two AI services.** `GeminiService` and `OpenAIService` each run two stages:
  - stage 1 sends the photo and gets back a dish name with its products;
  - stage 2 sends the edited dish as a text listing and gets back the dish with nutrition.
  The model covers the request JSON, the body and status guards on the response, the walk along the JSON envelope to the reply text, the fence stripping ("```json … ```") and the product listing.
- **The screens.**
  - Product editing (`EditProductsActivity`).
  - Saving a meal (`ResultsActivity`).
  - The calorie-range settings (`SettingsActivity`).
- **The storage layers.**
  - The meal table and its local-day query (`MealDao`, `MealRepository`).
  - The single settings row (`UserSettingsDao`, `UserSettingsRepository`).
- **The calorie-range indicator** (`CaloriesProgressView`).

Modules and files:

| file | module | models |
|---|---|---|
| `wrappers.dfy` | `Wrappers` | `Option`, which stands for Kotlin's nullable types, and `Result`, which stands for exceptions |
| `models.dfy` | `Models` | the data classes, with the source's defaults |
| `text.dfy` | `Text` | the Kotlin string functions the app calls (`trim`, `removePrefix`, `removeSuffix`, `joinToString`, `trimIndent`), the steps the model builds them from (`trimStart`, `trimEnd`, `lines`), and `split`, the inverse the product listing is checked against |
| `json.dfy` | `Json` | the JSON tree (RFC 8259) as Gson holds it, and the Gson navigation calls, as a walk of calls ending in a value, `null` or an exception |
| `reply.dfy` | `Reply` | what the services share: the HTTP exchange as a value, the body/status guards, fence stripping, the product listing, and the pipeline from response to `Food` |
| `prompts.dfy` | `Prompts` | the prompt templates, as raw strings run through `trimIndent()` |
| `gemini.dfy` | `GeminiService` | Gemini's requests and its null-safe (`?.`) envelope path |
| `openai.dfy` | `OpenAIService` | OpenAI's requests, the bearer header, the `data:` URL (RFC 2397) and its plain `.` envelope path |
| `edit_products.dfy` | `EditProducts` | the editing screen, as a class whose handlers change the dish in place |
| `results.dfy` | `Results` | the save button |
| `meal_dao.dfy` | `Meals` | the meal table: rows in rowid order plus the AUTOINCREMENT sequence value |
| `calendar.dfy` | `Calendars` | the subset of `java.util.Calendar` the repository uses, in a zone with a fixed UTC offset |
| `meal_repository.dfy` | `MealRepo` | the meal repository |
| `settings_dao.dfy` | `SettingsStore` | the settings table as a map from primary key to row |
| `settings_repository.dfy` | `SettingsRepo` | the settings repository |
| `settings_activity.dfy` | `SettingsScreen` | the settings screen |
| `calories_progress.dfy` | `CaloriesProgress` | the indicator |

**Parameters.** The model has no HTTP, no clock and no Gson. Each appears as a parameter:

- The network is `provider: HttpRequest -> HttpResult`. A result is a network failure, or a status with an optional body.
- Gson's parser is `parse: string -> Option<Json>`. Gson's `Food` decoder is `decode: string -> Result<Food, string>`.
- `Gson().toJson(products)` is `toJson`, and `Double.toString` of a weight is `weightText`.
- `System.currentTimeMillis()` is `now`, and the default time zone is `offset`.
- The stage-2 call that the editing screen makes is the function `analyze`. In the app it is `GeminiService.AnalyzeNutrition` with the build's key and the transport fixed.
- A database that refuses writes is the flag `failing` on the DAO.

**Where the code and the design notes disagree, the model follows the code:**

- `updateStreak` does nothing when there is no settings row. It does not create one.
- Saving a meal copies the dish-level nutrition verbatim. It does not sum the products.
- The save button is disabled only after a successful insert.
- The range validation `min < max` lives only in the settings screen. The repository stores any pair.
- Fence stripping removes only "```json" or a bare "```". A fence with another language tag keeps its tag.

**Other modelling choices:**

- Gson's `JsonObject` keeps the last value of a key added twice.
- `ORDER BY date DESC` is a stable insertion sort. SQL leaves the order of equal dates open, so the contracts state only that dates do not increase and that the rows are the same as in the table.
- Room's `@Insert` with an explicit id that is already present aborts with a constraint error. The app always inserts with id 0.

## Model

Source paths are relative to the repository root.

| member | source | states |
|---|---|---|
| Text.TrimStart | app/src/main/java/com/foodanalyzer/api/GeminiService.kt:89 | the result is a suffix of the input; everything cut off is whitespace; the result does not start with whitespace |
| Text.TrimEnd | app/src/main/java/com/foodanalyzer/api/GeminiService.kt:89 | the result is a prefix of the input; everything cut off is whitespace; the result does not end with whitespace |
| Text.Trim | app/src/main/java/com/foodanalyzer/api/GeminiService.kt:89 | neither end of the result is whitespace, and the result is no longer than the input |
| Text.TrimOfPadded | app/src/main/java/com/foodanalyzer/api/GeminiService.kt:89 | `trim` of whitespace + core + whitespace, where the core is itself trimmed, is exactly the core |
| Text.TrimIgnoresPadding | app/src/main/java/com/foodanalyzer/api/GeminiService.kt:89-93 | whitespace added on either side does not change `trim` |
| Text.TrimIdempotent | app/src/main/java/com/foodanalyzer/api/GeminiService.kt:89-93 | trimming twice is trimming once |
| Text.TrimmedIsFixed | app/src/main/java/com/foodanalyzer/api/GeminiService.kt:93 | a string with no whitespace at either end is its own `trim` |
| Text.AllWhitespaceTrimsToEmpty | app/src/main/java/com/foodanalyzer/api/GeminiService.kt:89 | an all-whitespace string trims to the empty string, from either side |
| Text.TrimStartSkipsPad | app/src/main/java/com/foodanalyzer/api/GeminiService.kt:89 | leading whitespace does not change `trimStart` |
| Text.TrimEndSkipsPad | app/src/main/java/com/foodanalyzer/api/GeminiService.kt:89 | trailing whitespace does not change `trimEnd` |
| Text.TrimStartKeepsTail | app/src/main/java/com/foodanalyzer/api/GeminiService.kt:89 | once a non-whitespace character is reached, `trimStart` keeps everything after it |
| Text.RemovePrefix | app/src/main/java/com/foodanalyzer/api/GeminiService.kt:90-91 | with the prefix present, prefix + result is the input; otherwise the input comes back unchanged |
| Text.RemoveSuffix | app/src/main/java/com/foodanalyzer/api/GeminiService.kt:92 | with the suffix present, result + suffix is the input; otherwise the input comes back unchanged |
| Text.RemovePrefixOfConcat | app/src/main/java/com/foodanalyzer/api/GeminiService.kt:90 | removing a prefix from prefix + rest gives the rest |
| Text.RemoveSuffixOfConcat | app/src/main/java/com/foodanalyzer/api/GeminiService.kt:92 | removing a suffix from rest + suffix gives the rest |
| Text.JoinToString | app/src/main/java/com/foodanalyzer/api/GeminiService.kt:100 | no parts join to the empty string, and one part joins to itself |
| Text.Split | app/src/main/java/com/foodanalyzer/api/GeminiService.kt:100 | splitting always yields at least one piece |
| Text.SplitNoSeparator | app/src/main/java/com/foodanalyzer/api/GeminiService.kt:100 | a string without the separator splits into itself alone |
| Text.SplitAtFirstSeparator | app/src/main/java/com/foodanalyzer/api/GeminiService.kt:100 | splitting a + c + b, where a has no c, gives a followed by the pieces of b |
| Text.SplitJoinRoundTrip | app/src/main/java/com/foodanalyzer/api/GeminiService.kt:100-102 | joining separator-free pieces with c and splitting on c gives the pieces back |
| Text.Lines | app/src/main/java/com/foodanalyzer/api/GeminiService.kt:44 | `lines()` always yields at least one piece |
| Text.LinesNoBreak | app/src/main/java/com/foodanalyzer/api/GeminiService.kt:44 | a string without line breaks is one line |
| Text.LinesCons | app/src/main/java/com/foodanalyzer/api/GeminiService.kt:44 | a break-free line followed by "\n" is the first line, and the rest follow |
| Text.LinesOfJoin | app/src/main/java/com/foodanalyzer/api/GeminiService.kt:28-44 | `lines()` of break-free lines joined with "\n" gives the lines back |
| Text.LinesAfterBreak | app/src/main/java/com/foodanalyzer/api/GeminiService.kt:104-106 | a "\n" followed by an ordinary character opens a later line with that character |
| Text.IndentWidth | app/src/main/java/com/foodanalyzer/api/GeminiService.kt:44 | the width counts exactly the leading whitespace: what it covers is whitespace, and the next character is not |
| Text.MinIndent | app/src/main/java/com/foodanalyzer/api/GeminiService.kt:44 | absent exactly when every line is blank; otherwise no more than any non-blank line's indent, and equal to one of them |
| Text.MinIndentIs | app/src/main/java/com/foodanalyzer/api/GeminiService.kt:44 | a lower bound on every non-blank indent that one line attains is the minimum indent |
| Text.Drop | app/src/main/java/com/foodanalyzer/api/GeminiService.kt:44 | `drop(n)` is the suffix after the first n characters, or empty |
| Text.Indented | app/src/main/java/com/foodanalyzer/api/GeminiService.kt:29-43 | every template line is placed behind the indent, one for one |
| Text.TemplateLines | app/src/main/java/com/foodanalyzer/api/GeminiService.kt:28-44 | a raw template's lines are an empty first line, the indented template lines and the closing line |
| Text.TemplateMinIndent | app/src/main/java/com/foodanalyzer/api/GeminiService.kt:28-44 | with a line at column 0, a template's minimum indent is its indent |
| Text.TemplateReindent | app/src/main/java/com/foodanalyzer/api/GeminiService.kt:44 | cutting the indent off every line and dropping the blank ends gives the template lines back |
| Text.TrimIndentOfTemplate | app/src/main/java/com/foodanalyzer/api/GeminiService.kt:28-44 | a break-free template loses exactly its indent under `trimIndent()`: the lines joined with "\n" |
| Text.ReindentHead | app/src/main/java/com/foodanalyzer/api/GeminiService.kt:104-138 | after a blank first line, the first line kept is the second piece with its cut applied |
| Text.TrimIndentKeepsFirstLine | app/src/main/java/com/foodanalyzer/api/GeminiService.kt:104-138 | when a line break is followed by a non-whitespace character, `trimIndent()` keeps the leading part of the string's second line, indentation and all |
| Text.RawTemplateLayout | app/src/main/java/com/foodanalyzer/api/GeminiService.kt:104-106 | a raw template opens with a line break, then the first two lines behind the indent; with three or more lines, a line break follows |
| Text.TemplateKeepsIndent | app/src/main/java/com/foodanalyzer/api/GeminiService.kt:104-138 | when the second template line carries a break followed by a non-whitespace character, the result still starts with the indent and then the first line's first character |
| Text.JoinStartsWithFirst | app/src/main/java/com/foodanalyzer/api/GeminiService.kt:100 | a joined list starts with its first element |
| Text.IndentWidthBehind | app/src/main/java/com/foodanalyzer/api/GeminiService.kt:44 | a whitespace prefix adds its length to the indent and does not change blankness |
| Text.JoinAppend | app/src/main/java/com/foodanalyzer/api/GeminiService.kt:100 | joining two non-empty lists one after the other is joining each and putting the separator between them |
| Text.JoinAvoids | app/src/main/java/com/foodanalyzer/api/GeminiService.kt:100 | a character in neither the separator nor any part is not in the joined string |
| Text.LinesSplitAt | app/src/main/java/com/foodanalyzer/api/GeminiService.kt:44 | splitting p + "\n" + q into lines, where p has no '\r', gives p's lines and then q's |
| Text.JoinLines | app/src/main/java/com/foodanalyzer/api/GeminiService.kt:44 | joining the lines of a string without '\r' by "\n" gives the string back |
| Text.BreakMakesTwoLines | app/src/main/java/com/foodanalyzer/api/GeminiService.kt:44 | a string with a "\n" has at least two lines |
| Text.ReindentOpen | app/src/main/java/com/foodanalyzer/api/GeminiService.kt:44 | with a cut of 0 and a blank first line, `trimIndent()`'s reindent drops that line and keeps every other line whole, save possibly the last |
| Text.TrimIndentAtColumnZero | app/src/main/java/com/foodanalyzer/api/GeminiService.kt:104-138 | when some line break is followed by a non-whitespace character, `trimIndent()` of "\n" + p + "\n" + q cuts nothing: the result starts with p and its line break |
| Text.TemplateAtColumnZero | app/src/main/java/com/foodanalyzer/api/GeminiService.kt:104-138 | interpolating a second line that carries a break followed by a non-whitespace character: `trimIndent()` keeps the first two template lines with their indent, line breaks and all |
| Json.GetSpec | app/src/main/java/com/foodanalyzer/api/GeminiService.kt:88 | `get(key)` is null exactly when no member has the key; otherwise the value is bound to the key |
| Json.WalkConcat | app/src/main/java/com/foodanalyzer/api/GeminiService.kt:82-88 | walking p then q is walking p + q |
| Json.WalkFromNull | app/src/main/java/com/foodanalyzer/api/GeminiService.kt:82-88 | after a `null`, `?.` carries it to the end, and `.` throws |
| Json.WalkFromThrown | app/src/main/java/com/foodanalyzer/api/OpenAIService.kt:81-85 | after an exception nothing else runs |
| Reply.HeaderValue | app/src/main/java/com/foodanalyzer/api/OpenAIService.kt:68-69 | a header value that is found is the first header with that name in the list; when none is found, no header has the name |
| Reply.Message | app/src/main/java/com/foodanalyzer/api/GeminiService.kt:75-94 | the empty-response and missing-text messages, and a status error message that starts with "Помилка API: " and ends with the raw body |
| Reply.ReadBody | app/src/main/java/com/foodanalyzer/api/GeminiService.kt:74-79 | a network failure is the network error; an absent body fails with the empty-response error whatever the status; a non-2xx status with a body fails with that body; only a 2xx body goes on, unchanged |
| Reply.StripFences | app/src/main/java/com/foodanalyzer/api/GeminiService.kt:89-93 | the extracted text never starts or ends with whitespace |
| Reply.StripFencesUnfenced | app/src/main/java/com/foodanalyzer/api/GeminiService.kt:89-93 | with no fence at either end, the chain only trims |
| Reply.StripFencesJsonBlock | app/src/main/java/com/foodanalyzer/api/GeminiService.kt:89-93 | "```json" + padding + body + padding + "```" extracts to exactly what the body alone extracts to |
| Reply.StripFencesBareBlock | app/src/main/java/com/foodanalyzer/api/OpenAIService.kt:86-90 | the same holds for a bare "```" fence |
| Reply.ProductLines | app/src/main/java/com/foodanalyzer/api/GeminiService.kt:100-102 | one line per product, each "- name: weightг", in list order |
| Reply.ProductsInfo | app/src/main/java/com/foodanalyzer/api/GeminiService.kt:100-102 | an empty product list gives an empty listing |
| Reply.ProductsInfoLines | app/src/main/java/com/foodanalyzer/api/OpenAIService.kt:96-98 | splitting the listing at line breaks gives back each product's line, in order |
| Reply.ProductsInfoSecondLine | app/src/main/java/com/foodanalyzer/api/GeminiService.kt:100-102 | with two or more products, a line break and the next product's "-" follow the first product's line |
| Reply.ProductsInfoNoReturn | app/src/main/java/com/foodanalyzer/api/GeminiService.kt:100-102 | without '\r' in the names and the weight texts, the listing has none |
| Reply.ProductsInfoSingleLine | app/src/main/java/com/foodanalyzer/api/GeminiService.kt:100-102 | with at most one product, and no line break in its name or weight text, the listing is a single line |
| Reply.ReplyText | app/src/main/java/com/foodanalyzer/api/GeminiService.kt:81-94 | the only failures are a Gson exception, or (under `?.` only) the missing-text error |
| Reply.Interpret | app/src/main/java/com/foodanalyzer/api/GeminiService.kt:74-96 | failures of the body/status guards come back unchanged; for a 2xx body, an unparsable or non-object envelope is the malformed-envelope error, a failing path passes its error on, and text t gives decode(StripFences(t)), with a decoding failure as a schema error; a Food comes from that case only |
| Prompts.FoodTemplate | app/src/main/java/com/foodanalyzer/api/GeminiService.kt:28-44 | the stage-1 template has 15 lines, and the service-specific line is the fifth |
| Prompts.NutritionTemplate | app/src/main/java/com/foodanalyzer/api/GeminiService.kt:104-138 | the stage-2 template has 33 lines: the heading with the dish name, the listing, and the service-specific line at index 8 |
| Prompts.FoodPromptText | app/src/main/java/com/foodanalyzer/api/GeminiService.kt:28-44 | the stage-1 prompt is its template lines at column 0, joined with "\n" |
| Prompts.NutritionPromptAgrees | app/src/main/java/com/foodanalyzer/api/GeminiService.kt:104-138 | when the name and the listing hold no line break, the prompt as written equals the intended prompt |
| Prompts.NutritionPromptLayout | app/src/main/java/com/foodanalyzer/api/GeminiService.kt:104-106 | the intended prompt opens with the heading, then the listing verbatim, and has no leading indent |
| Prompts.NutritionPromptKeepsIndent | app/src/main/java/com/foodanalyzer/api/GeminiService.kt:104-138 | as written, a listing with a second line leaves the 12-space indent in front, so the result differs from the intended prompt |
| Prompts.NutritionTemplateNoBreak | app/src/main/java/com/foodanalyzer/api/GeminiService.kt:104-138 | with no line break in the name, the listing or the service line, no template line holds one |
| Prompts.NutritionPromptAsWrittenUnbroken | app/src/main/java/com/foodanalyzer/api/GeminiService.kt:104-138 | with no line break in the name, the listing or the service line, the prompt as written is the intended one, opening with the heading and the listing |
| Prompts.NutritionPromptAsWrittenIndented | app/src/main/java/com/foodanalyzer/api/GeminiService.kt:104-138 | as written, a listing whose second line starts with a non-whitespace character gives a prompt opening with the indent, the heading, a line break, the indent and the whole listing |
| GeminiService.ApiUrl | app/src/main/java/com/foodanalyzer/api/GeminiService.kt:25 | the URL is the fixed endpoint followed by exactly the key |
| GeminiService.FirstObjectWalk | app/src/main/java/com/foodanalyzer/api/GeminiService.kt:84 | `get(0)?.asJsonObject?.c` applies c to the first element when that is an object, and throws otherwise |
| GeminiService.CandidateWalk | app/src/main/java/com/foodanalyzer/api/GeminiService.kt:82-85 | the first half of the path gives the content object, `null` for an absent member, or an exception for a wrong kind |
| GeminiService.PartWalk | app/src/main/java/com/foodanalyzer/api/GeminiService.kt:86-88 | the second half gives the text value, `null` for an absent member, or an exception |
| GeminiService.TextPathHalves | app/src/main/java/com/foodanalyzer/api/GeminiService.kt:82-88 | the whole `?.` chain is its two halves, and a `null` from the first flows through the second |
| GeminiService.TextPathReadsEnvelope | app/src/main/java/com/foodanalyzer/api/GeminiService.kt:82-94 | the chain yields text exactly when candidates[0].content.parts[0].text holds one, and that text; it ends in the missing-text error exactly when a member along the way is absent |
| GeminiService.Exchange | app/src/main/java/com/foodanalyzer/api/GeminiService.kt:74-96 | a network failure is the network error; an absent body is the empty-response error; a non-2xx status is the API error with the body; for a 2xx body, case by case (`Answers`): an unparsable body is a malformed envelope; an envelope without the text is the missing-text error when a member is absent and malformed otherwise; text t gives decode(StripFences(t)), a decoding failure as a schema error |
| GeminiService.AnalyzeFood | app/src/main/java/com/foodanalyzer/api/GeminiService.kt:27-97 | the same case by case answer, for the stage-1 request sent through the provider |
| GeminiService.AnalyzeNutrition | app/src/main/java/com/foodanalyzer/api/GeminiService.kt:99-185 | the same, for the stage-2 request |
| GeminiService.MissingStepFails | app/src/main/java/com/foodanalyzer/api/GeminiService.kt:82-94 | a missing step anywhere on the path fails stage 1 with the missing-text error, and no Food is returned |
| GeminiService.MissingStepFailsNutrition | app/src/main/java/com/foodanalyzer/api/GeminiService.kt:169-182 | the same for stage 2 |
| GeminiService.RequestBodyShape | app/src/main/java/com/foodanalyzer/api/GeminiService.kt:46-66 | a body has one content entry holding the given parts (an index past them throws) and the given token cap |
| GeminiService.FoodRequestShape | app/src/main/java/com/foodanalyzer/api/GeminiService.kt:46-72 | stage 1 holds the parts [text prompt, inline_data{mime_type "image/jpeg", data = argument}], 2048 tokens and the JSON content type |
| GeminiService.TextPartText | app/src/main/java/com/foodanalyzer/api/GeminiService.kt:50 | a text part holds the prompt under "text" |
| GeminiService.ImagePartFields | app/src/main/java/com/foodanalyzer/api/GeminiService.kt:51-56 | the image part's inline_data holds "image/jpeg" and the argument verbatim |
| GeminiService.NutritionRequestShape | app/src/main/java/com/foodanalyzer/api/GeminiService.kt:140-154 | stage 2 holds only the text part, which is the prompt as the service builds it (a second part throws), and 4096 tokens |
| GeminiService.StageTwoPromptListing | app/src/main/java/com/foodanalyzer/api/GeminiService.kt:100-138 | with at most one product and no line break in the names or weight texts, the prompt sent is the intended one and opens with the dish name's heading, then the product listing |
| GeminiService.StageTwoPromptIndented | app/src/main/java/com/foodanalyzer/api/GeminiService.kt:100-138 | with two or more products, the prompt sent opens with the 12-space indent, the heading, a line break, the indent again and the whole listing |
| GeminiService.StageTwoPromptAsWrittenKeepsIndent | app/src/main/java/com/foodanalyzer/api/GeminiService.kt:99-138 | with two or more products, the prompt sent keeps the 12-space indent and differs from the intended one |
| OpenAIService.IndexOf | app/src/main/java/com/foodanalyzer/api/OpenAIService.kt:58 | a found index holds the character, with none before it; when nothing is found, the character is absent |
| OpenAIService.ParseDataUrl | app/src/main/java/com/foodanalyzer/api/OpenAIService.kt:58 | a parsed URL has the "data:" scheme and ends with its data |
| OpenAIService.DataUrlRoundTrip | app/src/main/java/com/foodanalyzer/api/OpenAIService.kt:58 | the image URL reads back as base64 "image/jpeg" data that is exactly the argument |
| OpenAIService.AuthorizationHeader | app/src/main/java/com/foodanalyzer/api/OpenAIService.kt:66-71 | both requests carry Authorization = "Bearer " + key, and the JSON content type |
| OpenAIService.RequestBodyShape | app/src/main/java/com/foodanalyzer/api/OpenAIService.kt:49-64 | a body names its model and token cap, and holds one user message with the given content |
| OpenAIService.FoodRequestShape | app/src/main/java/com/foodanalyzer/api/OpenAIService.kt:49-64 | stage 1 uses gpt-4-vision-preview with 1000 tokens; the content is [text part, image_url part] |
| OpenAIService.ImageContentUrl | app/src/main/java/com/foodanalyzer/api/OpenAIService.kt:56-59 | image_url.url is "data:image/jpeg;base64," + argument |
| OpenAIService.TextContentText | app/src/main/java/com/foodanalyzer/api/OpenAIService.kt:55 | a text part holds the prompt under "text" |
| OpenAIService.NutritionRequestShape | app/src/main/java/com/foodanalyzer/api/OpenAIService.kt:136-142 | stage 2's content is the prompt string as the service builds it, with model gpt-4-turbo-preview and 2000 tokens |
| OpenAIService.StageTwoPromptListing | app/src/main/java/com/foodanalyzer/api/OpenAIService.kt:96-134 | with at most one product and no line break in the names or weight texts, the prompt sent is the intended one and opens with the dish name's heading, then the product listing |
| OpenAIService.StageTwoPromptIndented | app/src/main/java/com/foodanalyzer/api/OpenAIService.kt:96-134 | with two or more products, the prompt sent opens with the 12-space indent, the heading, a line break, the indent again and the whole listing |
| OpenAIService.StageTwoPromptAsWrittenKeepsIndent | app/src/main/java/com/foodanalyzer/api/OpenAIService.kt:96-134 | with two or more products, the prompt sent keeps the 12-space indent and differs from the intended one |
| OpenAIService.TextPathReadsEnvelope | app/src/main/java/com/foodanalyzer/api/OpenAIService.kt:80-85 | the `.` chain yields text exactly when choices[0].message.content holds one, and that text; every other envelope throws |
| OpenAIService.Exchange | app/src/main/java/com/foodanalyzer/api/OpenAIService.kt:73-92 | a network failure is the network error; the body is checked before the status; for a 2xx body, case by case (`Answers`): an unparsable body or an envelope without the text is a malformed envelope, and text t gives decode(StripFences(t)), a decoding failure as a schema error; the missing-text error never occurs |
| OpenAIService.AnalyzeFood | app/src/main/java/com/foodanalyzer/api/OpenAIService.kt:30-93 | the same case by case answer, for the stage-1 request with the shipped key |
| OpenAIService.AnalyzeNutrition | app/src/main/java/com/foodanalyzer/api/OpenAIService.kt:95-171 | the same, for the stage-2 request |
| EditProducts.ParsedWeight | app/src/main/java/com/foodanalyzer/ui/EditProductsActivity.kt:77 | an unparseable weight is 0.0; a parsed one is kept |
| EditProducts.UnparsedWeightRejected | app/src/main/java/com/foodanalyzer/ui/EditProductsActivity.kt:76-84 | an unparseable weight is always rejected |
| EditProducts.Appended | app/src/main/java/com/foodanalyzer/ui/EditProductsActivity.kt:81 | one more element, at the end; the earlier ones are unchanged |
| EditProducts.Replaced | app/src/main/java/com/foodanalyzer/ui/EditProductsActivity.kt:106 | the same length; only element i differs |
| EditProducts.Removed | app/src/main/java/com/foodanalyzer/ui/EditProductsActivity.kt:57 | one element shorter; earlier elements stay, later ones shift down one |
| EditProducts.RemoveUndoesAppend | app/src/main/java/com/foodanalyzer/ui/EditProductsActivity.kt:57-81 | deleting the product just added gives back the list before |
| EditProducts.ReplaceUndoesReplace | app/src/main/java/com/foodanalyzer/ui/EditProductsActivity.kt:106 | putting the old element back undoes an edit |
| EditProducts.RemovedMultiset | app/src/main/java/com/foodanalyzer/ui/EditProductsActivity.kt:57 | a delete removes exactly one occurrence of element i |
| EditProducts.ReplacedMultiset | app/src/main/java/com/foodanalyzer/ui/EditProductsActivity.kt:106 | an edit swaps one occurrence of the old element for the new one |
| EditProducts.FailureToast | app/src/main/java/com/foodanalyzer/ui/EditProductsActivity.kt:137 | the failure toast is "Помилка аналізу: " + the exception message, where the services compose one |
| EditProducts.EditProductsActivity.constructor | app/src/main/java/com/foodanalyzer/ui/EditProductsActivity.kt:32-35 | the screen starts with the decoded dish, the analyse button enabled and nothing forwarded |
| EditProducts.EditProductsActivity.AddProduct | app/src/main/java/com/foodanalyzer/ui/EditProductsActivity.kt:75-86 | a non-empty name with weight > 0 appends Product(name, weight), with nutrition absent; otherwise the dish is unchanged and the toast is shown; nothing else changes |
| EditProducts.EditProductsActivity.EditProduct | app/src/main/java/com/foodanalyzer/ui/EditProductsActivity.kt:101-111 | a valid edit replaces only element p, dropping its nutrition; an invalid one changes nothing but the toast |
| EditProducts.EditProductsActivity.DeleteProduct | app/src/main/java/com/foodanalyzer/ui/EditProductsActivity.kt:56-59 | removes exactly element p; nothing else changes |
| EditProducts.EditProductsActivity.Analyze | app/src/main/java/com/foodanalyzer/ui/EditProductsActivity.kt:116-141 | the name is set first and the whole dish is sent; the button ends enabled; success forwards the analysed dish and closes the screen; failure keeps the edited dish and records the error |
| Results.ToSavedMeal | app/src/main/java/com/foodanalyzer/ui/ResultsActivity.kt:93-102 | no row without nutrition; otherwise id 0, the dish's name, the time now, the dish-level totals verbatim and the serialised products |
| Results.TotalsIgnoreProducts | app/src/main/java/com/foodanalyzer/ui/ResultsActivity.kt:97-100 | the saved totals depend only on the dish-level nutrition, never on the products |
| Results.ResultsActivity.SaveClicked | app/src/main/java/com/foodanalyzer/ui/ResultsActivity.kt:92-121 | without nutrition nothing happens; a failed insert changes only the error shown, and the button stays enabled; after a successful insert the row is added with the next sequence value as its id, the sequence value moves up by one, the broadcast is sent and the button is disabled and relabelled |
| Meals.InsertByDate | app/src/main/java/com/foodanalyzer/databse/MealDao.kt:12 | inserting into a date-descending list keeps it date-descending and adds exactly that meal |
| Meals.SortByDate | app/src/main/java/com/foodanalyzer/databse/MealDao.kt:12 | sorted by date, not increasing, and a permutation of the rows |
| Meals.InWindow | app/src/main/java/com/foodanalyzer/databse/MealDao.kt:15 | exactly the rows with start <= date < end, each as often as stored |
| Meals.WithoutIdCounts | app/src/main/java/com/foodanalyzer/databse/MealDao.kt:21-22 | a delete by key drops every row with that id and keeps every other row as often as before |
| Meals.FindId | app/src/main/java/com/foodanalyzer/databse/MealDao.kt:18-19 | a row is found exactly when one has the id, and it is a stored row with that id |
| Meals.DeleteUndoesInsert | app/src/main/java/com/foodanalyzer/databse/MealDao.kt:9-22 | deleting a freshly inserted row gives back the table before the insert |
| Meals.FreshAboveSequence | app/src/main/java/com/foodanalyzer/databse/MealDao.kt:9-10 | an id above the sequence value is not in the table, so a generated id is new |
| Meals.WithoutIdSubset | app/src/main/java/com/foodanalyzer/databse/MealDao.kt:21-22 | every row a delete leaves was in the table |
| Meals.WithoutIdUnique | app/src/main/java/com/foodanalyzer/databse/MealDao.kt:21-22 | a delete keeps the primary keys unique |
| Meals.WithoutIdKeeps | app/src/main/java/com/foodanalyzer/databse/MealDao.kt:21-22 | a delete keeps the table's invariant: the rows left were stored, and the ids stay unique |
| Meals.MealDao.constructor | app/src/main/java/com/foodanalyzer/databse/MealDao.kt:8 | an empty table with sequence value 0 |
| Meals.MealDao.InsertMeal | app/src/main/java/com/foodanalyzer/databse/MealDao.kt:9-10 | adds exactly one row and returns its id, generated when the id is 0; a duplicate explicit id or a failing database changes nothing |
| Meals.MealDao.GetAllMeals | app/src/main/java/com/foodanalyzer/databse/MealDao.kt:12-13 | every row, sorted by date, which does not increase |
| Meals.MealDao.GetMealsByDate | app/src/main/java/com/foodanalyzer/databse/MealDao.kt:15-16 | exactly the rows with start <= date < end, sorted by date, which does not increase |
| Meals.MealDao.GetMealById | app/src/main/java/com/foodanalyzer/databse/MealDao.kt:18-19 | the row with that id, or none exactly when no row has it |
| Meals.MealDao.DeleteMeal | app/src/main/java/com/foodanalyzer/databse/MealDao.kt:21-22 | removes the rows with the argument's id and keeps all others |
| Meals.MealDao.DeleteAllMeals | app/src/main/java/com/foodanalyzer/databse/MealDao.kt:24-25 | the table ends empty, and the sequence value stays |
| Calendars.LocalMidnight | app/src/main/java/com/foodanalyzer/repository/MealRepository.kt:14-19 | the midnight is at or before the instant, less than a day before it, and on the same local day |
| Calendars.SameDaySameMidnight | app/src/main/java/com/foodanalyzer/repository/MealRepository.kt:13-22 | two instants share a window exactly when they fall on the same local day |
| Calendars.InDayWindow | app/src/main/java/com/foodanalyzer/repository/MealRepository.kt:14-22 | an instant is in [midnight, midnight + 1 day) exactly when it is on that local day |
| Calendars.Calendar.constructor | app/src/main/java/com/foodanalyzer/repository/MealRepository.kt:13 | a calendar in the given zone with normalised fields |
| Calendars.Calendar.SetTime | app/src/main/java/com/foodanalyzer/repository/MealRepository.kt:14 | the fields become the local day and time of the instant |
| Calendars.Calendar.Set | app/src/main/java/com/foodanalyzer/repository/MealRepository.kt:15-18 | one field takes the value, and the others keep theirs |
| Calendars.Calendar.AddDays | app/src/main/java/com/foodanalyzer/repository/MealRepository.kt:21 | the instant moves by whole days |
| MealRepo.DayBounds | app/src/main/java/com/foodanalyzer/repository/MealRepository.kt:13-22 | the calendar steps give local midnight as the start, and the start plus one day as the end |
| MealRepo.WindowBounds | app/src/main/java/com/foodanalyzer/repository/MealRepository.kt:19-24 | a meal stamped at the start is listed; one stamped at the end is not |
| MealRepo.DayWindowIsDay | app/src/main/java/com/foodanalyzer/repository/MealRepository.kt:12-25 | the window holds exactly the meals of that local day |
| MealRepo.MealRepository.GetAllMeals | app/src/main/java/com/foodanalyzer/repository/MealRepository.kt:10 | the DAO's listing: every row, newest first |
| MealRepo.MealRepository.GetMealsByDate | app/src/main/java/com/foodanalyzer/repository/MealRepository.kt:12-25 | the DAO's window from local midnight to the next, so exactly the meals of that local day, newest first |
| MealRepo.MealRepository.InsertMeal | app/src/main/java/com/foodanalyzer/repository/MealRepository.kt:27-29 | the DAO's insert passed through: the generated or explicit id, the row added, the new sequence value, and both error cases with nothing changed |
| MealRepo.MealRepository.DeleteMeal | app/src/main/java/com/foodanalyzer/repository/MealRepository.kt:31-33 | the DAO's delete, passed through |
| MealRepo.MealRepository.GetMealById | app/src/main/java/com/foodanalyzer/repository/MealRepository.kt:35-37 | the DAO's lookup, passed through |
| SettingsStore.Lookup | app/src/main/java/com/foodanalyzer/databse/UserSettingsDao.kt:9-13 | the row with id 1, or none exactly when it is absent |
| SettingsStore.Upserted | app/src/main/java/com/foodanalyzer/databse/UserSettingsDao.kt:15-16 | afterwards the row under the id is the argument, whatever was there; other rows are unchanged |
| SettingsStore.Updated | app/src/main/java/com/foodanalyzer/databse/UserSettingsDao.kt:18-19 | only an existing row with that id is rewritten; no row is ever added |
| SettingsStore.LastUpsertWins | app/src/main/java/com/foodanalyzer/databse/UserSettingsDao.kt:15-16 | of two upserts of the same row, the second one's values stay |
| SettingsStore.UpdateAfterUpsert | app/src/main/java/com/foodanalyzer/databse/UserSettingsDao.kt:15-19 | an update right after an upsert of the same row acts as an upsert |
| SettingsStore.UserSettingsDao.GetUserSettings | app/src/main/java/com/foodanalyzer/databse/UserSettingsDao.kt:9-13 | both reads give the row with id 1, or null |
| SettingsStore.UserSettingsDao.InsertSettings | app/src/main/java/com/foodanalyzer/databse/UserSettingsDao.kt:15-16 | the REPLACE upsert |
| SettingsStore.UserSettingsDao.UpdateSettings | app/src/main/java/com/foodanalyzer/databse/UserSettingsDao.kt:18-19 | update only if the row is present |
| SettingsRepo.RangeSettings | app/src/main/java/com/foodanalyzer/repository/UserSettingsRepository.kt:14-19 | {id 1, min, max, streak 0, last date 0} |
| SettingsRepo.WithStreak | app/src/main/java/com/foodanalyzer/repository/UserSettingsRepository.kt:28-31 | only the two streak fields change; id and range are kept |
| SettingsRepo.StreakKeepsRange | app/src/main/java/com/foodanalyzer/repository/UserSettingsRepository.kt:13-32 | recording a streak leaves the saved range and id untouched |
| SettingsRepo.UserSettingsRepository.GetUserSettings | app/src/main/java/com/foodanalyzer/repository/UserSettingsRepository.kt:9-11 | the row stored under id 1, or none exactly when it is absent |
| SettingsRepo.UserSettingsRepository.SaveSettings | app/src/main/java/com/foodanalyzer/repository/UserSettingsRepository.kt:13-20 | upserts {id 1, min, max, streak reset}, with no validation of the pair; a read gives it back |
| SettingsRepo.UserSettingsRepository.UpdateStreak | app/src/main/java/com/foodanalyzer/repository/UserSettingsRepository.kt:22-33 | with no row nothing is written; otherwise only the streak fields change, and a read returns them |
| SettingsScreen.ValidateRange | app/src/main/java/com/foodanalyzer/ui/SettingsActivity.kt:53-64 | a missing field is refused first; then min >= max is refused; otherwise exactly the parsed pair goes on |
| SettingsScreen.EqualBoundsRefused | app/src/main/java/com/foodanalyzer/ui/SettingsActivity.kt:61-64 | equal bounds are refused as an empty range |
| SettingsScreen.SettingsActivity.SaveClicked | app/src/main/java/com/foodanalyzer/ui/SettingsActivity.kt:52-71 | a refused range stores nothing and shows its toast; otherwise the range is saved once, and the screen closes |
| CaloriesProgress.Clamp01 | app/src/main/java/com/foodanalyzer/views/CaloriesProgressView.kt:67 | the result is in [0, 1]; a value inside is unchanged; values outside go to the nearer bound |
| CaloriesProgress.ToInt | app/src/main/java/com/foodanalyzer/views/CaloriesProgressView.kt:104-105 | rounds toward zero and saturates at the Int range |
| CaloriesProgress.Progress | app/src/main/java/com/foodanalyzer/views/CaloriesProgressView.kt:64-73 | always in [0, 1]; exactly 1 at or above the minimum; below it, the share of the minimum reached |
| CaloriesProgress.Render | app/src/main/java/com/foodanalyzer/views/CaloriesProgressView.kt:60-131 | shown only when max > min and max > 0; "exceeded" exactly when current > max; alpha 150 below the minimum and 255 otherwise; the labels, with "+excess" only when exceeded |
| CaloriesProgress.ExceededIsFull | app/src/main/java/com/foodanalyzer/views/CaloriesProgressView.kt:60-130 | past the maximum the bar is full and opaque, and the excess label is not negative |
| CaloriesProgress.WithinNormIsQuiet | app/src/main/java/com/foodanalyzer/views/CaloriesProgressView.kt:60-130 | within the norm the bar is full and opaque, with no warning |
| CaloriesProgress.ProgressMonotone | app/src/main/java/com/foodanalyzer/views/CaloriesProgressView.kt:64-73 | with a positive minimum, more calories never shrink the bar |
| CaloriesProgress.CaloriesProgressView.constructor | app/src/main/java/com/foodanalyzer/views/CaloriesProgressView.kt:16-18 | three zeros, so nothing is drawn |
| CaloriesProgress.CaloriesProgressView.SetCaloriesData | app/src/main/java/com/foodanalyzer/views/CaloriesProgressView.kt:44-49 | stores exactly the three values |
| CaloriesProgress.CaloriesProgressView.Drawn | app/src/main/java/com/foodanalyzer/views/CaloriesProgressView.kt:51-132 | the next drawing is active exactly for a usable norm, with "exceeded" exactly when current > max and the progress in [0, 1] |

## Left out

- HTTP and threading. The OkHttp client, its timeouts, `execute()` and the coroutine dispatch are left out. The response is the value the `provider` parameter returns. Races between a screen's handlers and its coroutines are not modelled.
- Gson. `JsonParser.parseString`, `fromJson` and `toJson` are parameters. No serialisation round-trip is claimed. The type converters in models/SavedMeal.kt are not modelled. Gson's exception messages are not modelled either, so `Reply.Message` gives none for those errors, nor for the network error, whose text is the `IOException`'s.
- `Double.toString` of a weight is the parameter `weightText`. `String.format` on the results screen is display code.
- The image pipeline: capture, JPEG compression and base64 encoding.
- The rest of the UI: history statistics, adapters, the text of toasts other than the ones above, intents and navigation, and the settings screen's `loadSettings`, which only shows values.
- The database plumbing (AppDatabase, migrations).
- Live queries. They are snapshot reads, so `getUserSettings` and `getUserSettingsSync` are the same read.
- Daylight saving. The zone has a fixed offset, so `add(DAY_OF_MONTH, 1)` is always 24 hours.
- Streak transitions. No code computes new streak values; only their storage is modelled.
- Drawing: pixel geometry, paint and the text layout of `onDraw`.
- `Double` is `real`: no NaN, no infinities and no rounding. The one infinity the code relies on is modelled explicitly: a minimum of 0 with a negative count gives −∞, which the clamp turns into 0. Kotlin's `Long` is an unbounded `int`, so overflow of the sequence value or of timestamps is not modelled.
- A database that refuses writes is the `failing` flag, taken as given. What makes storage fail is not modelled.
- EditProducts.EditProductsActivity.Analyze: the stage-2 call is the injected function `analyze`. Its tie to `GeminiService.AnalyzeNutrition` is stated in a comment, not in the contract.
- Reply.ProductsInfoLines: holds only when no product name and no weight text contains a line break. `Text.LinesOfJoin` and `Prompts.FoodPromptText` likewise assume break-free lines, and `GeminiService.StageTwoPromptListing`, `OpenAIService.StageTwoPromptListing`, `GeminiService.StageTwoPromptIndented` and `OpenAIService.StageTwoPromptIndented` assume names and weight texts free of line breaks (or of '\r'). The source does not check this.
- Text.Trim: the contract gives only the trimmed ends and the length. Where the result sits inside the input is stated by `Text.TrimStart` and `Text.TrimEnd`, one cut each, and `Text.TrimOfPadded` pins down the result of trimming padding.
- Reply.StripFencesJsonBlock: the padding between the fence and the body must be non-empty, as in "```json\n…", and the body must not itself open or close with a fence.
- Gemini's "temperature", "topK" and "topP" are kept as number texts in the request body. No lemma is stated about them.

## Findings

| source | as written | input that shows it | evidently intended | confidence | as-written member | corrected member |
|---|---|---|---|---|---|---|
| app/src/main/java/com/foodanalyzer/api/GeminiService.kt:104-138 | `trimIndent()` runs on the stage-2 prompt after `$productsInfo` has been interpolated | a dish with two products: the listing's second line "- …" sits at column 0, so the common indent is 0 and every template line keeps its 12 leading spaces | the template's lines at column 0, with the listing as it is | not executed | Prompts.NutritionPromptKeepsIndent | Prompts.NutritionPromptLayout |

How the halves fit together:

- The as-written prompt is `Prompts.NutritionPromptAsWritten`.
- `Prompts.NutritionPromptKeepsIndent` shows the discrepancy: the prompt starts with the 12-space indent and differs from the intended prompt. For any dish with two or more products, `GeminiService.StageTwoPromptAsWrittenKeepsIndent` states the same.
- The intended prompt is `Prompts.NutritionPrompt`. `Prompts.NutritionPromptLayout` proves it opens with the heading and the listing at column 0.
- `Prompts.NutritionPromptAgrees` proves the two prompts coincide when nothing interpolated holds a line break.
- OpenAIService.kt:100-134 builds its stage-2 prompt the same way.
- Both services' `StageTwoPrompt` are the prompt as written, as the code sends it. `StageTwoPromptListing` shows it is the intended prompt for a dish with at most one product. `StageTwoPromptIndented` and `StageTwoPromptAsWrittenKeepsIndent` give its shape for two or more.
