/**
 * The prompt templates of GeminiService and OpenAIService. Each is a Kotlin raw string: a line
 * break after the opening quotes, every template line behind 12 spaces, and the closing quotes
 * behind 8 spaces, passed through `trimIndent()`. The two services share every line except one:
 * where Gemini asks for accuracy and Ukrainian names, OpenAI has a blank line.
 */
module Prompts {
  import opened Wrappers
  import opened Text

  const TemplateIndent: string := "            "
  const TemplateClosing: string := "        "

  /** Gemini's extra instruction; OpenAI has an empty line in its place. */
  const AccuracyInstruction: string :=
    "Аналіз виконуй максимально " + "точно опираючись на надійні " + "джерела. Назви страв та " + "продуктів вписуй на " + "українській мові."

  const FoodQuestions: seq<string> := [
    "Проаналізуй це фото страви та визнач:",
    "1. Назву страви",
    "2. Список продуктів у страві",
    "3. Приблизну вагу кожного продукту в грамах"
  ]

  const FoodExample: seq<string> := [
    "Поверни результат у форматі JSON:",
    "{",
    "  \"name\": \"Назва страви\",",
    "  \"products\": [",
    "    {\"name\": \"Продукт 1\", \"weight\": 100},",
    "    {\"name\": \"Продукт 2\", \"weight\": 50}",
    "  ]",
    "}"
  ]

  const ReplyOnlyJson: seq<string> := [
    "",
    "Відповідай ТІЛЬКИ валідним " + "JSON без додаткового тексту."
  ]

  /** The stage-1 template lines, with `middle` after the questions. */
  function FoodTemplate(middle: string): (r: seq<string>)
    ensures |r| == 15 && r[4] == middle
  {
    FoodQuestions + [middle] + FoodExample + ReplyOnlyJson
  }

  function NutritionHeading(name: string): string {
    "Проаналізуй харчову " + "цінність страви \"" + name + "\" з таких продуктів:"
  }

  const NutritionQuestions: seq<string> := [
    "",
    "Порахуй для КОЖНОГО продукту " + "та для ВСІЄЇ страви загалом:",
    "- Калорії (ккал)",
    "- Білки (г)",
    "- Жири (г)",
    "- Вуглеводи (г)"
  ]

  const NutritionExampleTail: seq<string> := [
    "  \"nutrition\": {",
    "    \"calories\": 500.0,",
    "    \"proteins\": 25.0,",
    "    \"fats\": 15.0,",
    "    \"carbs\": 60.0",
    "  },",
    "  \"products\": [",
    "    {",
    "      \"name\": \"Продукт 1\",",
    "      \"weight\": 100,",
    "      \"nutrition\": {",
    "        \"calories\": 200.0,",
    "        \"proteins\": 10.0,",
    "        \"fats\": 5.0,",
    "        \"carbs\": 25.0",
    "      }",
    "    }",
    "  ]",
    "}"
  ]

  /** The stage-2 template lines: the dish name and the product listing are interpolated. */
  function NutritionTemplate(name: string, listing: string, middle: string): (r: seq<string>)
    ensures |r| == 33 && r[0] == NutritionHeading(name) && r[1] == listing && r[8] == middle
  {
    [NutritionHeading(name), listing] + NutritionQuestions + [middle]
      + ["Поверни результат " + "у форматі JSON:", "{", "  \"name\": \"" + name + "\","]
      + NutritionExampleTail + ReplyOnlyJson
  }


  /** A prompt as the source builds it: the raw template text run through `trimIndent()`. */
  function TemplatePrompt(lines: seq<string>): string {
    TrimIndent(RawTemplate(lines, TemplateIndent, TemplateClosing))
  }

  /** The stage-1 prompt of either service. */
  function FoodPrompt(middle: string): string {
    TemplatePrompt(FoodTemplate(middle))
  }

  /**
   * The stage-2 prompt as written: `trimIndent()` runs on the text after the name and the
   * listing have been interpolated.
   */
  function NutritionPromptAsWritten(name: string, listing: string, middle: string): string {
    TemplatePrompt(NutritionTemplate(name, listing, middle))
  }

  /** The stage-2 prompt as intended: the template's lines at column 0, whatever the listing holds. */
  function NutritionPrompt(name: string, listing: string, middle: string): string {
    JoinToString(NutritionTemplate(name, listing, middle), "\n")
  }

  lemma IndentIsWhitespace()
    ensures AllWhitespace(TemplateIndent) && NoBreak(TemplateIndent)
    ensures AllWhitespace(TemplateClosing) && NoBreak(TemplateClosing)
    ensures |TemplateIndent| == 12
  {
  }

  /** With break-free lines the stage-1 prompt is its template lines, unindented, one per line. */
  lemma FoodPromptText(middle: string)
    requires forall i :: 0 <= i < |FoodTemplate(middle)| ==> NoBreak(FoodTemplate(middle)[i])
    ensures FoodPrompt(middle) == JoinToString(FoodTemplate(middle), "\n")
  {
    IndentIsWhitespace();
    assert FoodTemplate(middle)[0][0] == 'П';
    TrimIndentOfTemplate(FoodTemplate(middle), TemplateIndent, TemplateClosing, 0);
  }

  /** When the name and the listing hold no line break, the prompt as written is the intended one. */
  lemma NutritionPromptAgrees(name: string, listing: string, middle: string)
    requires forall i :: 0 <= i < 33 ==> NoBreak(NutritionTemplate(name, listing, middle)[i])
    ensures NutritionPromptAsWritten(name, listing, middle) == NutritionPrompt(name, listing, middle)
  {
    IndentIsWhitespace();
    assert NutritionTemplate(name, listing, middle)[0][0] == 'П';
    TrimIndentOfTemplate(NutritionTemplate(name, listing, middle), TemplateIndent, TemplateClosing, 0);
  }

  /** The intended prompt opens with the heading, then the listing verbatim on the following line(s). */
  lemma NutritionPromptLayout(name: string, listing: string, middle: string)
    ensures StartsWith(NutritionPrompt(name, listing, middle), NutritionHeading(name) + "\n" + listing + "\n")
    ensures !StartsWith(NutritionPrompt(name, listing, middle), TemplateIndent)
  {
    var lines := NutritionTemplate(name, listing, middle);
    var rest := JoinToString(lines[2..], "\n");
    assert JoinToString(lines[1..], "\n") == listing + "\n" + rest;
    assert NutritionPrompt(name, listing, middle) == NutritionHeading(name) + "\n" + (listing + "\n" + rest);
    assert NutritionPrompt(name, listing, middle)[0] == 'П';
  }

  /**
   * As written, a listing with a second line (two or more products) puts a line at column 0, so
   * the common indent is 0 and `trimIndent()` keeps the template's 12 spaces on every other line.
   */
  lemma NutritionPromptKeepsIndent(name: string, listing: string, middle: string, k: nat)
    requires k + 1 < |listing| && listing[k] == '\n'
    requires listing[k + 1] != '\n' && listing[k + 1] != '\r' && !IsWhitespace(listing[k + 1])
    ensures StartsWith(NutritionPromptAsWritten(name, listing, middle), TemplateIndent)
    ensures NutritionPromptAsWritten(name, listing, middle) != NutritionPrompt(name, listing, middle)
  {
    var lines := NutritionTemplate(name, listing, middle);
    assert lines[0][0] == 'П';
    IndentIsWhitespace();
    TemplateKeepsIndent(lines, TemplateIndent, TemplateClosing, k);
    var p := NutritionPromptAsWritten(name, listing, middle);
    assert StartsWith(p, TemplateIndent) by {
      assert p[..|TemplateIndent| + 1][..|TemplateIndent|] == p[..|TemplateIndent|];
    }
    NutritionPromptLayout(name, listing, middle);
  }

  /** No line holds a line break. */
  predicate Unbroken(lines: seq<string>) {
    forall i :: 0 <= i < |lines| ==> NoBreak(lines[i])
  }

  lemma UnbrokenAppend(a: seq<string>, b: seq<string>)
    requires Unbroken(a) && Unbroken(b)
    ensures Unbroken(a + b)
  {
    forall i | 0 <= i < |a + b| ensures NoBreak((a + b)[i]) {
      if i >= |a| {
        assert (a + b)[i] == b[i - |a|];
      }
    }
  }

  lemma QuestionsUnbroken()
    ensures Unbroken(NutritionQuestions)
  {
    var q := NutritionQuestions;
    assert NoBreak(q[0]);
    assert NoBreak(q[1]);
    assert NoBreak(q[2]);
    assert NoBreak(q[3]);
    assert NoBreak(q[4]);
    assert NoBreak(q[5]);
  }

  lemma ExampleTailUnbroken()
    ensures Unbroken(NutritionExampleTail)
  {
    var t := NutritionExampleTail;
    assert NoBreak(t[0]);
    assert NoBreak(t[1]);
    assert NoBreak(t[2]);
    assert NoBreak(t[3]);
    assert NoBreak(t[4]);
    assert NoBreak(t[5]);
    assert NoBreak(t[6]);
    assert NoBreak(t[7]);
    assert NoBreak(t[8]);
    assert NoBreak(t[9]);
    assert NoBreak(t[10]);
    assert NoBreak(t[11]);
    assert NoBreak(t[12]);
    assert NoBreak(t[13]);
    assert NoBreak(t[14]);
    assert NoBreak(t[15]);
    assert NoBreak(t[16]);
    assert NoBreak(t[17]);
    assert NoBreak(t[18]);
  }

  lemma ExampleOpeningUnbroken(name: string)
    requires NoBreak(name)
    ensures Unbroken(["Поверни результат " + "у форматі JSON:", "{", "  \"name\": \"" + name + "\","])
  {
    var e := ["Поверни результат " + "у форматі JSON:", "{", "  \"name\": \"" + name + "\","];
    assert NoBreak(e[0]);
    assert NoBreak(e[1]);
    assert NoBreak(e[2]);
  }

  lemma PiecesUnbroken(a: string, b: string, c: string, d: string, e: string)
    requires NoBreak(a) && NoBreak(b) && NoBreak(c) && NoBreak(d) && NoBreak(e)
    ensures NoBreak(a + b + c + d + e)
  {
    NoBreakConcat(a, b);
    NoBreakConcat(a + b, c);
    NoBreakConcat(a + b + c, d);
    NoBreakConcat(a + b + c + d, e);
  }

  lemma AccuracyUnbroken()
    ensures NoBreak(AccuracyInstruction)
  {
    AccuracyOpeningUnbroken();
    AccuracyClosingUnbroken();
    PiecesUnbroken("Аналіз виконуй максимально ", "точно опираючись на надійні ", "джерела. Назви страв та ",
      "продуктів вписуй на ", "українській мові.");
  }

  lemma AccuracyOpeningUnbroken()
    ensures NoBreak("Аналіз виконуй максимально ") && NoBreak("точно опираючись на надійні ")
  {
  }

  lemma AccuracyClosingUnbroken()
    ensures NoBreak("джерела. Назви страв та ") && NoBreak("продуктів вписуй на ") && NoBreak("українській мові.")
  {
  }

  lemma ClosingUnbroken()
    ensures Unbroken(ReplyOnlyJson)
  {
    assert NoBreak(ReplyOnlyJson[0]);
    assert NoBreak(ReplyOnlyJson[1]);
  }

  lemma HeadingUnbroken(name: string, listing: string)
    requires NoBreak(name) && NoBreak(listing)
    ensures Unbroken([NutritionHeading(name), listing])
  {
    assert NoBreak(NutritionHeading(name));
  }

  /** Apart from what is interpolated, no stage-2 template line holds a line break. */
  lemma NutritionTemplateNoBreak(name: string, listing: string, middle: string)
    requires NoBreak(name) && NoBreak(listing) && NoBreak(middle)
    ensures forall i :: 0 <= i < 33 ==> NoBreak(NutritionTemplate(name, listing, middle)[i])
  {
    var head := [NutritionHeading(name), listing];
    var example := ["Поверни результат " + "у форматі JSON:", "{", "  \"name\": \"" + name + "\","];
    HeadingUnbroken(name, listing);
    ExampleOpeningUnbroken(name);
    ClosingUnbroken();
    QuestionsUnbroken();
    ExampleTailUnbroken();
    assert Unbroken([middle]);
    var a := head + NutritionQuestions;
    UnbrokenAppend(head, NutritionQuestions);
    var b := a + [middle];
    UnbrokenAppend(a, [middle]);
    var c := b + example;
    UnbrokenAppend(b, example);
    var d := c + NutritionExampleTail;
    UnbrokenAppend(c, NutritionExampleTail);
    UnbrokenAppend(d, ReplyOnlyJson);
    assert NutritionTemplate(name, listing, middle) == d + ReplyOnlyJson;
  }

  /**
   * As written, when nothing interpolated holds a line break (a dish with at most one product),
   * the prompt is the intended one: the heading, then the listing, at column 0.
   */
  lemma NutritionPromptAsWrittenUnbroken(name: string, listing: string, middle: string)
    requires NoBreak(name) && NoBreak(listing) && NoBreak(middle)
    ensures NutritionPromptAsWritten(name, listing, middle) == NutritionPrompt(name, listing, middle)
    ensures StartsWith(NutritionPromptAsWritten(name, listing, middle), NutritionHeading(name) + "\n" + listing + "\n")
  {
    NutritionTemplateNoBreak(name, listing, middle);
    NutritionPromptAgrees(name, listing, middle);
    NutritionPromptLayout(name, listing, middle);
  }

  /**
   * As written, when the listing has a second line starting at column 0 (two or more products)
   * and nothing holds a '\r', `trimIndent()` cuts nothing: the heading and the listing's first
   * line stay behind the 12-space indent, and the listing's later lines start at column 0.
   */
  lemma NutritionPromptAsWrittenIndented(name: string, listing: string, middle: string, k: nat)
    requires '\r' !in name && '\r' !in listing
    requires k + 1 < |listing| && listing[k] == '\n'
    requires listing[k + 1] != '\n' && listing[k + 1] != '\r' && !IsWhitespace(listing[k + 1])
    ensures StartsWith(NutritionPromptAsWritten(name, listing, middle),
      TemplateIndent + NutritionHeading(name) + "\n" + TemplateIndent + listing + "\n")
  {
    var lines := NutritionTemplate(name, listing, middle);
    assert '\r' !in NutritionHeading(name);
    TemplateAtColumnZero(lines, TemplateIndent, TemplateClosing, k);
  }
}
