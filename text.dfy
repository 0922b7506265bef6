/**
 * The Kotlin standard-library string operations the core relies on: `trim`, `removePrefix`,
 * `removeSuffix` and `joinToString`, with `split` as the inverse the product listing is checked
 * against. Strings are sequences of Unicode scalar values; every whitespace character Kotlin
 * recognises lies in the Basic Multilingual Plane, so UTF-16 and scalar values agree here.
 */
module Text {
  import opened Wrappers

  /**
   * Kotlin's `Char.isWhitespace()` on the JVM: `Character.isWhitespace(c) || Character.isSpaceChar(c)`,
   * i.e. the ASCII controls TAB, LF, VT, FF, CR and FS..US, plus every space, line and paragraph
   * separator of Unicode (non-breaking spaces included).
   */
  predicate IsWhitespace(c: char) {
    || c == ' ' || ('\t' <= c <= '\r') || ('\U{1C}' <= c <= '\U{1F}')
    || c == '\U{A0}' || c == '\U{1680}' || ('\U{2000}' <= c <= '\U{200A}')
    || c == '\U{2028}' || c == '\U{2029}' || c == '\U{202F}' || c == '\U{205F}' || c == '\U{3000}'
  }

  predicate AllWhitespace(s: string) {
    forall i :: 0 <= i < |s| ==> IsWhitespace(s[i])
  }

  /** Neither end of `s` is whitespace: what `trim` guarantees of its result. */
  predicate Trimmed(s: string) {
    s == [] || (!IsWhitespace(s[0]) && !IsWhitespace(s[|s| - 1]))
  }

  /** `trimStart()`: drops the leading whitespace and nothing else. */
  function TrimStart(s: string): (r: string)
    ensures |r| <= |s| && r == s[|s| - |r|..]
    ensures AllWhitespace(s[..|s| - |r|])
    ensures r == [] || !IsWhitespace(r[0])
  {
    if |s| > 0 && IsWhitespace(s[0]) then
      var r := TrimStart(s[1..]);
      LeadingPadGrows(s, r);
      r
    else
      assert s[..0] == [];
      s
  }

  /** A suffix of `s[1..]` after whitespace is a suffix of `s` after whitespace when `s[0]` is whitespace. */
  lemma LeadingPadGrows(s: string, r: string)
    requires |s| > 0 && IsWhitespace(s[0])
    requires |r| <= |s| - 1 && r == s[1..][|s| - 1 - |r|..] && AllWhitespace(s[1..][..|s| - 1 - |r|])
    ensures r == s[|s| - |r|..] && AllWhitespace(s[..|s| - |r|])
  {
    var n := |s| - |r|;
    assert s[1..][|s| - 1 - |r|..] == s[n..];
    forall k | 0 <= k < n
      ensures IsWhitespace(s[..n][k])
    {
      if k > 0 {
        assert s[..n][k] == s[1..][..n - 1][k - 1];
      }
    }
  }

  /** `trimEnd()`: drops the trailing whitespace and nothing else. */
  function TrimEnd(s: string): (r: string)
    ensures |r| <= |s| && r == s[..|r|]
    ensures AllWhitespace(s[|r|..])
    ensures r == [] || !IsWhitespace(r[|r| - 1])
  {
    if |s| > 0 && IsWhitespace(s[|s| - 1]) then
      var r := TrimEnd(s[..|s| - 1]);
      TrailingPadGrows(s, r);
      r
    else
      assert s[|s|..] == [];
      s
  }

  /** A prefix of `s[..|s| - 1]` before whitespace is a prefix of `s` before whitespace when `s` ends in whitespace. */
  lemma TrailingPadGrows(s: string, r: string)
    requires |s| > 0 && IsWhitespace(s[|s| - 1])
    requires |r| <= |s| - 1 && r == s[..|s| - 1][..|r|] && AllWhitespace(s[..|s| - 1][|r|..])
    ensures r == s[..|r|] && AllWhitespace(s[|r|..])
  {
    assert s[..|s| - 1][..|r|] == s[..|r|];
    forall k | 0 <= k < |s| - |r|
      ensures IsWhitespace(s[|r|..][k])
    {
      if k < |s| - 1 - |r| {
        assert s[|r|..][k] == s[..|s| - 1][|r|..][k];
      }
    }
  }

  /** `trim()`: `trimStart` then `trimEnd`; neither end of the result is whitespace. */
  function Trim(s: string): (r: string)
    ensures Trimmed(r)
    ensures |r| <= |s|
  {
    TrimEnd(TrimStart(s))
  }

  lemma {:induction false} AllWhitespaceTrimsToEmpty(s: string)
    requires AllWhitespace(s)
    ensures TrimStart(s) == [] && TrimEnd(s) == [] && Trim(s) == []
  {
  }

  /** Leading whitespace does not change `trimStart`. */
  lemma {:induction false} TrimStartSkipsPad(a: string, t: string)
    requires AllWhitespace(a)
    ensures TrimStart(a + t) == TrimStart(t)
  {
    if a != [] {
      var s := a + t;
      assert s[0] == a[0] && IsWhitespace(s[0]);
      assert s[1..] == a[1..] + t;
      assert TrimStart(s) == TrimStart(s[1..]);
      TrimStartSkipsPad(a[1..], t);
    } else {
      assert a + t == t;
    }
  }

  /** Trailing whitespace does not change `trimEnd`. */
  lemma {:induction false} TrimEndSkipsPad(t: string, b: string)
    requires AllWhitespace(b)
    ensures TrimEnd(t + b) == TrimEnd(t)
  {
    if b != [] {
      var b' := b[..|b| - 1];
      var s := t + b;
      assert s[|s| - 1] == b[|b| - 1] && IsWhitespace(s[|s| - 1]);
      assert s[..|s| - 1] == t + b';
      assert TrimEnd(s) == TrimEnd(s[..|s| - 1]);
      TrimEndSkipsPad(t, b');
    } else {
      assert t + b == t;
    }
  }

  /** Once a non-whitespace character has been reached, `trimStart` keeps the rest untouched. */
  lemma {:induction false} TrimStartKeepsTail(t: string, b: string)
    requires !AllWhitespace(t)
    ensures TrimStart(t + b) == TrimStart(t) + b
  {
    if IsWhitespace(t[0]) {
      assert (t + b)[1..] == t[1..] + b;
      assert !AllWhitespace(t[1..]) by {
        var k :| 0 <= k < |t| && !IsWhitespace(t[k]);
        assert t[1..][k - 1] == t[k];
      }
      TrimStartKeepsTail(t[1..], b);
    }
  }

  /** Whitespace padding on either side does not change what `trim` returns. */
  lemma TrimIgnoresPadding(a: string, s: string, b: string)
    requires AllWhitespace(a) && AllWhitespace(b)
    ensures Trim(a + s + b) == Trim(s)
  {
    LeadPadIgnored(a, s, b);
    TrailPadIgnored(s, b);
  }

  lemma LeadPadIgnored(a: string, s: string, b: string)
    requires AllWhitespace(a)
    ensures TrimStart(a + s + b) == TrimStart(s + b)
  {
    AppendAssoc(a, s, b);
    TrimStartSkipsPad(a, s + b);
  }

  lemma AppendAssoc<T>(a: seq<T>, b: seq<T>, c: seq<T>)
    ensures a + b + c == a + (b + c)
  {
  }

  lemma TrailPadIgnored(s: string, b: string)
    requires AllWhitespace(b)
    ensures TrimEnd(TrimStart(s + b)) == TrimEnd(TrimStart(s))
  {
    if AllWhitespace(s) {
      assert AllWhitespace(s + b);
      AllWhitespaceTrimsToEmpty(s + b);
      AllWhitespaceTrimsToEmpty(s);
    } else {
      TrimStartKeepsTail(s, b);
      TrimEndSkipsPad(TrimStart(s), b);
    }
  }

  /** A string with no whitespace at either end is its own `trim`; in particular `trim` is idempotent. */
  lemma TrimmedIsFixed(s: string)
    requires Trimmed(s)
    ensures Trim(s) == s
  {
  }

  /** `trim` removes exactly the whitespace padding around a string that is itself trimmed. */
  lemma TrimOfPadded(a: string, core: string, b: string)
    requires AllWhitespace(a) && AllWhitespace(b) && Trimmed(core)
    ensures Trim(a + core + b) == core
  {
    TrimIgnoresPadding(a, core, b);
    TrimmedIsFixed(core);
  }

  lemma TrimIdempotent(s: string)
    ensures Trim(Trim(s)) == Trim(s)
  {
    TrimmedIsFixed(Trim(s));
  }

  predicate StartsWith(s: string, prefix: string) {
    |prefix| <= |s| && s[..|prefix|] == prefix
  }

  predicate EndsWith(s: string, suffix: string) {
    |suffix| <= |s| && s[|s| - |suffix|..] == suffix
  }

  /** `removePrefix(prefix)`: the rest after `prefix` when `s` starts with it, otherwise `s` itself. */
  function RemovePrefix(s: string, prefix: string): (r: string)
    ensures StartsWith(s, prefix) ==> prefix + r == s
    ensures !StartsWith(s, prefix) ==> r == s
  {
    if StartsWith(s, prefix) then s[|prefix|..] else s
  }

  /** `removeSuffix(suffix)`: what precedes `suffix` when `s` ends with it, otherwise `s` itself. */
  function RemoveSuffix(s: string, suffix: string): (r: string)
    ensures EndsWith(s, suffix) ==> r + suffix == s
    ensures !EndsWith(s, suffix) ==> r == s
  {
    if EndsWith(s, suffix) then s[..|s| - |suffix|] else s
  }

  lemma RemovePrefixOfConcat(prefix: string, rest: string)
    ensures RemovePrefix(prefix + rest, prefix) == rest
  {
    assert (prefix + rest)[..|prefix|] == prefix;
  }

  lemma RemoveSuffixOfConcat(rest: string, suffix: string)
    ensures RemoveSuffix(rest + suffix, suffix) == rest
  {
    var s := rest + suffix;
    assert s[|s| - |suffix|..] == suffix;
  }

  /** `joinToString(separator)`: the parts in order with `separator` between neighbours. */
  function JoinToString(parts: seq<string>, separator: string): (r: string)
    ensures parts == [] ==> r == []
    ensures |parts| == 1 ==> r == parts[0]
  {
    if parts == [] then []
    else if |parts| == 1 then parts[0]
    else parts[0] + separator + JoinToString(parts[1..], separator)
  }

  /** `split(c)`: the maximal pieces between occurrences of `c`; always at least one piece. */
  function Split(s: string, c: char): (r: seq<string>)
    ensures |r| > 0
  {
    if s == [] then [[]]
    else
      var rest := Split(s[1..], c);
      if s[0] == c then [[]] + rest else [[s[0]] + rest[0]] + rest[1..]
  }

  lemma {:induction false} SplitNoSeparator(a: string, c: char)
    requires c !in a
    ensures Split(a, c) == [a]
  {
    if a != [] {
      assert c !in a[1..] by { assert forall k :: 0 <= k < |a| - 1 ==> a[1..][k] == a[k + 1]; }
      SplitNoSeparator(a[1..], c);
      assert [a[0]] + a[1..] == a;
    }
  }

  lemma {:induction false} SplitAtFirstSeparator(a: string, c: char, b: string)
    requires c !in a
    ensures Split(a + [c] + b, c) == [a] + Split(b, c)
  {
    if a == [] {
      assert a + [c] + b == [c] + b;
      assert ([c] + b)[1..] == b;
    } else {
      assert (a + [c] + b)[1..] == a[1..] + [c] + b;
      assert c !in a[1..] by { assert forall k :: 0 <= k < |a| - 1 ==> a[1..][k] == a[k + 1]; }
      SplitAtFirstSeparator(a[1..], c, b);
      assert [a[0]] + a[1..] == a;
    }
  }

  /** Joining pieces that do not contain `c` with `c` and splitting on `c` gives the pieces back. */
  lemma {:induction false} SplitJoinRoundTrip(parts: seq<string>, c: char)
    requires |parts| > 0
    requires forall i :: 0 <= i < |parts| ==> c !in parts[i]
    ensures Split(JoinToString(parts, [c]), c) == parts
  {
    if |parts| == 1 {
      SplitNoSeparator(parts[0], c);
    } else {
      SplitJoinRoundTrip(parts[1..], c);
      SplitAtFirstSeparator(parts[0], c, JoinToString(parts[1..], [c]));
    }
  }

  // ---------------------------------------------------------------------------------------------
  // `trimIndent()`, which the services apply to their raw-string prompt templates.
  // ---------------------------------------------------------------------------------------------

  /** No line break character: Kotlin's `lines()` splits at "\r\n", "\n" and "\r". */
  predicate NoBreak(s: string) {
    '\n' !in s && '\r' !in s
  }

  lemma NoBreakConcat(a: string, b: string)
    requires NoBreak(a) && NoBreak(b)
    ensures NoBreak(a + b)
  {
    assert forall c :: c in a + b ==> c in a || c in b;
  }

  /** `lines()`: the pieces between line breaks ("\r\n" counts as one); always at least one piece. */
  function Lines(s: string): (r: seq<string>)
    ensures |r| > 0
  {
    if s == [] then [[]]
    else if s[0] == '\r' && |s| > 1 && s[1] == '\n' then [[]] + Lines(s[2..])
    else if s[0] == '\n' || s[0] == '\r' then [[]] + Lines(s[1..])
    else
      var rest := Lines(s[1..]);
      [[s[0]] + rest[0]] + rest[1..]
  }

  /** `isBlank()`: empty or whitespace only. */
  predicate IsBlank(s: string) { AllWhitespace(s) }

  /** `indentWidth()`: the number of leading whitespace characters. */
  function IndentWidth(s: string): (r: nat)
    ensures r <= |s| && AllWhitespace(s[..r])
    ensures r < |s| ==> !IsWhitespace(s[r])
  {
    if s == [] || !IsWhitespace(s[0]) then 0 else 1 + IndentWidth(s[1..])
  }

  /** The smallest indent width among the non-blank lines; absent when every line is blank. */
  function MinIndent(lines: seq<string>): (r: Option<nat>)
    ensures r.None? <==> forall i :: 0 <= i < |lines| ==> IsBlank(lines[i])
    ensures r.Some? ==> forall i :: 0 <= i < |lines| && !IsBlank(lines[i]) ==> r.value <= IndentWidth(lines[i])
    ensures r.Some? ==> exists i :: 0 <= i < |lines| && !IsBlank(lines[i]) && r.value == IndentWidth(lines[i])
  {
    if lines == [] then None
    else
      var rest := MinIndent(lines[1..]);
      assert forall i :: 1 <= i < |lines| ==> lines[i] == lines[1..][i - 1];
      assert rest.Some? ==> exists i :: 0 <= i < |lines| && !IsBlank(lines[i]) && rest.value == IndentWidth(lines[i]) by {
        if rest.Some? {
          var i :| 0 <= i < |lines[1..]| && !IsBlank(lines[1..][i]) && rest.value == IndentWidth(lines[1..][i]);
          assert lines[i + 1] == lines[1..][i];
        }
      }
      if IsBlank(lines[0]) then rest
      else
        var w := IndentWidth(lines[0]);
        match rest
        case None => Some(w)
        case Some(k) => Some(if w <= k then w else k)
  }

  /** `drop(n)`. */
  function Drop(s: string, n: nat): (r: string)
    ensures r == s[if n <= |s| then n else |s|..]
  {
    if n <= |s| then s[n..] else []
  }

  /**
   * `reindent`: drops the first and the last line when they are blank and cuts `n` characters
   * from the front of every other line.
   */
  function Reindent(lines: seq<string>, n: nat): (r: seq<string>)
    requires |lines| > 0
  {
    var lo := if IsBlank(lines[0]) then 1 else 0;
    var hi := if |lines| - 1 >= lo && IsBlank(lines[|lines| - 1]) then |lines| - 1 else |lines|;
    seq(hi - lo, i requires 0 <= i < hi - lo => Drop(lines[lo + i], n))
  }

  /** `trimIndent()`: removes the common minimal indent of the non-blank lines, and blank first and last lines. */
  function TrimIndent(s: string): string {
    var lines := Lines(s);
    JoinToString(Reindent(lines, MinIndent(lines).GetOr(0)), "\n")
  }

  /** `"""` + newline, then each template line behind `indent`, then the closing line: a raw-string template. */
  function RawTemplate(lines: seq<string>, indent: string, closing: string): string {
    JoinToString([[]] + Indented(lines, indent) + [closing], "\n")
  }

  function Indented(lines: seq<string>, indent: string): (r: seq<string>)
    ensures |r| == |lines| && forall i :: 0 <= i < |lines| ==> r[i] == indent + lines[i]
  {
    seq(|lines|, i requires 0 <= i < |lines| => indent + lines[i])
  }

  lemma {:induction false} LinesNoBreak(a: string)
    requires NoBreak(a)
    ensures Lines(a) == [a]
  {
    if a != [] {
      assert NoBreak(a[1..]) by { assert forall k :: 0 <= k < |a| - 1 ==> a[1..][k] == a[k + 1]; }
      LinesNoBreak(a[1..]);
      assert [a[0]] + a[1..] == a;
    }
  }

  /** A line without breaks followed by "\n": the first piece is that line. */
  lemma {:induction false} LinesCons(a: string, rest: string)
    requires NoBreak(a)
    ensures Lines(a + "\n" + rest) == [a] + Lines(rest)
  {
    if a == [] {
      assert a + "\n" + rest == "\n" + rest;
      assert ("\n" + rest)[1..] == rest;
    } else {
      assert (a + "\n" + rest)[1..] == a[1..] + "\n" + rest;
      assert NoBreak(a[1..]) by { assert forall k :: 0 <= k < |a| - 1 ==> a[1..][k] == a[k + 1]; }
      LinesCons(a[1..], rest);
      assert [a[0]] + a[1..] == a;
    }
  }

  /** Joining break-free lines with "\n" and splitting with `lines()` gives the lines back. */
  lemma {:induction false} LinesOfJoin(lines: seq<string>)
    requires |lines| > 0 && forall i :: 0 <= i < |lines| ==> NoBreak(lines[i])
    ensures Lines(JoinToString(lines, "\n")) == lines
  {
    if |lines| == 1 {
      LinesNoBreak(lines[0]);
    } else {
      LinesOfJoin(lines[1..]);
      LinesCons(lines[0], JoinToString(lines[1..], "\n"));
    }
  }

  /** When a string starts with an ordinary character, its first line starts with it too. */
  lemma LinesHead(s: string)
    requires |s| > 0 && s[0] != '\n' && s[0] != '\r'
    ensures |Lines(s)[0]| > 0 && Lines(s)[0][0] == s[0]
  {
  }

  lemma {:induction false} IndentWidthBehind(indent: string, s: string)
    requires AllWhitespace(indent)
    ensures IndentWidth(indent + s) == |indent| + IndentWidth(s)
    ensures IsBlank(indent + s) <==> IsBlank(s)
  {
    if indent != [] {
      assert (indent + s)[0] == indent[0] && (indent + s)[1..] == indent[1..] + s;
      IndentWidthBehind(indent[1..], s);
    } else {
      assert indent + s == s;
    }
  }

  /** A joined list starts with its first element. */
  lemma JoinStartsWithFirst(parts: seq<string>, separator: string)
    requires |parts| > 0
    ensures StartsWith(JoinToString(parts, separator), parts[0])
  {
  }

  /** The pieces of a raw template are its blank opening line, the indented lines and the closing line. */
  lemma TemplateLines(lines: seq<string>, indent: string, closing: string)
    requires forall i :: 0 <= i < |lines| ==> NoBreak(lines[i])
    requires NoBreak(indent) && NoBreak(closing)
    ensures Lines(RawTemplate(lines, indent, closing)) == [[]] + Indented(lines, indent) + [closing]
  {
    var all := [[]] + Indented(lines, indent) + [closing];
    forall i | 0 <= i < |all| ensures NoBreak(all[i]) {
      if 1 <= i <= |lines| {
        assert all[i] == indent + lines[i - 1];
        assert forall c :: c in indent + lines[i - 1] ==> c in indent || c in lines[i - 1];
      }
    }
    LinesOfJoin(all);
  }

  /** The least indent is `n` when no non-blank line is indented less and one is indented exactly `n`. */
  lemma MinIndentIs(lines: seq<string>, n: nat, j: nat)
    requires forall i :: 0 <= i < |lines| && !IsBlank(lines[i]) ==> n <= IndentWidth(lines[i])
    requires j < |lines| && !IsBlank(lines[j]) && IndentWidth(lines[j]) == n
    ensures MinIndent(lines) == Some(n)
  {
    var m := MinIndent(lines);
    assert m.Some? by { assert !IsBlank(lines[j]); }
    assert m.value <= n by { assert m.value <= IndentWidth(lines[j]); }
    var i :| 0 <= i < |lines| && !IsBlank(lines[i]) && m.value == IndentWidth(lines[i]);
    assert n <= IndentWidth(lines[i]);
    assert m.value == n;
    assert m == Some(m.value);
  }

  /** Behind a whitespace `indent`, the least indent of the non-blank template lines is the indent itself. */
  lemma TemplateMinIndent(lines: seq<string>, indent: string, closing: string, k: nat)
    requires AllWhitespace(indent) && AllWhitespace(closing)
    requires k < |lines| && !IsBlank(lines[k]) && IndentWidth(lines[k]) == 0
    ensures MinIndent([[]] + Indented(lines, indent) + [closing]) == Some(|indent|)
  {
    var ind := Indented(lines, indent);
    var all := [[]] + ind + [closing];
    forall i | 0 <= i < |all| && !IsBlank(all[i]) ensures |indent| <= IndentWidth(all[i]) {
      assert 1 <= i <= |lines|;
      assert all[i] == indent + lines[i - 1];
      IndentWidthBehind(indent, lines[i - 1]);
    }
    assert all[k + 1] == indent + lines[k];
    IndentWidthBehind(indent, lines[k]);
    MinIndentIs(all, |indent|, k + 1);
  }

  /** Cutting `|indent|` characters from the template's pieces gives back the template lines. */
  lemma TemplateReindent(lines: seq<string>, indent: string, closing: string)
    requires AllWhitespace(closing)
    ensures Reindent([[]] + Indented(lines, indent) + [closing], |indent|) == lines
  {
    var all := [[]] + Indented(lines, indent) + [closing];
    var r := Reindent(all, |indent|);
    assert IsBlank(all[0]) && IsBlank(all[|all| - 1]);
    assert |r| == |lines|;
    forall i | 0 <= i < |lines| ensures r[i] == lines[i] {
      assert r[i] == Drop(all[1 + i], |indent|);
      assert all[1 + i] == indent + lines[i];
      assert (indent + lines[i])[|indent|..] == lines[i];
    }
  }

  /**
   * A template whose lines hold no line break and whose least indented non-blank line starts
   * at column 0 loses exactly the `indent` in front of each line.
   */
  lemma TrimIndentOfTemplate(lines: seq<string>, indent: string, closing: string, k: nat)
    requires forall i :: 0 <= i < |lines| ==> NoBreak(lines[i])
    requires NoBreak(indent) && AllWhitespace(indent) && AllWhitespace(closing) && NoBreak(closing)
    requires k < |lines| && !IsBlank(lines[k]) && IndentWidth(lines[k]) == 0
    ensures TrimIndent(RawTemplate(lines, indent, closing)) == JoinToString(lines, "\n")
  {
    TemplateLines(lines, indent, closing);
    TemplateMinIndent(lines, indent, closing, k);
    TemplateReindent(lines, indent, closing);
  }

  /** A first line starts with every break-free prefix of the text. */
  lemma {:induction false} LinesHeadPrefix(s: string, prefix: string)
    requires NoBreak(prefix) && StartsWith(s, prefix)
    ensures StartsWith(Lines(s)[0], prefix)
  {
    if prefix != [] {
      assert s[0] == prefix[0];
      assert NoBreak(prefix[1..]) by { assert forall k :: 0 <= k < |prefix| - 1 ==> prefix[1..][k] == prefix[k + 1]; }
      assert StartsWith(s[1..], prefix[1..]);
      LinesHeadPrefix(s[1..], prefix[1..]);
    }
  }

  /** A "\n" followed by an ordinary character starts a line (other than the first) with that character. */
  lemma {:induction false} LinesAfterBreak(s: string, i: nat) returns (j: nat)
    requires i + 1 < |s| && s[i] == '\n' && s[i + 1] != '\n' && s[i + 1] != '\r'
    ensures 1 <= j < |Lines(s)| && |Lines(s)[j]| > 0 && Lines(s)[j][0] == s[i + 1]
  {
    if s[0] == '\r' && |s| > 1 && s[1] == '\n' {
      assert Lines(s) == [[]] + Lines(s[2..]);
      if i <= 1 {
        LinesHead(s[2..]);
        j := 1;
      } else {
        assert s[2..][i - 2] == s[i] && s[2..][i - 1] == s[i + 1];
        var j' := LinesAfterBreak(s[2..], i - 2);
        j := j' + 1;
      }
    } else if s[0] == '\n' || s[0] == '\r' {
      assert Lines(s) == [[]] + Lines(s[1..]);
      if i == 0 {
        LinesHead(s[1..]);
        j := 1;
      } else {
        assert s[1..][i - 1] == s[i] && s[1..][i] == s[i + 1];
        var j' := LinesAfterBreak(s[1..], i - 1);
        j := j' + 1;
      }
    } else {
      var rest := Lines(s[1..]);
      assert Lines(s) == [[s[0]] + rest[0]] + rest[1..];
      assert s[1..][i - 1] == s[i] && s[1..][i] == s[i + 1];
      j := LinesAfterBreak(s[1..], i - 1);
      assert Lines(s)[j] == rest[j];
    }
  }

  /** With a blank first line and a non-blank line after it, the first line kept is the second one. */
  lemma ReindentHead(lines: seq<string>, j: nat, n: nat)
    requires 1 <= j < |lines| && IsBlank(lines[0]) && !IsBlank(lines[j])
    ensures |Reindent(lines, n)| > 0 && Reindent(lines, n)[0] == Drop(lines[1], n)
  {
    var r := Reindent(lines, n);
    if IsBlank(lines[|lines| - 1]) {
      assert j != |lines| - 1;
      assert |r| == |lines| - 2;
    } else {
      assert |r| == |lines| - 1;
    }
  }

  /**
   * A text that opens with a line break and whose lines include one starting at column 0 has a
   * common indent of 0, so `trimIndent()` leaves its second line, indentation and all, in front.
   */
  lemma TrimIndentKeepsFirstLine(s: string, lead: string, i: nat)
    requires |s| > 0 && s[0] == '\n' && NoBreak(lead) && StartsWith(s[1..], lead)
    requires i + 1 < |s| && s[i] == '\n' && s[i + 1] != '\n' && s[i + 1] != '\r' && !IsWhitespace(s[i + 1])
    ensures StartsWith(TrimIndent(s), lead)
  {
    var lines := Lines(s);
    assert lines == [[]] + Lines(s[1..]);
    LinesHeadPrefix(s[1..], lead);
    var j := LinesAfterBreak(s, i);
    assert !IsBlank(lines[j]) && IndentWidth(lines[j]) == 0;
    MinIndentIs(lines, 0, j);
    var r := Reindent(lines, 0);
    ReindentHead(lines, j, 0);
    JoinStartsWithFirst(r, "\n");
    assert StartsWith(r[0], lead);
  }

  /** The first two template lines of a raw template, each behind the indent, and what follows them. */
  lemma RawTemplateLayout(lines: seq<string>, indent: string, closing: string) returns (c: string)
    requires |lines| >= 2
    ensures RawTemplate(lines, indent, closing) == "\n" + ((indent + lines[0]) + "\n" + ((indent + lines[1]) + "\n" + c))
    ensures |lines| >= 3 ==> '\n' in c
  {
    var all := [[]] + Indented(lines, indent) + [closing];
    var a := indent + lines[0];
    var b := indent + lines[1];
    c := JoinToString(all[3..], "\n");
    assert all[1] == a && all[2] == b;
    assert all[1..][1..] == all[2..] && all[2..][1..] == all[3..];
    assert JoinToString(all[2..], "\n") == b + "\n" + c;
    assert JoinToString(all[1..], "\n") == a + "\n" + (b + "\n" + c);
    if |lines| >= 3 {
      assert c == all[3] + "\n" + JoinToString(all[3..][1..], "\n");
      assert c[|all[3]|] == '\n';
    }
  }

  /**
   * A raw template whose second line carries a line break followed by a character at column 0
   * keeps its indent in front of the first line after `trimIndent()`.
   */
  lemma TemplateKeepsIndent(lines: seq<string>, indent: string, closing: string, k: nat)
    requires |lines| >= 2 && NoBreak(indent)
    requires |lines[0]| > 0 && lines[0][0] != '\n' && lines[0][0] != '\r'
    requires k + 1 < |lines[1]| && lines[1][k] == '\n'
    requires lines[1][k + 1] != '\n' && lines[1][k + 1] != '\r' && !IsWhitespace(lines[1][k + 1])
    ensures StartsWith(TrimIndent(RawTemplate(lines, indent, closing)), indent + [lines[0][0]])
  {
    var a := indent + lines[0];
    var b := indent + lines[1];
    var c := RawTemplateLayout(lines, indent, closing);
    var s := RawTemplate(lines, indent, closing);
    var lead := indent + [lines[0][0]];
    assert StartsWith(s[1..], lead) by {
      assert s[1..] == a + ("\n" + (b + "\n" + c));
      assert a[..|lead|] == lead;
    }
    var i := 1 + |a| + 1 + |indent| + k;
    assert s[i] == lines[1][k] && s[i + 1] == lines[1][k + 1] by {
      assert s[1 + |a| + 1..][..|b|] == b;
    }
    assert NoBreak(lead) by {
      NoBreakConcat(indent, [lines[0][0]]);
    }
    TrimIndentKeepsFirstLine(s, lead, i);
  }

  /** Joining a + b is joining a, the separator, then joining b. */
  lemma {:induction false} JoinAppend(a: seq<string>, b: seq<string>, separator: string)
    requires |a| > 0 && |b| > 0
    ensures JoinToString(a + b, separator) == JoinToString(a, separator) + separator + JoinToString(b, separator)
  {
    if |a| == 1 {
      assert (a + b)[1..] == b;
    } else {
      assert (a + b)[1..] == a[1..] + b;
      JoinAppend(a[1..], b, separator);
    }
  }

  /** A character absent from every part and from the separator is absent from the join. */
  lemma {:induction false} JoinAvoids(parts: seq<string>, separator: string, c: char)
    requires c !in separator && forall i :: 0 <= i < |parts| ==> c !in parts[i]
    ensures c !in JoinToString(parts, separator)
  {
    if |parts| > 1 {
      JoinAvoids(parts[1..], separator, c);
    }
  }

  /** With no '\r' in p, the "\n" after it ends a line: the lines of p + "\n" + q are p's, then q's. */
  lemma {:induction false} LinesSplitAt(p: string, q: string)
    requires '\r' !in p
    ensures Lines(p + "\n" + q) == Lines(p) + Lines(q)
  {
    var s := p + "\n" + q;
    if p == [] {
      assert s[1..] == q;
    } else {
      assert s[0] == p[0] && s[1..] == p[1..] + "\n" + q;
      assert '\r' !in p[1..] by { assert forall k :: 0 <= k < |p| - 1 ==> p[1..][k] == p[k + 1]; }
      LinesSplitAt(p[1..], q);
      if p[0] != '\n' {
        var l, m := Lines(p[1..]), Lines(q);
        assert (l + m)[0] == l[0] && (l + m)[1..] == l[1..] + m;
      }
    }
  }

  /** Joining the lines of a text without '\r' with "\n" gives the text back. */
  lemma {:induction false} JoinLines(p: string)
    requires '\r' !in p
    ensures JoinToString(Lines(p), "\n") == p
  {
    if p != [] {
      assert '\r' !in p[1..] by { assert forall k :: 0 <= k < |p| - 1 ==> p[1..][k] == p[k + 1]; }
      JoinLines(p[1..]);
      var rest := Lines(p[1..]);
      if p[0] == '\n' {
        assert Lines(p)[1..] == rest;
      } else if |rest| > 1 {
        assert Lines(p)[1..] == rest[1..];
        assert JoinToString(rest, "\n") == rest[0] + "\n" + JoinToString(rest[1..], "\n");
      }
      assert p == [p[0]] + p[1..];
    }
  }

  /** A text holding "\n" has at least two lines. */
  lemma {:induction false} BreakMakesTwoLines(q: string)
    requires '\n' in q
    ensures |Lines(q)| >= 2
  {
    if q[0] != '\n' && q[0] != '\r' {
      var i :| 0 <= i < |q| && q[i] == '\n';
      assert q[1..][i - 1] == '\n';
      BreakMakesTwoLines(q[1..]);
    }
  }

  /** With a blank first line and no cut, `reindent` keeps the lines after it, up to a blank last line. */
  lemma ReindentOpen(lp: seq<string>, lq: seq<string>) returns (lq': seq<string>)
    requires |lq| >= 2
    ensures |lq'| > 0 && Reindent([[]] + lp + lq, 0) == lp + lq'
  {
    var lines := [[]] + lp + lq;
    lq' := if IsBlank(lq[|lq| - 1]) then lq[..|lq| - 1] else lq;
    var r := Reindent(lines, 0);
    assert IsBlank(lines[0]) && lines[|lines| - 1] == lq[|lq| - 1];
    assert |r| == |lp| + |lq'|;
    forall k | 0 <= k < |r| ensures r[k] == (lp + lq')[k] {
      assert r[k] == Drop(lines[1 + k], 0) == lines[1 + k][0..];
    }
  }

  /**
   * `trimIndent()` of a text that opens with a line break and has a non-blank line at column 0:
   * nothing is cut, so the text after the opening break comes out as it is, up to the last line.
   */
  lemma TrimIndentAtColumnZero(s: string, p: string, q: string, i: nat)
    requires s == "\n" + p + "\n" + q && '\r' !in p && '\n' in q
    requires i + 1 < |s| && s[i] == '\n' && s[i + 1] != '\n' && s[i + 1] != '\r' && !IsWhitespace(s[i + 1])
    ensures StartsWith(TrimIndent(s), p + "\n")
  {
    var lines := Lines(s);
    assert lines == [[]] + Lines(s[1..]);
    assert s[1..] == p + "\n" + q;
    LinesSplitAt(p, q);
    BreakMakesTwoLines(q);
    assert lines == [[]] + Lines(p) + Lines(q);
    var j := LinesAfterBreak(s, i);
    assert !IsBlank(lines[j]) && IndentWidth(lines[j]) == 0;
    MinIndentIs(lines, 0, j);
    var lq' := ReindentOpen(Lines(p), Lines(q));
    JoinAppend(Lines(p), lq', "\n");
    JoinLines(p);
    var t := TrimIndent(s);
    assert t == p + "\n" + JoinToString(lq', "\n");
    assert t[..|p + "\n"|] == p + "\n";
  }

  /**
   * A raw template of three or more lines whose second line carries a line break followed by a
   * character at column 0: `trimIndent()` cuts nothing, so the first two lines keep the indent.
   */
  lemma TemplateAtColumnZero(lines: seq<string>, indent: string, closing: string, k: nat)
    requires |lines| >= 3 && '\r' !in indent && '\r' !in lines[0] && '\r' !in lines[1]
    requires k + 1 < |lines[1]| && lines[1][k] == '\n'
    requires lines[1][k + 1] != '\n' && lines[1][k + 1] != '\r' && !IsWhitespace(lines[1][k + 1])
    ensures StartsWith(TrimIndent(RawTemplate(lines, indent, closing)), indent + lines[0] + "\n" + indent + lines[1] + "\n")
  {
    var a := indent + lines[0];
    var b := indent + lines[1];
    var c := RawTemplateLayout(lines, indent, closing);
    var s := RawTemplate(lines, indent, closing);
    var p := a + "\n" + b;
    assert s == "\n" + p + "\n" + c;
    var i := 1 + |a| + 1 + |indent| + k;
    assert s[i] == lines[1][k] && s[i + 1] == lines[1][k + 1] by {
      assert s[1 + |a| + 1..][..|b|] == b;
    }
    TrimIndentAtColumnZero(s, p, c, i);
  }
}
