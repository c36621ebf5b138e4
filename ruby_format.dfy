/**
  `to_ruby_format`: every input line becomes one HTML paragraph in which each
  token of the line is either copied as it is or wrapped in a `<ruby>`
  construct that carries its hiragana reading; the paragraphs, joined by
  line breaks, are placed in a fixed HTML document.

  The morphological analyser is not modelled: it is the parameter
  `tokenize`, which maps a line to its tokens in order, each token holding
  its surface text and its reading as the analyser spells it (katakana).
 */
module RubyFormat {

  import opened Options
  import opened Kana
  import opened Kanji
  import opened Markup

  /** A token as the analyser returns it: `surface()` and `reading_form()`. */
  datatype Token = Token(surface: string, reading: string)

  const ParagraphOpen := "<p>"
  const ParagraphClose := "</p>"
  const EmptyParagraph := "<p></p>"
  const LineBreak := "\n"

  /** The fixed document text before the paragraphs. */
  const HtmlHead := "<!DOCTYPE html>\n<html lang=\"ja\">\n<head>\n  <meta charset=\"UTF-8\">\n  <title>Furigana Output</title>\n  <style>\n    body {\n      font-family: \"Yu Gothic\", sans-serif;\n      font-size: 14pt;\n      line-height: 1.7;\n      margin: 2cm;\n    }\n    ruby rt {\n      font-size: 60%;\n    }\n  </style>\n</head>\n<body>\n"

  /** The fixed document text after the paragraphs. */
  const HtmlTail := "\n</body>\n</html>"

  /** Python's `str.isspace` for one character. */
  predicate IsWhitespace(c: char) {
    || '\t' <= c <= '\r'
    || '\U{1C}' <= c <= ' '
    || c == '\U{85}' || c == '\U{A0}' || c == '\U{1680}'
    || '\U{2000}' <= c <= '\U{200A}'
    || c == '\U{2028}' || c == '\U{2029}' || c == '\U{202F}' || c == '\U{205F}'
    || c == '\U{3000}'
  }

  /** `not line.strip()`: the line holds nothing but whitespace. */
  predicate IsBlank(line: string) {
    forall i :: 0 <= i < |line| ==> IsWhitespace(line[i])
  }

  /** A token is copied as it is, rather than glossed. */
  predicate PassesThrough(surface: string, reading: string, level: Option<string>) {
    || IsKatakana(surface)
    || reading == []
    || reading == surface
    || IsAllKnownKanji(surface, level)
  }

  /**
    The output for one token (source lines 48-61): the surface, or the
    surface glossed with its reading converted to hiragana.
   */
  function Annotate(t: Token, level: Option<string>): (out: string)
    ensures PassesThrough(t.surface, KataToHira(t.reading), level) ==> out == t.surface
    ensures !PassesThrough(t.surface, KataToHira(t.reading), level) ==>
      out == RubyTag(t.surface, KataToHira(t.reading))
  {
    var reading := KataToHira(t.reading);
    if IsKatakana(t.surface) then t.surface
    else if reading != [] && t.surface != reading then
      if IsAllKnownKanji(t.surface, level) then t.surface else RubyTag(t.surface, reading)
    else t.surface
  }

  /** The outputs of the tokens, in the analyser's order. */
  function AnnotateAll(tokens: seq<Token>, level: Option<string>): (outs: seq<string>)
    ensures |outs| == |tokens|
  {
    seq(|tokens|, i requires 0 <= i < |tokens| => Annotate(tokens[i], level))
  }

  function Surfaces(tokens: seq<Token>): (ss: seq<string>)
    ensures |ss| == |tokens|
  {
    seq(|tokens|, i requires 0 <= i < |tokens| => tokens[i].surface)
  }

  /** The paragraph made of one input line and the tokens of that line. */
  function Paragraph(line: string, tokens: seq<Token>, level: Option<string>): string {
    if IsBlank(line) then EmptyParagraph
    else ParagraphOpen + Concat(AnnotateAll(tokens, level)) + ParagraphClose
  }

  /** One paragraph per input line, in the order of the lines. */
  function Paragraphs(lines: seq<string>, tokenize: string -> seq<Token>, level: Option<string>): (ps: seq<string>)
    ensures |ps| == |lines|
  {
    seq(|lines|, i requires 0 <= i < |lines| => Paragraph(lines[i], tokenize(lines[i]), level))
  }

  /** `body_content`: the paragraphs joined by line breaks. */
  function Body(lines: seq<string>, tokenize: string -> seq<Token>, level: Option<string>): string {
    Join(Paragraphs(lines, tokenize, level), LineBreak)
  }

  /** The whole HTML document. */
  function Document(lines: seq<string>, tokenize: string -> seq<Token>, level: Option<string>): string {
    HtmlHead + Body(lines, tokenize, level) + HtmlTail
  }

  /** Annotating one more token appends its output. */
  lemma AnnotateAllExtend(tokens: seq<Token>, j: nat, level: Option<string>)
    requires j < |tokens|
    ensures AnnotateAll(tokens[..j + 1], level) == AnnotateAll(tokens[..j], level) + [Annotate(tokens[j], level)]
  {
  }

  /** One more line appends its paragraph. */
  lemma ParagraphsExtend(lines: seq<string>, i: nat, tokenize: string -> seq<Token>, level: Option<string>)
    requires i < |lines|
    ensures Paragraphs(lines[..i + 1], tokenize, level)
      == Paragraphs(lines[..i], tokenize, level) + [Paragraph(lines[i], tokenize(lines[i]), level)]
  {
    var longer := Paragraphs(lines[..i + 1], tokenize, level);
    var shorter := Paragraphs(lines[..i], tokenize, level);
    forall k | 0 <= k < i
      ensures longer[k] == shorter[k]
    {
      assert lines[..i + 1][k] == lines[..i][k];
    }
    assert lines[..i + 1][i] == lines[i];
  }

  /**
    The inner loop of `to_ruby_format`: the outputs of one line's tokens,
    appended to `tagged_line` in the analyser's order.
   */
  method TagLine(tokens: seq<Token>, level: Option<string>) returns (taggedLine: seq<string>)
    ensures taggedLine == AnnotateAll(tokens, level)
  {
    taggedLine := [];
    var j := 0;
    while j < |tokens|
      invariant 0 <= j <= |tokens|
      invariant taggedLine == AnnotateAll(tokens[..j], level)
    {
      AnnotateAllExtend(tokens, j, level);
      var surface := tokens[j].surface;
      var reading := KataToHira(tokens[j].reading);
      if IsKatakana(surface) {
        taggedLine := taggedLine + [surface];
        j := j + 1;
        continue;
      }
      if reading != [] && surface != reading {
        if IsAllKnownKanji(surface, level) {
          taggedLine := taggedLine + [surface];
        } else {
          taggedLine := taggedLine + [RubyTag(surface, reading)];
        }
      } else {
        taggedLine := taggedLine + [surface];
      }
      j := j + 1;
    }
    assert tokens[..j] == tokens;
  }

  /**
    `to_ruby_format` over lines already split: the loop over lines that
    appends to `output_lines`.
   */
  method ToRubyFormat(lines: seq<string>, tokenize: string -> seq<Token>, level: Option<string>)
    returns (html: string)
    ensures html == Document(lines, tokenize, level)
  {
    var outputLines: seq<string> := [];
    var i := 0;
    while i < |lines|
      invariant 0 <= i <= |lines|
      invariant outputLines == Paragraphs(lines[..i], tokenize, level)
    {
      ParagraphsExtend(lines, i, tokenize, level);
      var line := lines[i];
      if IsBlank(line) {
        outputLines := outputLines + [EmptyParagraph];
        i := i + 1;
        continue;
      }
      var taggedLine := TagLine(tokenize(line), level);
      outputLines := outputLines + [ParagraphOpen + Concat(taggedLine) + ParagraphClose];
      i := i + 1;
    }
    assert lines[..i] == lines;
    html := HtmlHead + Join(outputLines, LineBreak) + HtmlTail;
  }

  // ----- What the output means -----

  /** A katakana surface is copied verbatim whatever its reading and the level. */
  lemma KatakanaSurfaceVerbatim(t: Token, level: Option<string>)
    requires IsKatakana(t.surface)
    ensures Annotate(t, level) == t.surface
  {
  }

  /** A token whose kanji are all known at the level is copied verbatim. */
  lemma KnownWordVerbatim(t: Token, level: Option<string>)
    requires IsAllKnownKanji(t.surface, level)
    ensures Annotate(t, level) == t.surface
  {
  }

  /** A token whose reading is empty or spells its surface is copied verbatim. */
  lemma NothingToGlossVerbatim(t: Token, level: Option<string>)
    requires KataToHira(t.reading) == [] || KataToHira(t.reading) == t.surface
    ensures Annotate(t, level) == t.surface
  {
  }

  /** Without a level, every token that is not katakana and has a distinct reading is glossed. */
  lemma NoLevelGlossesEveryReading(t: Token)
    requires !IsKatakana(t.surface)
    requires KataToHira(t.reading) != [] && KataToHira(t.reading) != t.surface
    ensures Annotate(t, None) == RubyTag(t.surface, KataToHira(t.reading))
  {
  }

  /**
    A token left bare at N5, for whichever reason, is left bare at N4 too: a
    ruby construct is longer than its surface, so the N5 output passed the
    token through, and every reason for that carries over to N4.
   */
  lemma KnownAtN5UnglossedUpward(t: Token)
    requires Annotate(t, Some("N5")) == t.surface
    ensures Annotate(t, Some("N4")) == t.surface
  {
    assert |RubyTag(t.surface, KataToHira(t.reading))| > |t.surface|;
    if IsAllKnownKanji(t.surface, Some("N5")) {
      KnownAtN5IsKnownAtN4(t.surface);
    }
  }

  /** The surfaces of the tokens spell out the line. */
  predicate Tokenizes(tokens: seq<Token>, line: string) {
    Concat(Surfaces(tokens)) == line
  }

  /** No reading contains the character `c`. */
  predicate ReadingsAvoid(tokens: seq<Token>, c: char) {
    forall k :: 0 <= k < |tokens| ==> c !in tokens[k].reading
  }

  /** When no token of a non-blank line is glossed, its paragraph holds the line itself. */
  lemma UnglossedParagraph(line: string, tokens: seq<Token>, level: Option<string>)
    requires !IsBlank(line) && Tokenizes(tokens, line)
    requires forall k :: 0 <= k < |tokens| ==>
      PassesThrough(tokens[k].surface, KataToHira(tokens[k].reading), level)
    ensures Paragraph(line, tokens, level) == ParagraphOpen + line + ParagraphClose
  {
    assert AnnotateAll(tokens, level) == Surfaces(tokens);
  }

  /** Dropping the ruby markup of a token's output gives back its surface. */
  lemma AnnotateStripsToSurface(t: Token, level: Option<string>, rest: string)
    requires '<' !in t.surface && '<' !in t.reading
    ensures StripRuby(Annotate(t, level) + rest) == t.surface + StripRuby(rest)
  {
    var reading := KataToHira(t.reading);
    if PassesThrough(t.surface, reading, level) {
      StripRubyPlain(t.surface, rest);
    } else {
      KataToHiraAbsent(t.reading, '<');
      StripRubyTag(t.surface, reading, rest);
    }
  }

  /** Dropping the ruby markup of a line's tokens gives back the concatenated surfaces. */
  lemma {:induction false} StripRubyAnnotated(tokens: seq<Token>, level: Option<string>)
    requires forall k :: 0 <= k < |tokens| ==> '<' !in tokens[k].surface
    requires ReadingsAvoid(tokens, '<')
    ensures StripRuby(Concat(AnnotateAll(tokens, level))) == Concat(Surfaces(tokens))
  {
    if tokens != [] {
      var outs := AnnotateAll(tokens, level);
      assert outs[1..] == AnnotateAll(tokens[1..], level);
      assert Surfaces(tokens)[1..] == Surfaces(tokens[1..]);
      StripRubyAnnotated(tokens[1..], level);
      AnnotateStripsToSurface(tokens[0], level, Concat(outs[1..]));
    }
  }

  /**
    The text content of a paragraph: its `<p>` wrapper removed, then its ruby
    markup.
   */
  function PlainText(p: string): string {
    if |p| >= |ParagraphOpen| + |ParagraphClose| && StartsWith(p, ParagraphOpen)
      && p[|p| - |ParagraphClose|..] == ParagraphClose
    then StripRuby(p[|ParagraphOpen|..|p| - |ParagraphClose|])
    else StripRuby(p)
  }

  /** A non-blank line's paragraph reads as the line itself; a blank line's reads as nothing. */
  lemma ParagraphPlainText(line: string, tokens: seq<Token>, level: Option<string>)
    requires Tokenizes(tokens, line) && '<' !in line && ReadingsAvoid(tokens, '<')
    ensures PlainText(Paragraph(line, tokens, level)) == if IsBlank(line) then [] else line
  {
    var p := Paragraph(line, tokens, level);
    if IsBlank(line) {
      assert p[|ParagraphOpen|..|p| - |ParagraphClose|] == [];
    } else {
      var markup := Concat(AnnotateAll(tokens, level));
      assert p == ParagraphOpen + markup + ParagraphClose;
      assert p[..|ParagraphOpen|] == ParagraphOpen;
      assert p[|p| - |ParagraphClose|..] == ParagraphClose;
      assert p[|ParagraphOpen|..|p| - |ParagraphClose|] == markup;
      ConcatAbsent(Surfaces(tokens), '<');
      forall k | 0 <= k < |tokens|
        ensures '<' !in tokens[k].surface
      {
        assert tokens[k].surface == Surfaces(tokens)[k];
      }
      StripRubyAnnotated(tokens, level);
    }
  }

  /**
    Annotating the plain text of an annotated line again, at the same level,
    reproduces the same paragraph.
   */
  lemma ReannotationIdempotent(line: string, tokenize: string -> seq<Token>, level: Option<string>)
    requires Tokenizes(tokenize(line), line) && '<' !in line && ReadingsAvoid(tokenize(line), '<')
    ensures var p := Paragraph(line, tokenize(line), level);
            Paragraph(PlainText(p), tokenize(PlainText(p)), level) == p
  {
    ParagraphPlainText(line, tokenize(line), level);
  }

  /** A token's output contains a line break only if its surface or reading does. */
  lemma AnnotateWithoutLineBreak(t: Token, level: Option<string>)
    requires '\n' !in t.surface && '\n' !in t.reading
    ensures '\n' !in Annotate(t, level)
  {
    KataToHiraAbsent(t.reading, '\n');
    var reading := KataToHira(t.reading);
    assert RubyTag(t.surface, reading) == RubyOpen + t.surface + RtOpen + reading + RtClose + RubyClose;
  }

  /** A paragraph contains a line break only if its line or a reading does. */
  lemma ParagraphWithoutLineBreak(line: string, tokens: seq<Token>, level: Option<string>)
    requires Tokenizes(tokens, line) && '\n' !in line && ReadingsAvoid(tokens, '\n')
    ensures '\n' !in Paragraph(line, tokens, level)
  {
    if !IsBlank(line) {
      var outs := AnnotateAll(tokens, level);
      ConcatAbsent(Surfaces(tokens), '\n');
      forall k | 0 <= k < |outs|
        ensures '\n' !in outs[k]
      {
        assert tokens[k].surface == Surfaces(tokens)[k];
        AnnotateWithoutLineBreak(tokens[k], level);
      }
      ConcatAbsent(outs, '\n');
    }
  }

  /**
    When no line and no reading holds a line break, splitting the body at
    line breaks recovers exactly one paragraph per input line, in order.
   */
  lemma BodySplitsIntoParagraphs(lines: seq<string>, tokenize: string -> seq<Token>, level: Option<string>)
    requires |lines| > 0
    requires forall i :: 0 <= i < |lines| ==>
      Tokenizes(tokenize(lines[i]), lines[i]) && '\n' !in lines[i] && ReadingsAvoid(tokenize(lines[i]), '\n')
    ensures Split(Body(lines, tokenize, level), '\n') == Paragraphs(lines, tokenize, level)
  {
    var ps := Paragraphs(lines, tokenize, level);
    forall i | 0 <= i < |ps|
      ensures '\n' !in ps[i]
    {
      ParagraphWithoutLineBreak(lines[i], tokenize(lines[i]), level);
    }
    SplitJoin(ps, '\n');
  }

  /** The text content of each paragraph, in order. */
  function PlainTexts(ps: seq<string>): (texts: seq<string>)
    ensures |texts| == |ps|
  {
    seq(|ps|, i requires 0 <= i < |ps| => PlainText(ps[i]))
  }

  /**
    Re-annotating the whole document: split its body into paragraphs, take
    the text content of each and annotate those lines again at the same
    level; the same document comes out.
   */
  lemma DocumentReannotationIdempotent(lines: seq<string>, tokenize: string -> seq<Token>, level: Option<string>)
    requires |lines| > 0
    requires forall i :: 0 <= i < |lines| ==>
      Tokenizes(tokenize(lines[i]), lines[i]) && '\n' !in lines[i] && '<' !in lines[i]
    requires forall i :: 0 <= i < |lines| ==>
      ReadingsAvoid(tokenize(lines[i]), '\n') && ReadingsAvoid(tokenize(lines[i]), '<')
    ensures Document(PlainTexts(Split(Body(lines, tokenize, level), '\n')), tokenize, level)
      == Document(lines, tokenize, level)
  {
    BodySplitsIntoParagraphs(lines, tokenize, level);
    var ps := Paragraphs(lines, tokenize, level);
    var texts := PlainTexts(ps);
    forall i | 0 <= i < |lines|
      ensures Paragraph(texts[i], tokenize(texts[i]), level) == ps[i]
    {
      ReannotationIdempotent(lines[i], tokenize, level);
    }
    assert Paragraphs(texts, tokenize, level) == ps;
  }
}
