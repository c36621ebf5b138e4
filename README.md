# Furigana generator: a Dafny model of its annotation policy

`furigana_generator.py` reads Japanese text and writes an HTML document.
In the document, each line of the text becomes a paragraph. Each word of
a line either appears as written or appears wrapped in a `<ruby>`
construct. The construct carries the word's reading in hiragana.

A word is left bare in these cases:
- it is written in katakana;
- its reading is empty or spells the word itself;
- all of its kanji belong to the chosen proficiency level (N5, or N4, which includes N5).

This project models the following and proves what they promise:
- the katakana-to-hiragana conversion;
- the katakana test;
- the two kanji tables and the cumulative level table;
- the "all kanji known" test;
- the loop over lines and tokens that assembles the document.

Modules:

- `Options`: `Option`, which stands for Python's `None` or a present value.
- `Kana`: `kata_to_hira` and `is_katakana`, with their character classes.
- `Kanji`: `N5_KANJI`, `N4_KANJI`, `KANJI_LEVELS` and `is_all_known_kanji`.
- `Markup`: string assembly (`''.join`, `'\n'.join`) and the ruby construct. It also holds two reference definitions that state what the output means:
  - `Split`, the inverse of joining on a line break;
  - `StripRuby`, the text a reader sees once the ruby glosses are removed.
- `RubyFormat`:
  - the per-token decision (`Annotate`);
  - the paragraphs and the document as functions;
  - `to_ruby_format`'s nested loops, as the method `ToRubyFormat`, which is proved to produce that document.
- `Scenarios`: one sentence worked through with a given tokenisation.

The morphological analyser is a parameter, `tokenize: string -> seq<Token>`.
Each `Token` holds a surface and a raw reading, which is usually katakana.
The lines of the input are given as a sequence of strings.

## Model

| member | source | states |
|---|---|---|
| Kana.ToHiragana | furigana_generator.py:18 | a character in ァ..ヴ (U+30A1..U+30F4) becomes the character 0x60 below it, which lies in ぁ..ゔ; any other character is unchanged; the result is never in the shifted range |
| Kana.KataToHira | furigana_generator.py:16-20 | the output has the input's length, and position by position it is the per-character conversion of the input |
| Kana.KataToHiraLeavesNoKatakana | furigana_generator.py:16-20 | no character of the output lies in ァ..ヴ |
| Kana.KataToHiraIdempotent | furigana_generator.py:16-20 | converting an already converted string changes nothing |
| Kana.ToHiraganaInjective | furigana_generator.py:18 | two distinct letters of ァ..ヴ never map to the same hiragana |
| Kana.KataToHiraAbsent | furigana_generator.py:16-20 | a character that is absent from the input and outside ぁ..ゔ is absent from the output (so '<' and line breaks are never introduced) |
| Kana.IsKatakana | furigana_generator.py:33-34 | true exactly when the string is non-empty and every character is in ァ..ヴ or is 'ー' or '・' |
| Kanji.KanjiLevel | furigana_generator.py:8-14 | the level table has an entry exactly for "N5" and "N4". The sets themselves come from the definition: `TableKanji` is the set of characters of each literal, and N5 maps to the N5 table while N4 maps to the union of both tables |
| Kanji.KanjiChars | furigana_generator.py:26 | the kanji-range characters of a word: never longer than the word, all in U+4E00..U+9FAF, and containing exactly the word's characters in that range |
| Kanji.AllIn | furigana_generator.py:31 | true exactly when every listed character is in the known set |
| Kanji.KanjiAllIn | furigana_generator.py:26-31 | `all(char in known for char in re.findall(...))`: true exactly when every character of the word in U+4E00..U+9FAF is in the given set |
| Kanji.IsAllKnownKanji | furigana_generator.py:22-31 | false without a level; false for a level name absent from the table; otherwise true exactly when every character of the word in U+4E00..U+9FAF is in that level's set |
| Kanji.LevelsCumulative | furigana_generator.py:11-14 | the N4 set contains the N5 set |
| Kanji.UnlistedLevelKnowsNothing | furigana_generator.py:27-29 | for any level name other than N5 and N4, no word is all-known |
| Kanji.WordWithoutKanjiIsKnown | furigana_generator.py:26-31 | a word without kanji is all-known at N5 and at N4 |
| Kanji.KnownAtN5IsKnownAtN4 | furigana_generator.py:11-14 | a word all-known at N5 is all-known at N4 |
| Markup.ConcatAppend | furigana_generator.py:63 | `Concat` (`''.join`) of two lists of parts is the concatenation of their joins |
| Markup.ConcatAbsent | furigana_generator.py:63 | a character is missing from a concatenation exactly when it is missing from every part |
| Markup.SplitJoin | furigana_generator.py:65 | `Join` is `sep.join`; joining one or more separator-free parts on a one-character separator and splitting again returns the parts |
| Markup.StripRubyTag | furigana_generator.py:59 | `RubyTag(base, text)` is the f-string `<ruby>base<rt>text</rt></ruby>`; removing the markup from it leaves `base`, when base and text hold no '<' |
| RubyFormat.Annotate | furigana_generator.py:48-61 | a token is copied verbatim when its surface is katakana, when its converted reading is empty or equals the surface, or when the surface is all-known at the level; otherwise the output is the ruby construct of the surface and the converted reading |
| RubyFormat.AnnotateAll | furigana_generator.py:47-61 | one output per token |
| RubyFormat.Paragraphs | furigana_generator.py:41-63 | one paragraph per input line, in order. Each is `Paragraph`: `<p></p>` for a line that `IsBlank` (every character `IsWhitespace`, as `not line.strip()`), otherwise `<p>`, then the concatenated token outputs, then `</p>` |
| RubyFormat.TagLine | furigana_generator.py:46-61 | the token loop, with its `continue`, builds exactly the outputs of the tokens in the analyser's order |
| RubyFormat.ToRubyFormat | furigana_generator.py:39-87 | the loop over lines yields `Document`: the fixed HTML head, then `Body` (the paragraphs joined by line breaks), then the fixed tail. A blank line gives `<p></p>`; any other line gives `<p>`, then its token outputs concatenated in order, then `</p>` |
| RubyFormat.AnnotateAllExtend | furigana_generator.py:46-61 | processing one more token appends exactly that token's output |
| RubyFormat.ParagraphsExtend | furigana_generator.py:41-63 | processing one more line appends exactly that line's paragraph |
| RubyFormat.KatakanaSurfaceVerbatim | furigana_generator.py:51-53 | a katakana surface is copied whatever its reading and the level |
| RubyFormat.KnownWordVerbatim | furigana_generator.py:55-57 | a surface all-known at the level is copied verbatim |
| RubyFormat.NothingToGlossVerbatim | furigana_generator.py:55-61 | a token whose converted reading is empty or equals its surface is copied verbatim |
| RubyFormat.NoLevelGlossesEveryReading | furigana_generator.py:51-59 | without a level, a non-katakana token whose converted reading is non-empty and differs from its surface is always glossed |
| RubyFormat.KnownAtN5UnglossedUpward | furigana_generator.py:51-61 | a token left bare at N5, for any of the four reasons (katakana surface, empty reading, reading equal to the surface, all kanji known), is left bare at N4 too |
| RubyFormat.UnglossedParagraph | furigana_generator.py:42-63 | when the tokens spell a non-blank line and none of them is glossed, the paragraph is `<p>` + the line + `</p>` |
| RubyFormat.AnnotateStripsToSurface | furigana_generator.py:51-61 | when the surface and the reading hold no '<', removing the ruby markup from a token's output gives back its surface |
| RubyFormat.StripRubyAnnotated | furigana_generator.py:46-63 | removing the ruby markup from a line's concatenated token outputs gives the concatenated surfaces |
| RubyFormat.ParagraphPlainText | furigana_generator.py:41-63 | the text content of a paragraph is its line when the tokens spell the line; a blank line's paragraph has no text |
| RubyFormat.ReannotationIdempotent | furigana_generator.py:41-63 | annotating the text content of a paragraph again, at the same level, reproduces the paragraph |
| RubyFormat.DocumentReannotationIdempotent | furigana_generator.py:41-87 | splitting a document's body into paragraphs, taking the text content of each and annotating those lines again at the same level reproduces the same `Document` |
| RubyFormat.AnnotateWithoutLineBreak | furigana_generator.py:51-61 | a token's output holds a line break only if its surface or reading does |
| RubyFormat.ParagraphWithoutLineBreak | furigana_generator.py:42-63 | when the tokens spell the line, a paragraph holds a line break only if its line or one of its readings does |
| RubyFormat.BodySplitsIntoParagraphs | furigana_generator.py:63-65 | for one or more lines, when no line or reading holds a line break and each line's tokens spell it, splitting the body at line breaks gives back exactly one paragraph per line, in order |
| Scenarios.SentenceTokenized | furigana_generator.py:47-48 | the example tokens spell the sentence 今日は学校に行きます |
| Scenarios.SentenceReadings | furigana_generator.py:16-20 | the example readings convert to きょう, は, がっこう, に, いき, ます |
| Scenarios.SentenceOutputsWithoutLevel | furigana_generator.py:51-61 | without a level, 今日, 学校 and 行き are glossed and the kana tokens are copied |
| Scenarios.SentenceWithoutLevel | furigana_generator.py:42-63 | the sentence's paragraph without a level, written out |

## Left out

- The morphological analyser (sudachipy, its dictionary and split mode C) is a parameter `tokenize`. The model does not restate which tokens it produces.
- `str.splitlines` is left out: the input is given already split into lines. `str.strip` is modelled as "every character is whitespace" by Python's `str.isspace`.
- The regular expressions are modelled as the character classes they denote: `[一-龯]`, and `[ァ-ヴー・]+` as a full match.
- `main`, argument parsing, reading and writing files, the "File not found" message and the success message are not modelled. They are I/O.
- The HTML head and tail are constants copied from the source. No property is stated about them beyond their place around the body.
- Kanji.KanjiLevel: the tables are the sets of characters of the two literals. No lemma decides whether one particular character is in a table, because indexing into either literal (80 and 301 characters) is beyond what the solver does cheaply. The sentence scenario is therefore stated without a level only.
- Proficiency levels N3 to N1 do not exist in the code. Any level name other than N5 and N4 makes every word unknown, and the model follows the code in this.
- RubyFormat.AnnotateStripsToSurface, RubyFormat.ParagraphPlainText, RubyFormat.ReannotationIdempotent and RubyFormat.StripRubyAnnotated hold only when surfaces and readings contain no '<'. The source does not escape HTML, so a '<' in the text would be read as markup.
- RubyFormat.BodySplitsIntoParagraphs and RubyFormat.ParagraphWithoutLineBreak hold only when lines and readings contain no line break, and when each line's tokens spell the line. RubyFormat.BodySplitsIntoParagraphs also needs at least one line: the body of no lines is empty, and splitting it yields one empty piece, as Python's `str.split` does.
- RubyFormat.ReannotationIdempotent also needs the analyser to spell each line with its tokens.
- RubyFormat.DocumentReannotationIdempotent needs all of the above for every line: its tokens spell the line, and neither the line nor any reading holds '<' or a line break.
- RubyFormat.DocumentReannotationIdempotent re-annotates the sequence of lines recovered from the body, not a joined text passed again through `str.splitlines`. In the program, the document-level round trip fails for a text whose last line is blank, because `splitlines` drops a trailing empty line. For example, `"a\n "` gives `<p>a</p>\n<p></p>`, whose text content `"a\n"` splits into the single line `"a"`; and `" "` gives `<p></p>`, whose text content is empty. The empty document is excluded (`|lines| > 0`), because `Split` of the empty body yields one empty piece rather than no lines.
