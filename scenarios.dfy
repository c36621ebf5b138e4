/**
  A worked sentence, 今日は学校に行きます, with one tokenisation an
  analyser may give for it (surface and katakana reading per token).
 */
module Scenarios {

  import opened Options
  import opened Kana
  import opened Markup
  import opened RubyFormat

  const Sentence := "今日は学校に行きます"

  const SentenceTokens := [
    Token("今日", "キョウ"), Token("は", "ハ"), Token("学校", "ガッコウ"),
    Token("に", "ニ"), Token("行き", "イキ"), Token("ます", "マス")
  ]

  /** The tokens spell out the sentence. */
  lemma SentenceTokenized()
    ensures Tokenizes(SentenceTokens, Sentence)
  {
    var ss := Surfaces(SentenceTokens);
    assert ss == ["今日", "は", "学校", "に", "行き", "ます"];
    assert ss[6..] == [];
    assert Concat(ss[5..]) == "ます";
    assert Concat(ss[4..]) == "行きます";
    assert Concat(ss[3..]) == "に行きます";
    assert Concat(ss[2..]) == "学校に行きます";
    assert Concat(ss[1..]) == "は学校に行きます";
    assert Concat(ss) == Sentence;
  }

  lemma SentenceNotBlank()
    ensures !IsBlank(Sentence)
  {
    assert !IsWhitespace(Sentence[0]);
  }

  /** The readings in hiragana; for the kana tokens they equal the surface. */
  lemma SentenceReadings()
    ensures KataToHira("キョウ") == "きょう"
    ensures KataToHira("ハ") == "は"
    ensures KataToHira("ガッコウ") == "がっこう"
    ensures KataToHira("ニ") == "に"
    ensures KataToHira("イキ") == "いき"
    ensures KataToHira("マス") == "ます"
  {
  }

  /** No surface of the sentence is katakana. */
  lemma SentenceSurfacesNotKatakana()
    ensures forall k :: 0 <= k < |SentenceTokens| ==> !IsKatakana(SentenceTokens[k].surface)
  {
    forall k | 0 <= k < |SentenceTokens|
      ensures !IsKatakana(SentenceTokens[k].surface)
    {
      assert !IsKatakanaChar(SentenceTokens[k].surface[0]);
    }
  }

  /** Per token, without a level. */
  lemma SentenceOutputsWithoutLevel()
    ensures AnnotateAll(SentenceTokens, None)
      == [RubyTag("今日", "きょう"), "は", RubyTag("学校", "がっこう"), "に", RubyTag("行き", "いき"), "ます"]
  {
    SentenceReadings();
    SentenceSurfacesNotKatakana();
    var ts := SentenceTokens;
    assert Annotate(ts[0], None) == RubyTag("今日", "きょう");
    assert Annotate(ts[1], None) == "は";
    assert Annotate(ts[2], None) == RubyTag("学校", "がっこう");
    assert Annotate(ts[3], None) == "に";
    assert Annotate(ts[4], None) == RubyTag("行き", "いき");
    assert Annotate(ts[5], None) == "ます";
  }

  /** Without a level, each kanji word carries its reading; the kana stay bare. */
  lemma SentenceWithoutLevel()
    ensures Paragraph(Sentence, SentenceTokens, None)
      == ParagraphOpen
         + Concat([RubyTag("今日", "きょう"), "は", RubyTag("学校", "がっこう"), "に", RubyTag("行き", "いき"), "ます"])
         + ParagraphClose
  {
    SentenceNotBlank();
    SentenceOutputsWithoutLevel();
  }
}
