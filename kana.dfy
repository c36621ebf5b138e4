/**
  Kana handling of the furigana generator: the katakana-to-hiragana shift
  applied to every token reading (`kata_to_hira`) and the test that a token
  surface is written entirely in katakana (`is_katakana`).
 */
module Kana {

  /** Code points of 'ァ' and 'ヴ', the ends of the range that is shifted. */
  const KatakanaFirst := 0x30A1
  const KatakanaLast := 0x30F4

  /** Distance from a katakana letter down to its hiragana counterpart. */
  const HiraganaOffset := 0x60

  /** 'ー', the prolonged sound mark, and '・', the middle dot. */
  const ProlongedSoundMark: char := '\U{30FC}'
  const MiddleDot: char := '\U{30FB}'

  /** The character class `ァ-ヴ`. */
  predicate InShiftedRange(c: char) {
    KatakanaFirst <= c as int <= KatakanaLast
  }

  /** 'ぁ' .. 'ゔ': where the shifted range lands. */
  predicate InHiraganaImage(c: char) {
    KatakanaFirst - HiraganaOffset <= c as int <= KatakanaLast - HiraganaOffset
  }

  /** The per-character step of `kata_to_hira`. */
  function ToHiragana(c: char): (h: char)
    ensures InShiftedRange(c) ==> InHiraganaImage(h) && h as int + HiraganaOffset == c as int
    ensures !InShiftedRange(c) ==> h == c
    ensures !InShiftedRange(h)
  {
    if InShiftedRange(c) then (c as int - HiraganaOffset) as char else c
  }

  /** `kata_to_hira`: shift every katakana letter of `text` to hiragana. */
  function KataToHira(text: string): (r: string)
    ensures |r| == |text|
    ensures forall i :: 0 <= i < |text| ==> r[i] == ToHiragana(text[i])
  {
    if text == [] then [] else [ToHiragana(text[0])] + KataToHira(text[1..])
  }

  /** No character of a converted string is left in the shifted range. */
  lemma KataToHiraLeavesNoKatakana(text: string)
    ensures forall i :: 0 <= i < |KataToHira(text)| ==> !InShiftedRange(KataToHira(text)[i])
  {
  }

  /** Converting twice is converting once. */
  lemma KataToHiraIdempotent(text: string)
    ensures KataToHira(KataToHira(text)) == KataToHira(text)
  {
    var once := KataToHira(text);
    var twice := KataToHira(once);
    forall i | 0 <= i < |once|
      ensures twice[i] == once[i]
    {
      assert !InShiftedRange(once[i]);
    }
  }

  /** Distinct letters of the shifted range get distinct hiragana. */
  lemma ToHiraganaInjective(a: char, b: char)
    requires InShiftedRange(a) && InShiftedRange(b)
    requires ToHiragana(a) == ToHiragana(b)
    ensures a == b
  {
  }

  /**
    A character that is neither in the shifted range's image nor in the
    input does not appear in the output either (markup characters such as
    '<' and line breaks survive the conversion only if they were there).
   */
  lemma {:induction false} KataToHiraAbsent(text: string, c: char)
    requires c !in text && !InHiraganaImage(c)
    ensures c !in KataToHira(text)
  {
    if text != [] {
      KataToHiraAbsent(text[1..], c);
      assert KataToHira(text) == [ToHiragana(text[0])] + KataToHira(text[1..]);
      assert ToHiragana(text[0]) != c;
    }
  }

  /** A member of `[ァ-ヴー・]`. */
  predicate IsKatakanaChar(c: char) {
    InShiftedRange(c) || c == ProlongedSoundMark || c == MiddleDot
  }

  /** `is_katakana`: `s` fully matches `[ァ-ヴー・]+`. */
  function IsKatakana(s: string): (b: bool)
    ensures b <==> |s| > 0 && forall i :: 0 <= i < |s| ==> IsKatakanaChar(s[i])
  {
    |s| > 0 && IsKatakanaChar(s[0]) && (|s| == 1 || IsKatakana(s[1..]))
  }
}
