/**
  Kanji proficiency levels of the furigana generator: the two literal kanji
  tables, the cumulative level table and `is_all_known_kanji`, which decides
  whether a word needs no reading at a given level.
 */
module Kanji {

  import opened Options

  /** The two literal tables of the source. */
  datatype Table = N5Table | N4Table

  /**
    `N5_KANJI` and `N4_KANJI`: the characters of the source's literals, in
    their order (`N4_KANJI` with its repetitions).
   */
  function TableKanji(t: Table): set<char> {
    match t
    case N5Table => set c | c in "人一日大年出本中子見国上分生行二間時気十女三前入小後長下学月何来話山高今書五名金男外四先川東聞語九食八水天木六万白七円電父北車母半百土西読千校右南左友火毎雨休午"
    case N4Table => set c | c in "言手自者事思会家的方地目場代私立物田体動社知理同心発作新世度明力意用主通文屋業持道身不口多野考開教近以問正真味界無少海切重集員公画死安親強使朝題仕京足品着別音元特風夜空有起運料楽色帰歩悪広店町住売待古医去台合同味品員問回図地堂場声売夏夕夜太好妹姉始字室家寒屋工市帰広度建引弟弱強待心思急悪意所持教文料旅族早明映春昼暑暗曜有服朝村林森業楽歌止正歩死民池注洋洗海漢牛物特犬理産用田町画界病発県真着知短研私秋究答紙終習考者肉自色英茶菜薬親計試説貸質赤走起転軽近送通進運遠都始終計院送族映買病早質台室可建転医止字工急図黒花英走青答紙歌注赤春館旅験写去研飲肉服銀茶洋兄秋堂週習夏弟鳥犬夕魚借飯駅昼冬姉曜漢牛妹貸勉"
  }

  /** `KANJI_LEVELS.get(name)`: N4 includes the N5 kanji; no other name is present. */
  function KanjiLevel(name: string): (known: Option<set<char>>)
    ensures known.Some? <==> name == "N5" || name == "N4"
  {
    if name == "N5" then Some(TableKanji(N5Table))
    else if name == "N4" then Some(TableKanji(N4Table) + TableKanji(N5Table))
    else None
  }

  /** The regex class `[一-龯]`: U+4E00 .. U+9FAF. */
  predicate IsKanji(c: char) {
    0x4E00 <= c as int <= 0x9FAF
  }

  /** `re.findall(r'[一-龯]', word)`: the kanji of `word`, in order. */
  function KanjiChars(word: string): (ks: string)
    ensures |ks| <= |word|
    ensures forall i :: 0 <= i < |ks| ==> IsKanji(ks[i])
    ensures forall c :: c in ks <==> c in word && IsKanji(c)
  {
    if word == [] then []
    else (if IsKanji(word[0]) then [word[0]] else []) + KanjiChars(word[1..])
  }

  /** `all(char in known for char in chars)`. */
  function AllIn(chars: string, known: set<char>): (b: bool)
    ensures b <==> forall i :: 0 <= i < |chars| ==> chars[i] in known
  {
    chars == [] || (chars[0] in known && AllIn(chars[1..], known))
  }

  /** Every kanji of `word` is in `known`. */
  function KanjiAllIn(word: string, known: set<char>): (b: bool)
    ensures b <==> forall i :: 0 <= i < |word| && IsKanji(word[i]) ==> word[i] in known
  {
    AllIn(KanjiChars(word), known)
  }

  /**
    `is_all_known_kanji`: no level, or a level missing from the table, knows
    nothing; otherwise every kanji of the word must be in the level's set.
   */
  function IsAllKnownKanji(word: string, level: Option<string>): (b: bool)
    ensures level.None? ==> !b
    ensures level.Some? && KanjiLevel(level.value).None? ==> !b
    ensures level.Some? && KanjiLevel(level.value).Some? ==>
      (b <==> forall i :: 0 <= i < |word| && IsKanji(word[i]) ==> word[i] in KanjiLevel(level.value).value)
  {
    match level
    case None => false
    case Some(name) =>
      match KanjiLevel(name)
      case None => false
      case Some(known) => KanjiAllIn(word, known)
  }

  /** The N4 level contains the N5 level. */
  lemma LevelsCumulative()
    ensures KanjiLevel("N5").value <= KanjiLevel("N4").value
  {
  }

  /** Any level name other than N5 and N4 makes every word unknown. */
  lemma UnlistedLevelKnowsNothing(word: string, name: string)
    requires name != "N5" && name != "N4"
    ensures !IsAllKnownKanji(word, Some(name))
  {
  }

  /** A word without kanji is known at both levels. */
  lemma WordWithoutKanjiIsKnown(word: string, name: string)
    requires name == "N5" || name == "N4"
    requires forall i :: 0 <= i < |word| ==> !IsKanji(word[i])
    ensures IsAllKnownKanji(word, Some(name))
  {
  }

  /** Whatever is all-known at N5 is all-known at N4. */
  lemma KnownAtN5IsKnownAtN4(word: string)
    requires IsAllKnownKanji(word, Some("N5"))
    ensures IsAllKnownKanji(word, Some("N4"))
  {
    LevelsCumulative();
  }
}
