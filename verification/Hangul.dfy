/**
 Compatibility jamo, the two-set keyboard and the precomposed Hangul block.

 Tables and arithmetic of app/services/search_service.py (lines 136-163, 218-222): an
 initial, a vowel and an optional final are packed into one code point of the block
 U+AC00..U+D7A3, and `Keys` unpacks a syllable into the keystrokes that type it.
 */
module Hangul {
  import opened Wrappers

  const FIRST_SYLLABLE := 0xAC00
  const LAST_SYLLABLE := 0xD7A3

  // CHO_SET, JUNG_SET and the keys of JONG_INDEX, by code point.
  predicate IsCompoundFinal(c: char) {
    c in {'ㄳ', 'ㄵ', 'ㄶ', 'ㄺ', 'ㄻ', 'ㄼ', 'ㄽ', 'ㄾ', 'ㄿ', 'ㅀ', 'ㅄ'}
  }

  /** The doubled consonants that the keyboard types but that no syllable can end in. */
  predicate NeverFinal(c: char) {
    c in {'ㄸ', 'ㅃ', 'ㅉ'}
  }

  predicate IsCho(c: char) {
    'ㄱ' <= c <= 'ㅎ' && !IsCompoundFinal(c)
  }

  predicate IsJung(c: char) {
    'ㅏ' <= c <= 'ㅣ'
  }

  predicate IsJong(c: char) {
    'ㄱ' <= c <= 'ㅎ' && !NeverFinal(c)
  }

  predicate IsSyllable(c: char) {
    FIRST_SYLLABLE <= c as int <= LAST_SYLLABLE
  }

  // COMPAT_CHO, COMPAT_JUNG and COMPAT_JONG, letter by table index and back.
  function ChoLetter(i: int): (c: char)
    requires 0 <= i < 19
    ensures IsCho(c)
  {
    match i
    case 0 => 'ㄱ' case 1 => 'ㄲ' case 2 => 'ㄴ' case 3 => 'ㄷ' case 4 => 'ㄸ' case 5 => 'ㄹ'
    case 6 => 'ㅁ' case 7 => 'ㅂ' case 8 => 'ㅃ' case 9 => 'ㅅ' case 10 => 'ㅆ' case 11 => 'ㅇ'
    case 12 => 'ㅈ' case 13 => 'ㅉ' case 14 => 'ㅊ' case 15 => 'ㅋ' case 16 => 'ㅌ' case 17 => 'ㅍ'
    case _ => 'ㅎ'
  }

  function JungLetter(i: int): (c: char)
    requires 0 <= i < 21
    ensures IsJung(c)
  {
    match i
    case 0 => 'ㅏ' case 1 => 'ㅐ' case 2 => 'ㅑ' case 3 => 'ㅒ' case 4 => 'ㅓ' case 5 => 'ㅔ'
    case 6 => 'ㅕ' case 7 => 'ㅖ' case 8 => 'ㅗ' case 9 => 'ㅘ' case 10 => 'ㅙ' case 11 => 'ㅚ'
    case 12 => 'ㅛ' case 13 => 'ㅜ' case 14 => 'ㅝ' case 15 => 'ㅞ' case 16 => 'ㅟ' case 17 => 'ㅠ'
    case 18 => 'ㅡ' case 19 => 'ㅢ' case _ => 'ㅣ'
  }

  function JongLetter(i: int): (c: char)
    requires 1 <= i < 28
    ensures IsJong(c)
  {
    match i
    case 1 => 'ㄱ' case 2 => 'ㄲ' case 3 => 'ㄳ' case 4 => 'ㄴ' case 5 => 'ㄵ' case 6 => 'ㄶ'
    case 7 => 'ㄷ' case 8 => 'ㄹ' case 9 => 'ㄺ' case 10 => 'ㄻ' case 11 => 'ㄼ' case 12 => 'ㄽ'
    case 13 => 'ㄾ' case 14 => 'ㄿ' case 15 => 'ㅀ' case 16 => 'ㅁ' case 17 => 'ㅂ' case 18 => 'ㅄ'
    case 19 => 'ㅅ' case 20 => 'ㅆ' case 21 => 'ㅇ' case 22 => 'ㅈ' case 23 => 'ㅊ' case 24 => 'ㅋ'
    case 25 => 'ㅌ' case 26 => 'ㅍ' case _ => 'ㅎ'
  }

  /** COMPAT_CHO.index */
  function ChoIndex(c: char): (i: int)
    requires IsCho(c)
    ensures 0 <= i < 19 && ChoLetter(i) == c
  {
    match c
    case 'ㄱ' => 0 case 'ㄲ' => 1 case 'ㄴ' => 2 case 'ㄷ' => 3 case 'ㄸ' => 4 case 'ㄹ' => 5
    case 'ㅁ' => 6 case 'ㅂ' => 7 case 'ㅃ' => 8 case 'ㅅ' => 9 case 'ㅆ' => 10 case 'ㅇ' => 11
    case 'ㅈ' => 12 case 'ㅉ' => 13 case 'ㅊ' => 14 case 'ㅋ' => 15 case 'ㅌ' => 16 case 'ㅍ' => 17
    case _ => 18
  }

  /** COMPAT_JUNG.index */
  function JungIndex(c: char): (i: int)
    requires IsJung(c)
    ensures 0 <= i < 21 && JungLetter(i) == c
  {
    match c
    case 'ㅏ' => 0 case 'ㅐ' => 1 case 'ㅑ' => 2 case 'ㅒ' => 3 case 'ㅓ' => 4 case 'ㅔ' => 5
    case 'ㅕ' => 6 case 'ㅖ' => 7 case 'ㅗ' => 8 case 'ㅘ' => 9 case 'ㅙ' => 10 case 'ㅚ' => 11
    case 'ㅛ' => 12 case 'ㅜ' => 13 case 'ㅝ' => 14 case 'ㅞ' => 15 case 'ㅟ' => 16 case 'ㅠ' => 17
    case 'ㅡ' => 18 case 'ㅢ' => 19 case _ => 20
  }

  /** JONG_INDEX.get(jong, 0): a letter outside the table counts as no final. */
  function JongIndex(jong: Option<char>): (i: int)
    ensures 0 <= i < 28
    ensures i == 0 <==> jong.None? || !IsJong(jong.value)
    ensures i > 0 ==> JongLetter(i) == jong.value
  {
    if jong.None? then 0
    else
      match jong.value
      case 'ㄱ' => 1 case 'ㄲ' => 2 case 'ㄳ' => 3 case 'ㄴ' => 4 case 'ㄵ' => 5 case 'ㄶ' => 6
      case 'ㄷ' => 7 case 'ㄹ' => 8 case 'ㄺ' => 9 case 'ㄻ' => 10 case 'ㄼ' => 11 case 'ㄽ' => 12
      case 'ㄾ' => 13 case 'ㄿ' => 14 case 'ㅀ' => 15 case 'ㅁ' => 16 case 'ㅂ' => 17 case 'ㅄ' => 18
      case 'ㅅ' => 19 case 'ㅆ' => 20 case 'ㅇ' => 21 case 'ㅈ' => 22 case 'ㅊ' => 23 case 'ㅋ' => 24
      case 'ㅌ' => 25 case 'ㅍ' => 26 case 'ㅎ' => 27 case _ => 0
  }

  function JungCombine(a: char, b: char): (r: Option<char>)
    ensures r.Some? ==> IsJung(r.value)
  {
    match (a, b)
    case ('ㅗ', 'ㅏ') => Some('ㅘ')
    case ('ㅗ', 'ㅐ') => Some('ㅙ')
    case ('ㅗ', 'ㅣ') => Some('ㅚ')
    case ('ㅜ', 'ㅓ') => Some('ㅝ')
    case ('ㅜ', 'ㅔ') => Some('ㅞ')
    case ('ㅜ', 'ㅣ') => Some('ㅟ')
    case ('ㅡ', 'ㅣ') => Some('ㅢ')
    case _ => None
  }

  function JongCombine(a: char, b: char): Option<char> {
    match (a, b)
    case ('ㄱ', 'ㅅ') => Some('ㄳ')
    case ('ㄴ', 'ㅈ') => Some('ㄵ')
    case ('ㄴ', 'ㅎ') => Some('ㄶ')
    case ('ㄹ', 'ㄱ') => Some('ㄺ')
    case ('ㄹ', 'ㅁ') => Some('ㄻ')
    case ('ㄹ', 'ㅂ') => Some('ㄼ')
    case ('ㄹ', 'ㅅ') => Some('ㄽ')
    case ('ㄹ', 'ㅌ') => Some('ㄾ')
    case ('ㄹ', 'ㅍ') => Some('ㄿ')
    case ('ㄹ', 'ㅎ') => Some('ㅀ')
    case ('ㅂ', 'ㅅ') => Some('ㅄ')
    case _ => None
  }

  /** The keystrokes of a vowel: two for the seven compound vowels. */
  function SplitJung(c: char): string {
    match c
    case 'ㅘ' => "ㅗㅏ"
    case 'ㅙ' => "ㅗㅐ"
    case 'ㅚ' => "ㅗㅣ"
    case 'ㅝ' => "ㅜㅓ"
    case 'ㅞ' => "ㅜㅔ"
    case 'ㅟ' => "ㅜㅣ"
    case 'ㅢ' => "ㅡㅣ"
    case _ => [c]
  }

  /** The keystrokes of a final: two for the eleven compound finals. */
  function SplitJong(c: char): string {
    match c
    case 'ㄳ' => "ㄱㅅ"
    case 'ㄵ' => "ㄴㅈ"
    case 'ㄶ' => "ㄴㅎ"
    case 'ㄺ' => "ㄹㄱ"
    case 'ㄻ' => "ㄹㅁ"
    case 'ㄼ' => "ㄹㅂ"
    case 'ㄽ' => "ㄹㅅ"
    case 'ㄾ' => "ㄹㅌ"
    case 'ㄿ' => "ㄹㅍ"
    case 'ㅀ' => "ㄹㅎ"
    case 'ㅄ' => "ㅂㅅ"
    case _ => [c]
  }

  /** chr(0xAC00 + (cho * 21 + jung) * 28 + jong), where a final outside the table counts as no final. */
  function Syllable(cho: char, jung: char, jong: Option<char>): (c: char)
    requires IsCho(cho) && IsJung(jung)
    ensures IsSyllable(c)
  {
    (FIRST_SYLLABLE + (ChoIndex(cho) * 21 + JungIndex(jung)) * 28 + JongIndex(jong)) as char
  }

  function ChoOf(c: char): (cho: char)
    requires IsSyllable(c)
    ensures IsCho(cho)
  {
    ChoLetter((c as int - FIRST_SYLLABLE) / 588)
  }

  function JungOf(c: char): (jung: char)
    requires IsSyllable(c)
    ensures IsJung(jung)
  {
    JungLetter((c as int - FIRST_SYLLABLE) / 28 % 21)
  }

  function JongOf(c: char): (jong: Option<char>)
    requires IsSyllable(c)
    ensures jong.Some? ==> IsJong(jong.value)
  {
    var k := (c as int - FIRST_SYLLABLE) % 28;
    if k == 0 then None else Some(JongLetter(k))
  }

  function JongKeys(jong: Option<char>): string {
    if jong.None? then [] else SplitJong(jong.value)
  }

  /** What a typist presses to get `c` on a two-set keyboard. */
  function Keys(c: char): string {
    if IsSyllable(c) then [ChoOf(c)] + SplitJung(JungOf(c)) + JongKeys(JongOf(c))
    else if IsJung(c) then SplitJung(c)
    else [c]
  }

  function KeysAll(s: string): string {
    if s == [] then [] else Keys(s[0]) + KeysAll(s[1..])
  }

  lemma ChoLetterIndex(i: int)
    requires 0 <= i < 19
    ensures ChoIndex(ChoLetter(i)) == i
  {
  }

  lemma JungLetterIndex(i: int)
    requires 0 <= i < 21
    ensures JungIndex(JungLetter(i)) == i
  {
  }

  lemma JongLetterIndex(i: int)
    requires 1 <= i < 28
    ensures JongIndex(Some(JongLetter(i))) == i
  {
  }

  lemma Decode(cho: int, jung: int, jong: int)
    requires 0 <= cho < 19 && 0 <= jung < 21 && 0 <= jong < 28
    ensures ((cho * 21 + jung) * 28 + jong) / 588 == cho
    ensures ((cho * 21 + jung) * 28 + jong) / 28 % 21 == jung
    ensures ((cho * 21 + jung) * 28 + jong) % 28 == jong
  {
  }

  lemma Recode(n: int)
    requires 0 <= n
    ensures (n / 588 * 21 + n / 28 % 21) * 28 + n % 28 == n
  {
  }

  /** The three letters come back out of the code point; a final that the table lacks is gone. */
  lemma UnpackPack(cho: char, jung: char, jong: Option<char>)
    requires IsCho(cho) && IsJung(jung)
    ensures ChoOf(Syllable(cho, jung, jong)) == cho
    ensures JungOf(Syllable(cho, jung, jong)) == jung
    ensures JongOf(Syllable(cho, jung, jong)) == if jong.Some? && IsJong(jong.value) then jong else None
  {
    Decode(ChoIndex(cho), JungIndex(jung), JongIndex(jong));
  }

  /** Every code point of the block is the packing of its own three letters. */
  lemma PackUnpack(c: char)
    requires IsSyllable(c)
    ensures Syllable(ChoOf(c), JungOf(c), JongOf(c)) == c
  {
    var n := c as int - FIRST_SYLLABLE;
    hide ChoLetter, ChoIndex, JungLetter, JungIndex, JongLetter, JongIndex;
    ChoLetterIndex(n / 588);
    JungLetterIndex(n / 28 % 21);
    if n % 28 != 0 {
      JongLetterIndex(n % 28);
    }
    Recode(n);
  }
}
