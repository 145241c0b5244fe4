/**
 compose_hangul_from_compat_jamo (app/services/search_service.py:166-228): a greedy
 left-to-right composer that looks at most two letters past the block it is building.

 `ComposeHangul` is the source's loop. `Compose` is the same reading as a function of a
 position; `TypedText` is what the composer should do, said without reading blocks: a rule
 for each letter that looks only at its two neighbours.
 */
module HangulComposer {
  import opened Wrappers
  import opened Hangul

  datatype Block = Block(out: char, next: nat)

  /** Blanks and the wildcard bar are dropped before composing. */
  function Letters(query: string): (s: string)
    ensures ' ' !in s && '|' !in s
  {
    if query == [] then []
    else if query[0] == ' ' || query[0] == '|' then Letters(query[1..])
    else [query[0]] + Letters(query[1..])
  }

  predicate JungAt(s: string, i: nat) {
    i < |s| && IsJung(s[i])
  }

  predicate ChoAt(s: string, i: nat) {
    i < |s| && IsCho(s[i])
  }

  function ReadVowel(s: string, i: nat, jung: char): (r: (char, nat))
    requires i <= |s| && IsJung(jung)
    ensures IsJung(r.0) && i <= r.1 <= |s|
  {
    if i < |s| && JungCombine(jung, s[i]).Some? then (JungCombine(jung, s[i]).value, i + 1) else (jung, i)
  }

  function ReadFinal(s: string, i: nat): (r: (Option<char>, nat))
    requires i <= |s|
    ensures i <= r.1 <= |s|
  {
    if !ChoAt(s, i) || JungAt(s, i + 1) then (None, i)
    else if i + 1 < |s| && JongCombine(s[i], s[i + 1]).Some? && !JungAt(s, i + 2) then
      (JongCombine(s[i], s[i + 1]), i + 2)
    else (Some(s[i]), i + 1)
  }

  function BlockFrom(s: string, i: nat, cho: char, jung: char): (b: Block)
    requires i <= |s| && IsCho(cho) && IsJung(jung)
    ensures i <= b.next <= |s|
  {
    var (jung', j) := ReadVowel(s, i, jung);
    var (jong, k) := ReadFinal(s, j);
    Block(Syllable(cho, jung', jong), k)
  }

  function NextBlock(s: string, i: nat): (b: Block)
    requires i < |s|
    ensures i < b.next <= |s|
  {
    if IsJung(s[i]) then BlockFrom(s, i + 1, 'ㅇ', s[i])
    else if IsCho(s[i]) && JungAt(s, i + 1) then BlockFrom(s, i + 2, s[i], s[i + 1])
    else Block(s[i], i + 1)
  }

  function Compose(s: string, i: nat): string
    requires i <= |s|
    decreases |s| - i
  {
    if i == |s| then [] else [NextBlock(s, i).out] + Compose(s, NextBlock(s, i).next)
  }

  function ComposeQuery(query: string): string {
    Compose(Letters(query), 0)
  }

  lemma ComposeStep(s: string, i: nat, before: string)
    requires i < |s|
    ensures before + [NextBlock(s, i).out] + Compose(s, NextBlock(s, i).next) == before + Compose(s, i)
  {
    hide NextBlock;
  }

  lemma ComposeEnd(s: string)
    ensures Compose(s, |s|) == []
  {
  }

  /** The source's loop, index by index. */
  method ComposeHangul(query: string) returns (out: string)
    ensures out == ComposeQuery(query)
    ensures |out| <= |Letters(query)|
  {
    hide IsCho, IsJung, JungCombine, JongCombine, Syllable, Compose, Letters;
    SilentInitial();
    var src := Letters(query);
    out := [];
    var i, n := 0, |src|;
    while i < n
      invariant i <= n
      invariant |out| <= i
      invariant out + Compose(src, i) == Compose(src, 0)
    {
      ghost var start, before := i, out;
      var cho, jung;
      var ch := src[i];
      if IsJung(ch) {
        cho := 'ㅇ';
        jung := ch;
        i := i + 1;
      } else if IsCho(ch) && i + 1 < n && IsJung(src[i + 1]) {
        cho := ch;
        i := i + 1;
        jung := src[i];
        i := i + 1;
      } else {
        out := out + [ch];
        i := i + 1;
        ComposeStep(src, start, before);
        continue;
      }
      ghost var v, jung0 := i, jung;
      assert NextBlock(src, start) == BlockFrom(src, v, cho, jung0);
      if i < n && JungCombine(jung, src[i]).Some? {
        jung := JungCombine(jung, src[i]).value;
        i := i + 1;
      }
      assert (jung, i) == ReadVowel(src, v, jung0);
      ghost var f := i;
      var jong: Option<char> := None;
      if i < n && IsCho(src[i]) {
        if i + 1 < n && IsJung(src[i + 1]) {
          jong := None;
        } else if i + 1 < n && JongCombine(src[i], src[i + 1]).Some? {
          var pair := JongCombine(src[i], src[i + 1]);
          if i + 2 >= n || !IsJung(src[i + 2]) {
            jong := pair;
            i := i + 2;
          } else {
            jong := Some(src[i]);
            i := i + 1;
          }
        } else {
          jong := Some(src[i]);
          i := i + 1;
        }
      }
      assert (jong, i) == ReadFinal(src, f);
      if IsCho(cho) && IsJung(jung) {
        out := out + [Syllable(cho, jung, jong)];
      } else {
        assert false;
      }
      ComposeStep(src, start, before);
    }
    ComposeEnd(src);
  }

  // ------------------------------------------------------------------
  // The local rule
  // ------------------------------------------------------------------

  /** A vowel with no consonant before it that is not the second half of a compound vowel. */
  predicate Orphan(s: string, i: nat)
    requires i < |s|
  {
    IsJung(s[i]) && (i == 0 || (!IsCho(s[i - 1]) && JungCombine(s[i - 1], s[i]).None?))
  }

  /** A doubled consonant that stands where only a final can stand: its letter is lost. */
  predicate LostFinal(s: string, i: nat)
    requires i < |s|
  {
    NeverFinal(s[i]) && i > 0 && IsJung(s[i - 1]) && !JungAt(s, i + 1)
  }

  function Piece(s: string, i: nat): string
    requires i < |s|
  {
    if LostFinal(s, i) then []
    else if Orphan(s, i) then ['ㅇ'] + Keys(s[i])
    else Keys(s[i])
  }

  function TypedText(s: string, i: nat): string
    requires i <= |s|
    decreases |s| - i
  {
    if i == |s| then [] else Piece(s, i) + TypedText(s, i + 1)
  }

  /** `TypedText` if nothing were lost: the letters as typed, with only the orphans' ㅇ added. */
  function WithIeung(s: string, i: nat): string
    requires i <= |s|
    decreases |s| - i
  {
    if i == |s| then [] else Whole(s, i) + WithIeung(s, i + 1)
  }

  function Whole(s: string, i: nat): string
    requires i < |s|
  {
    (if Orphan(s, i) then ['ㅇ'] else []) + Keys(s[i])
  }

  /** Where a block may begin: its first letter belongs to no earlier block. */
  predicate Boundary(s: string, i: nat) {
    i < |s| ==> (IsJung(s[i]) ==> Orphan(s, i)) && !LostFinal(s, i)
  }

  lemma VowelKeys(a: char, b: char)
    requires JungCombine(a, b).Some?
    ensures IsJung(a) && IsJung(b) && IsJung(JungCombine(a, b).value)
    ensures SplitJung(JungCombine(a, b).value) == SplitJung(a) + SplitJung(b)
    ensures forall c :: JungCombine(b, c).None?
  {
  }

  lemma FinalKeys(a: char, b: char)
    requires JongCombine(a, b).Some?
    ensures SplitJong(JongCombine(a, b).value) == [a, b]
  {
  }

  lemma FinalLetters(a: char, b: char)
    requires JongCombine(a, b).Some?
    ensures IsCho(a) && IsJong(a) && IsCho(b) && IsJong(b) && IsJong(JongCombine(a, b).value)
  {
  }

  lemma ChoKeys(c: char)
    requires IsCho(c)
    ensures Keys(c) == [c] == SplitJong(c)
    ensures !IsJung(c)
  {
  }

  lemma SilentInitial()
    ensures IsCho('ㅇ')
  {
  }

  lemma JungKeys(c: char)
    requires IsJung(c)
    ensures Keys(c) == SplitJung(c)
    ensures !IsCho(c)
  {
  }

  /** What a final contributes once it is packed: nothing if no syllable ends in it. */
  function KeptFinal(jong: Option<char>): string {
    if jong.Some? && IsJong(jong.value) then SplitJong(jong.value) else []
  }

  /** Unpacking a composed block gives its letters back, less a final no syllable can have. */
  lemma {:induction false} SyllableKeys(cho: char, jung: char, jong: Option<char>)
    requires IsCho(cho) && IsJung(jung)
    ensures Keys(Syllable(cho, jung, jong))
         == [cho] + SplitJung(jung) + KeptFinal(jong)
  {
    UnpackPack(cho, jung, jong);
  }

  lemma TypedStep(s: string, i: nat)
    requires i < |s|
    ensures TypedText(s, i) == Piece(s, i) + TypedText(s, i + 1)
  {
  }

  lemma EmptyFinal()
    ensures KeptFinal(None) == []
  {
  }

  lemma SingleFinal(s: string, i: nat)
    requires 0 < i < |s| && IsJung(s[i - 1]) && IsCho(s[i]) && !JungAt(s, i + 1)
    ensures KeptFinal(Some(s[i])) == Piece(s, i)
    ensures Boundary(s, i + 1)
  {
    ChoKeys(s[i]);
  }

  lemma DoubleFinal(s: string, i: nat)
    requires 0 < i && i + 1 < |s| && IsJung(s[i - 1]) && JongCombine(s[i], s[i + 1]).Some? && !JungAt(s, i + 2)
    ensures KeptFinal(JongCombine(s[i], s[i + 1])) == Piece(s, i) + Piece(s, i + 1)
    ensures Boundary(s, i + 2)
  {
    FinalLetters(s[i], s[i + 1]);
    FinalKeys(s[i], s[i + 1]);
    ChoKeys(s[i]);
    ChoKeys(s[i + 1]);
  }

  /** The letters of a final are exactly the pieces it was read from, and the rest starts afresh. */
  lemma {:induction false} FinalStep(s: string, i: nat)
    requires 0 < i <= |s| && IsJung(s[i - 1])
    requires JungAt(s, i) ==> JungCombine(s[i - 1], s[i]).None?
    ensures var (jong, k) := ReadFinal(s, i);
            KeptFinal(jong) + TypedText(s, k) == TypedText(s, i)
    ensures Boundary(s, ReadFinal(s, i).1)
  {
    hide TypedText, Piece, KeptFinal, JongCombine, Keys;
    if !ChoAt(s, i) || JungAt(s, i + 1) {
      if JungAt(s, i) {
        JungKeys(s[i]);
      }
      JungKeys(s[i - 1]);
      EmptyFinal();
    } else if i + 1 < |s| && JongCombine(s[i], s[i + 1]).Some? && !JungAt(s, i + 2) {
      DoubleFinal(s, i);
      TypedStep(s, i);
      TypedStep(s, i + 1);
    } else {
      SingleFinal(s, i);
      TypedStep(s, i);
    }
  }

  /** One block of the composer against the pieces of the letters it read. */
  lemma {:induction false} BlockStep(s: string, i: nat)
    requires i < |s| && Boundary(s, i)
    ensures Keys(NextBlock(s, i).out) + TypedText(s, NextBlock(s, i).next) == TypedText(s, i)
    ensures Boundary(s, NextBlock(s, i).next)
  {
    hide JungCombine, JongCombine, KeptFinal, Piece, TypedText, Keys, ReadFinal, ReadVowel, Syllable;
    TypedStep(s, i);
    if IsJung(s[i]) {
      OrphanPiece(s, i);
      SilentInitial();
      VowelStep(s, i + 1, 'ㅇ', s[i]);
    } else if IsCho(s[i]) && JungAt(s, i + 1) {
      InitialPiece(s, i);
      TypedStep(s, i + 1);
      VowelStep(s, i + 2, s[i], s[i + 1]);
    } else {
      LonePiece(s, i);
    }
  }

  lemma OrphanPiece(s: string, i: nat)
    requires i < |s| && Orphan(s, i)
    ensures Piece(s, i) == ['ㅇ'] + SplitJung(s[i])
  {
    JungKeys(s[i]);
  }

  lemma InitialPiece(s: string, i: nat)
    requires i < |s| && IsCho(s[i]) && JungAt(s, i + 1)
    ensures Piece(s, i) == [s[i]]
    ensures Piece(s, i + 1) == SplitJung(s[i + 1])
  {
    ChoKeys(s[i]);
    JungKeys(s[i + 1]);
  }

  lemma LonePiece(s: string, i: nat)
    requires i < |s| && Boundary(s, i) && !IsJung(s[i]) && !(IsCho(s[i]) && JungAt(s, i + 1))
    ensures Piece(s, i) == Keys(s[i])
    ensures Boundary(s, i + 1)
  {
    if JungAt(s, i + 1) {
      CombineNeedsVowel(s[i], s[i + 1]);
    }
  }

  lemma CombineNeedsVowel(a: char, b: char)
    ensures JungCombine(a, b).Some? ==> IsJung(a)
  {
    if JungCombine(a, b).Some? {
      VowelKeys(a, b);
    }
  }

  /** From a block's first vowel on: the optional second half of the vowel, then the final. */
  lemma {:induction false} VowelStep(s: string, i: nat, cho: char, jung: char)
    requires 0 < i <= |s| && IsCho(cho) && IsJung(jung) && s[i - 1] == jung
    ensures var b := BlockFrom(s, i, cho, jung);
            Keys(b.out) + TypedText(s, b.next) == [cho] + SplitJung(jung) + TypedText(s, i)
    ensures Boundary(s, BlockFrom(s, i, cho, jung).next)
  {
    hide JungCombine, KeptFinal, Piece, TypedText, Keys, ReadFinal, Syllable, SplitJung, Boundary;
    var (jung', j) := ReadVowel(s, i, jung);
    var (jong, k) := ReadFinal(s, j);
    SyllableKeys(cho, jung', jong);
    if j == i + 1 {
      VowelKeys(jung, s[i]);
      SecondHalf(s, i);
      TypedStep(s, i);
    }
    FinalStep(s, j);
  }

  lemma SecondHalf(s: string, i: nat)
    requires 0 < i < |s| && JungCombine(s[i - 1], s[i]).Some?
    ensures Piece(s, i) == SplitJung(s[i])
  {
    VowelKeys(s[i - 1], s[i]);
    JungKeys(s[i]);
  }

  lemma {:induction false} ComposedKeys(s: string, i: nat)
    requires i <= |s| && Boundary(s, i)
    ensures KeysAll(Compose(s, i)) == TypedText(s, i)
    decreases |s| - i
  {
    if i < |s| {
      var b := NextBlock(s, i);
      BlockStep(s, i);
      ComposedKeys(s, b.next);
      assert Compose(s, i) == [b.out] + Compose(s, b.next);
      assert Compose(s, i)[1..] == Compose(s, b.next);
    }
  }

  /**
   The exact law, for every query: retyping the output gives what was typed, with an ㅇ in
   front of each orphan vowel and without the doubled consonants that stood as finals.
   */
  lemma {:induction false} NoOtherJamoLost(query: string)
    ensures KeysAll(ComposeQuery(query)) == TypedText(Letters(query), 0)
  {
    var s := Letters(query);
    assert Boundary(s, 0);
    ComposedKeys(s, 0);
  }

  predicate NothingLost(s: string) {
    forall i :: 0 <= i < |s| ==> !LostFinal(s, i)
  }

  lemma {:induction false} LossIsLength(s: string, i: nat)
    requires i <= |s|
    ensures |TypedText(s, i)| <= |WithIeung(s, i)|
    ensures (forall j :: i <= j < |s| ==> !LostFinal(s, j)) ==> TypedText(s, i) == WithIeung(s, i)
    ensures (exists j :: i <= j < |s| && LostFinal(s, j)) ==> |TypedText(s, i)| < |WithIeung(s, i)|
    decreases |s| - i
  {
    BothEnd(s);
    hide LostFinal, Piece, Whole, TypedText, WithIeung;
    if i < |s| {
      LossIsLength(s, i + 1);
      PieceLength(s, i);
      TypedStep(s, i);
      WithStep(s, i);
    }
  }

  lemma BothEnd(s: string)
    ensures TypedText(s, |s|) == WithIeung(s, |s|) == []
  {
  }

  lemma WithStep(s: string, i: nat)
    requires i < |s|
    ensures WithIeung(s, i) == Whole(s, i) + WithIeung(s, i + 1)
  {
  }

  lemma PieceLength(s: string, i: nat)
    requires i < |s|
    ensures if LostFinal(s, i) then Piece(s, i) == [] && Whole(s, i) != [] else Piece(s, i) == Whole(s, i)
  {
    hide LostFinal, Orphan, Keys;
    KeysNonempty(s[i]);
  }

  lemma KeysNonempty(c: char)
    ensures Keys(c) != []
  {
  }

  /** No letter is lost exactly when no ㄸ, ㅃ or ㅉ stands where only a final can stand. */
  lemma {:induction false} JamoKeptExactly(query: string)
    ensures KeysAll(ComposeQuery(query)) == WithIeung(Letters(query), 0) <==> NothingLost(Letters(query))
  {
    var s := Letters(query);
    NoOtherJamoLost(query);
    LossIsLength(s, 0);
  }

  /** The smallest input that loses a letter: ㅏㄸ is composed to 아. */
  lemma {:induction false} DoubledFinalIsLost()
    ensures KeysAll(ComposeQuery("ㅏㄸ")) == "ㅇㅏ"
    ensures !NothingLost(Letters("ㅏㄸ"))
  {
    hide Keys, ComposeQuery, JungCombine;
    var s := "ㅏㄸ";
    LettersAll(s);
    NoOtherJamoLost(s);
    JungKeys('ㅏ');
    assert LostFinal(s, 1) && Piece(s, 1) == [];
    assert Orphan(s, 0) && Piece(s, 0) == "ㅇㅏ";
  }

  lemma LettersAll(s: string)
    requires ' ' !in s && '|' !in s
    ensures Letters(s) == s
  {
    if s != [] {
      LettersAll(s[1..]);
    }
  }

  // ------------------------------------------------------------------
  // Round trip
  // ------------------------------------------------------------------

  /** Text the keyboard can produce: syllables, and characters that are neither letters nor dropped. */
  predicate Typable(c: char) {
    IsSyllable(c) || (!IsCho(c) && !IsJung(c) && c != ' ' && c != '|')
  }

  predicate TypableText(w: string) {
    forall i :: 0 <= i < |w| ==> Typable(w[i])
  }

  /** What follows in typed text: nothing, a plain character, or an initial with its vowel. */
  predicate FreshStart(s: string, i: nat) {
    i < |s| ==> !IsJung(s[i]) && (IsCho(s[i]) ==> JungAt(s, i + 1))
  }

  lemma JungSplit(c: char)
    requires IsJung(c)
    ensures 1 <= |SplitJung(c)| <= 2 && forall k :: 0 <= k < |SplitJung(c)| ==> IsJung(SplitJung(c)[k])
    ensures |SplitJung(c)| == 1 ==> SplitJung(c) == [c]
    ensures |SplitJung(c)| == 2 ==> JungCombine(SplitJung(c)[0], SplitJung(c)[1]) == Some(c)
  {
    forall k | 0 <= k < |SplitJung(c)| ensures IsJung(SplitJung(c)[k]) {
    }
  }

  lemma JongSplit(c: char)
    requires IsJong(c)
    ensures 1 <= |SplitJong(c)| <= 2
    ensures |SplitJong(c)| == 1 ==> SplitJong(c) == [c] && IsCho(c)
    ensures |SplitJong(c)| == 2 ==> JongCombine(SplitJong(c)[0], SplitJong(c)[1]) == Some(c)
  {
    if c !in {'ㄳ', 'ㄵ', 'ㄶ', 'ㄺ', 'ㄻ', 'ㄼ', 'ㄽ', 'ㄾ', 'ㄿ', 'ㅀ', 'ㅄ'} {
      SimpleFinalIsInitial(c);
    }
  }

  lemma SimpleFinalIsInitial(c: char)
    requires IsJong(c)
    requires c !in {'ㄳ', 'ㄵ', 'ㄶ', 'ㄺ', 'ㄻ', 'ㄼ', 'ㄽ', 'ㄾ', 'ㄿ', 'ㅀ', 'ㅄ'}
    ensures IsCho(c)
  {
  }

  lemma FreshKeys(c: char, s: string, i: nat)
    requires Typable(c) && i + |Keys(c)| <= |s| && s[i..i + |Keys(c)|] == Keys(c)
    ensures FreshStart(s, i)
  {
    KeysNonempty(c);
    assert s[i] == Keys(c)[0];
    if IsSyllable(c) {
      JungSplit(JungOf(c));
      assert s[i + 1] == Keys(c)[1];
    }
  }

  /** With a whole syllable's keystrokes ahead, and fresh text after them, the composer reads that syllable. */
  lemma ReadsSyllable(c: char, s: string, i: nat)
    requires IsSyllable(c) && i + |Keys(c)| <= |s| && s[i..i + |Keys(c)|] == Keys(c)
    requires FreshStart(s, i + |Keys(c)|)
    ensures NextBlock(s, i) == Block(c, i + |Keys(c)|)
  {
    hide Syllable, SplitJung, SplitJong, JungCombine, JongCombine, ChoOf, JungOf, JongOf;
    var cho, jung, jong := ChoOf(c), JungOf(c), JongOf(c);
    var v := SplitJung(jung);
    var t := JongKeys(jong);
    var m, e := i + 1 + |v|, i + |Keys(c)|;
    JungSplit(jung);
    assert s[i..e] == [cho] + v + t;
    assert s[i] == s[i..e][0] == cho;
    assert s[i + 1] == s[i..e][1] == v[0];
    forall k | 0 <= k < |t| ensures s[m + k] == t[k] {
      assert s[i..e][1 + |v| + k] == t[k];
    }
    assert s[i + 1..m] == v by {
      forall k | 0 <= k < |v| ensures s[i + 1 + k] == v[k] {
        assert s[i..e][1 + k] == v[k];
      }
    }
    if jong.Some? {
      FinalStartsWithInitial(jong.value);
      assert s[m] == t[0];
    }
    ReadsVowel(s, i + 2, v, jung);
    ReadsFinal(s, m, jong);
    PackUnpack(c);
  }

  lemma FinalStartsWithInitial(c: char)
    requires IsJong(c)
    ensures SplitJong(c) != [] && IsCho(SplitJong(c)[0])
  {
    JongSplit(c);
    if |SplitJong(c)| == 2 {
      FinalLetters(SplitJong(c)[0], SplitJong(c)[1]);
    }
  }

  lemma ReadsVowel(s: string, i: nat, v: string, jung: char)
    requires IsJung(jung) && v == SplitJung(jung)
    requires 0 < i && i + |v| - 1 <= |s| && s[i - 1..i + |v| - 1] == v
    requires !JungAt(s, i + |v| - 1)
    ensures IsJung(v[0]) && ReadVowel(s, i, v[0]) == (jung, i + |v| - 1)
  {
    JungSplit(jung);
    assert s[i - 1] == v[0];
    if |v| == 2 {
      assert s[i] == s[i - 1..i + 1][1] == v[1];
    } else if i < |s| && JungCombine(jung, s[i]).Some? {
      VowelKeys(jung, s[i]);
    }
  }

  lemma ReadsFinal(s: string, m: nat, jong: Option<char>)
    requires jong.Some? ==> IsJong(jong.value)
    requires m + |JongKeys(jong)| <= |s| && forall k :: 0 <= k < |JongKeys(jong)| ==> s[m + k] == JongKeys(jong)[k]
    requires FreshStart(s, m + |JongKeys(jong)|)
    ensures ReadFinal(s, m) == (jong, m + |JongKeys(jong)|)
  {
    if jong.Some? {
      JongSplit(jong.value);
      var t := SplitJong(jong.value);
      assert s[m] == t[0];
      if |t| == 2 {
        assert s[m + 1] == t[1];
        FinalLetters(t[0], t[1]);
      } else if m + 1 < |s| && JongCombine(s[m], s[m + 1]).Some? {
        FinalLetters(s[m], s[m + 1]);
      }
    }
  }

  lemma FreshText(w: string, k: nat, s: string, i: nat)
    requires TypableText(w) && k <= |w| && i <= |s| && s[i..] == KeysAll(w[k..])
    ensures FreshStart(s, i)
  {
    if k < |w| {
      var n := |Keys(w[k])|;
      assert s[i..i + n] == s[i..][..n] == Keys(w[k]);
      FreshKeys(w[k], s, i);
    } else {
      EndIsFresh(s);
    }
  }

  lemma EndIsFresh(s: string)
    ensures FreshStart(s, |s|)
  {
  }

  lemma {:induction false} ComposesTyped(w: string, k: nat, s: string, i: nat)
    requires TypableText(w) && k <= |w| && i <= |s| && s[i..] == KeysAll(w[k..])
    ensures Compose(s, i) == w[k..]
    decreases |w| - k
  {
    hide Typable, Keys, FreshStart, NextBlock;
    if k < |w| {
      var n := |Keys(w[k])|;
      assert s[i..i + n] == s[i..][..n] == Keys(w[k]);
      assert s[i + n..] == s[i..][n..] == KeysAll(w[k + 1..]);
      KeysNonempty(w[k]);
      FreshText(w, k + 1, s, i + n);
      FreshKeys(w[k], s, i);
      ReadsTyped(w[k], s, i);
      ComposesTyped(w, k + 1, s, i + n);
    }
  }

  lemma ReadsTyped(c: char, s: string, i: nat)
    requires Typable(c) && i + |Keys(c)| <= |s| && s[i..i + |Keys(c)|] == Keys(c)
    requires i < |s| && FreshStart(s, i) && FreshStart(s, i + |Keys(c)|)
    ensures NextBlock(s, i) == Block(c, i + |Keys(c)|)
  {
    if IsSyllable(c) {
      ReadsSyllable(c, s, i);
    } else {
      assert s[i] == Keys(c)[0] == c;
    }
  }

  lemma TypedLetters(w: string)
    requires TypableText(w)
    ensures Letters(KeysAll(w)) == KeysAll(w)
  {
    NoBlankKeys(w);
    LettersAll(KeysAll(w));
  }

  lemma {:induction false} NoBlankKeys(w: string)
    requires TypableText(w)
    ensures ' ' !in KeysAll(w) && '|' !in KeysAll(w)
  {
    if w != [] {
      NoBlankKey(w[0]);
      NoBlankKeys(w[1..]);
    }
  }

  lemma NoBlankKey(c: char)
    requires Typable(c)
    ensures ' ' !in Keys(c) && '|' !in Keys(c)
  {
    if IsSyllable(c) {
      JungLetters(JungOf(c));
      if JongOf(c).Some? {
        JongLetters(JongOf(c).value);
      }
    }
  }

  lemma JungLetters(c: char)
    requires IsJung(c)
    ensures forall k :: 0 <= k < |SplitJung(c)| ==> 'ㅏ' <= SplitJung(c)[k] <= 'ㅣ'
  {
  }

  lemma JongLetters(c: char)
    requires IsJong(c)
    ensures forall k :: 0 <= k < |SplitJong(c)| ==> 'ㄱ' <= SplitJong(c)[k] <= 'ㅎ'
  {
  }

  /** Typing any text and composing the keystrokes gives that text back. */
  lemma {:induction false} RoundTrip(w: string)
    requires TypableText(w)
    ensures ComposeQuery(KeysAll(w)) == w
  {
    TypedLetters(w);
    assert KeysAll(w)[0..] == KeysAll(w) && w[0..] == w;
    ComposesTyped(w, 0, KeysAll(w), 0);
  }

  /** So two different texts are never typed alike. */
  lemma {:induction false} TypingIsInjective(v: string, w: string)
    requires TypableText(v) && TypableText(w) && KeysAll(v) == KeysAll(w)
    ensures v == w
  {
    RoundTrip(v);
    RoundTrip(w);
  }

  // ------------------------------------------------------------------
  // Blanks and bars
  // ------------------------------------------------------------------

  lemma {:induction false} LettersConcat(a: string, b: string)
    ensures Letters(a + b) == Letters(a) + Letters(b)
  {
    if a == [] {
      assert a + b == b;
    } else {
      assert (a + b)[1..] == a[1..] + b;
      LettersConcat(a[1..], b);
    }
  }

  lemma DropsOne(a: string, b: string, c: char)
    requires c == ' ' || c == '|'
    ensures Letters(a + [c] + b) == Letters(a + b)
  {
    LettersConcat(a, b);
    LettersConcat(a, [c] + b);
    assert ([c] + b)[1..] == b && a + [c] + b == a + ([c] + b);
  }

  /** A blank or a bar anywhere in a query makes no difference. */
  lemma BlanksMakeNoDifference(a: string, b: string)
    ensures ComposeQuery(a + " " + b) == ComposeQuery(a + "|" + b) == ComposeQuery(a + b)
  {
    hide Compose, Letters;
    DropsOne(a, b, ' ');
    DropsOne(a, b, '|');
  }

  /** The query is `keys` with blanks and bars put in anywhere. */
  predicate Spaced(query: string, keys: string) {
    if query == [] then keys == []
    else
      || ((query[0] == ' ' || query[0] == '|') && Spaced(query[1..], keys))
      || (keys != [] && query[0] == keys[0] && Spaced(query[1..], keys[1..]))
  }

  lemma {:induction false} SpacedLetters(query: string, keys: string)
    requires Spaced(query, keys) && ' ' !in keys && '|' !in keys
    ensures Letters(query) == keys
  {
    if query != [] {
      if query[0] == ' ' || query[0] == '|' {
        SpacedLetters(query[1..], keys);
      } else {
        SpacedLetters(query[1..], keys[1..]);
      }
    }
  }

  /** The round trip, however the keystrokes are spaced. */
  lemma SpacedRoundTrip(w: string, query: string)
    requires TypableText(w) && Spaced(query, KeysAll(w))
    ensures ComposeQuery(query) == w
  {
    NoBlankKeys(w);
    SpacedLetters(query, KeysAll(w));
    TypedLetters(w);
    RoundTrip(w);
  }

  // ------------------------------------------------------------------
  // What the output looks like
  // ------------------------------------------------------------------

  /** No vowel survives on its own, and a syllable comes out only where a vowel or a syllable went in. */
  lemma {:induction false} OutputLetters(s: string, i: nat)
    requires i <= |s|
    ensures forall c :: c in Compose(s, i) ==> !IsJung(c)
    ensures forall c :: c in Compose(s, i) ==> IsSyllable(c) || c in s[i..]
    ensures (exists c :: c in Compose(s, i) && IsSyllable(c))
       <==> (exists j :: i <= j < |s| && (IsJung(s[j]) || IsSyllable(s[j])))
    decreases |s| - i
  {
    if i < |s| {
      var b := NextBlock(s, i);
      OutputLetters(s, b.next);
      BlockLetters(s, i);
      var rest := Compose(s, b.next);
      assert Compose(s, i) == [b.out] + rest;
      forall c | c in Compose(s, i) ensures !IsJung(c) && (IsSyllable(c) || c in s[i..]) {
        if c == b.out {
          assert s[i] in s[i..];
        } else {
          assert c in rest;
          if c in s[b.next..] {
            var j :| 0 <= j < |s[b.next..]| && s[b.next..][j] == c;
            assert s[i..][b.next - i + j] == c;
          }
        }
      }
      if exists j :: i <= j < |s| && (IsJung(s[j]) || IsSyllable(s[j])) {
        var j :| i <= j < |s| && (IsJung(s[j]) || IsSyllable(s[j]));
        if j < b.next {
          assert b.out in Compose(s, i);
        } else {
          var c :| c in rest && IsSyllable(c);
          assert c in Compose(s, i);
        }
      }
      if exists c :: c in Compose(s, i) && IsSyllable(c) {
        var c :| c in Compose(s, i) && IsSyllable(c);
        if c != b.out {
          assert c in rest;
        }
      }
    }
  }

  lemma BlockLetters(s: string, i: nat)
    requires i < |s|
    ensures var b := NextBlock(s, i);
            !IsJung(b.out) && (IsSyllable(b.out) || b.out == s[i])
    ensures var b := NextBlock(s, i);
            IsSyllable(b.out) <==> exists j :: i <= j < b.next && (IsJung(s[j]) || IsSyllable(s[j]))
  {
    var b := NextBlock(s, i);
    if IsJung(s[i]) {
    } else if IsCho(s[i]) && JungAt(s, i + 1) {
      assert IsJung(s[i + 1]);
    }
  }

  /** Composing what was already composed changes nothing. */
  lemma {:induction false} ComposeIdempotent(query: string)
    ensures ComposeQuery(ComposeQuery(query)) == ComposeQuery(query)
  {
    var s := Letters(query);
    var out := ComposeQuery(query);
    OutputLetters(s, 0);
    assert s[0..] == s;
    LettersAll(out);
    NoVowelNoBlock(out, 0);
    assert out[0..] == out;
  }

  lemma {:induction false} NoVowelNoBlock(s: string, i: nat)
    requires i <= |s| && forall c :: c in s ==> !IsJung(c)
    ensures Compose(s, i) == s[i..]
    decreases |s| - i
  {
    if i < |s| {
      NoVowelNoBlock(s, i + 1);
      assert s[i] in s && (i + 1 < |s| ==> s[i + 1] in s);
      assert s[i..] == [s[i]] + s[i + 1..];
    }
  }
}
