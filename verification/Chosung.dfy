/**
 Initial-consonant search: convert_to_chosung (app/common/utils.py:87-98) and the snippet
 that highlights a hit (app/services/search_service.py:58-77).
 */
module Chosung {
  import opened Wrappers
  import opened Hangul
  import opened HangulComposer
  import opened Text

  const CONTEXT := 60
  const ELLIPSIS := "..."
  const OPEN_MARK := "<mark>"
  const CLOSE_MARK := "</mark>"

  function ChosungOf(c: char): char {
    if IsSyllable(c) then ChoLetter((c as int - FIRST_SYLLABLE) / 588) else c
  }

  function Initials(text: string): (r: string)
    ensures |r| == |text|
  {
    seq(|text|, i requires 0 <= i < |text| => ChosungOf(text[i]))
  }

  method ConvertToChosung(text: string) returns (r: string)
    ensures r == Initials(text)
  {
    r := [];
    for i := 0 to |text|
      invariant r == Initials(text)[..i]
    {
      var code := text[i] as int;
      if 0xAC00 <= code <= 0xD7A3 {
        r := r + [ChoLetter((code - 0xAC00) / 588)];
      } else {
        r := r + [text[i]];
      }
    }
  }

  /** Dividing by 588 undoes the composer's packing formula. */
  lemma InitialOfComposed(cho: char, jung: char, jong: Option<char>)
    requires IsCho(cho) && IsJung(jung)
    ensures ChosungOf(Syllable(cho, jung, jong)) == cho
  {
    UnpackPack(cho, jung, jong);
  }

  lemma InitialsIdempotent(text: string)
    ensures Initials(Initials(text)) == Initials(text)
  {
    forall i | 0 <= i < |text| ensures ChosungOf(ChosungOf(text[i])) == ChosungOf(text[i]) {
      if IsSyllable(text[i]) {
        assert IsCho(ChosungOf(text[i]));
      }
    }
  }

  /** Outside lone vowels, the initial of a character is the first key one presses for it. */
  lemma InitialIsFirstKey(c: char)
    requires !IsJung(c)
    ensures ChosungOf(c) == Keys(c)[0]
  {
  }

  /** A query typed letter by letter and then composed has the initials of the text it spells. */
  lemma TypedInitials(w: string)
    requires TypableText(w)
    ensures |Initials(ComposeQuery(KeysAll(w)))| == |w|
    ensures forall i :: 0 <= i < |w| ==> Initials(ComposeQuery(KeysAll(w)))[i] == Keys(w[i])[0]
  {
    RoundTrip(w);
    forall i | 0 <= i < |w| ensures ChosungOf(w[i]) == Keys(w[i])[0] {
      InitialIsFirstKey(w[i]);
    }
  }

  function WindowStart(start: nat): nat {
    if start > CONTEXT then start - CONTEXT else 0
  }

  function WindowEnd(text: string, end: nat): nat {
    if end + CONTEXT < |text| then end + CONTEXT else |text|
  }

  function MakeSnippet(text: string, start: nat, end: nat): string
    requires start <= end <= |text|
  {
    var from, to := WindowStart(start), WindowEnd(text, end);
    (if from > 0 then ELLIPSIS else []) + text[from..start]
    + OPEN_MARK + text[start..end] + CLOSE_MARK
    + text[end..to] + (if to < |text| then ELLIPSIS else [])
  }

  /** None stands for the source's None snippet. */
  function HighlightChosung(text: string, keyword: string): Option<string> {
    if text == [] || keyword == [] then None else MarkFirst(text, SearchKeyword(keyword))
  }

  function SearchKeyword(keyword: string): string {
    DropBlanks(Strip(keyword))
  }

  function MarkFirst(text: string, kw: string): Option<string> {
    match Find(Initials(text), kw)
    case None => None
    case Some(i) => Some(MakeSnippet(text, i, i + |kw|))
  }

  /**
   A snippet is one contiguous window of the text, at most 60 characters either side of the
   hit and clipped only at the ends of the text, with the tags and ellipses put around it.
   */
  lemma SnippetIsContiguous(text: string, start: nat, end: nat)
    requires start <= end <= |text|
    ensures var from, to := WindowStart(start), WindowEnd(text, end);
            && from <= start && end <= to <= |text|
            && start - from <= 60 && to - end <= 60
            && (start - from < 60 ==> from == 0) && (to - end < 60 ==> to == |text|)
    ensures var from, to := WindowStart(start), WindowEnd(text, end);
            var window, hit, after := text[from..to], start - from, end - from;
            MakeSnippet(text, start, end)
            == (if window == text[..to] then "" else "...") + window[..hit] + "<mark>" + window[hit..after] + "</mark>"
               + window[after..] + (if to == |text| then "" else "...")
  {
    WindowBounds(text, start, end);
    var from, to := WindowStart(start), WindowEnd(text, end);
    WindowPieces(text, from, start, end, to);
    hide WindowStart, WindowEnd;
    assert |text[..to]| == to && |text[from..to]| == to - from;
  }

  lemma WindowBounds(text: string, start: nat, end: nat)
    requires start <= end <= |text|
    ensures var from, to := WindowStart(start), WindowEnd(text, end);
            && from <= start && end <= to <= |text|
            && start - from <= 60 && to - end <= 60
            && (start - from < 60 ==> from == 0) && (to - end < 60 ==> to == |text|)
  {
  }

  lemma WindowPieces(text: string, from: nat, start: nat, end: nat, to: nat)
    requires from <= start <= end <= to <= |text|
    ensures text[from..to][..start - from] == text[from..start]
    ensures text[from..to][start - from..end - from] == text[start..end]
    ensures text[from..to][end - from..] == text[end..to]
  {
    var window := text[from..to];
    SubSlice(text, from, to, 0, start - from);
    SubSlice(text, from, to, start - from, end - from);
    SubSlice(text, from, to, end - from, |window|);
  }

  /** The stretch of original text from `i` on has the keyword as its initials. */
  predicate SpelledAt(text: string, keyword: string, i: nat) {
    i + |keyword| <= |text| && Initials(text[i..i + |keyword|]) == keyword
  }

  lemma InitialsOfStretch(text: string, keyword: string, i: nat)
    ensures OccursAt(Initials(text), keyword, i) <==> SpelledAt(text, keyword, i)
  {
    if i + |keyword| <= |text| {
      assert Initials(text)[i..i + |keyword|] == Initials(text[i..i + |keyword|]);
    }
  }

  /**
   The highlight is exact: it exists iff some stretch of the text has the keyword as its
   initials, and then it marks the first such stretch of the original text.
   */
  lemma HighlightIsExact(text: string, keyword: string)
    requires text != [] && keyword != []
    ensures HighlightChosung(text, keyword).Some? <==> exists i: nat :: SpelledAt(text, SearchKeyword(keyword), i)
    ensures forall i: nat :: FirstSpelledAt(text, SearchKeyword(keyword), i) ==>
              HighlightChosung(text, keyword) == Some(MakeSnippet(text, i, i + |SearchKeyword(keyword)|))
  {
    hide SearchKeyword, MakeSnippet, SpelledAt;
    FirstStretchIsMarked(text, SearchKeyword(keyword));
  }

  /** A keyword is looked for without the white space around it and without any blank inside. */
  lemma KeywordIsTrimmed(before: string, words: string, after: string, a: string, b: string)
    requires AllSpace(before) && AllSpace(after) && words == a + b
    requires words != [] ==> !IsSpace(words[0]) && !IsSpace(words[|words| - 1])
    ensures SearchKeyword(before + words + after) == DropBlanks(a) + DropBlanks(b)
    ensures |a| == 1 ==> DropBlanks(a) == if a[0] == ' ' then [] else a
  {
    var s, i, j := before + words + after, |before|, |before| + |words|;
    assert s[..i] == before && s[j..] == after && s[i..j] == words;
    StripIsMiddle(s, i, j);
    DropBlanksFilters(a, b);
  }

  predicate FirstSpelledAt(text: string, kw: string, i: nat) {
    SpelledAt(text, kw, i) && forall j: nat :: j < i ==> !SpelledAt(text, kw, j)
  }

  lemma FirstStretchIsMarked(text: string, kw: string)
    ensures MarkFirst(text, kw).Some? <==> exists i: nat :: SpelledAt(text, kw, i)
    ensures forall i: nat :: FirstSpelledAt(text, kw, i) ==> MarkFirst(text, kw) == Some(MakeSnippet(text, i, i + |kw|))
  {
    hide MakeSnippet, SpelledAt;
    FindsFirstStretch(text, kw);
    var found := Find(Initials(text), kw);
    forall i: nat | found.Some? && FirstSpelledAt(text, kw, i) ensures i == found.value {
      assert SpelledAt(text, kw, found.value);
    }
  }

  lemma FindsFirstStretch(text: string, kw: string)
    ensures match Find(Initials(text), kw)
            case None => forall i: nat :: !SpelledAt(text, kw, i)
            case Some(hit) => SpelledAt(text, kw, hit) && forall j: nat :: j < hit ==> !SpelledAt(text, kw, j)
  {
    forall i: nat ensures OccursAt(Initials(text), kw, i) <==> SpelledAt(text, kw, i) {
      InitialsOfStretch(text, kw, i);
    }
    hide OccursAt, SpelledAt;
    assert forall i: nat :: SpelledAt(text, kw, i) ==> OccursAt(Initials(text), kw, i);
  }
}
