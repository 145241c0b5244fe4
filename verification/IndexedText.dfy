/**
 What a stored document says about its item (app/services/indexing_service.py:233-273). Every field
 is sanitised on the way in and again with the whole document; the second pass changes nothing.
 */
module IndexedText {
  import opened Wrappers
  import opened Text
  import opened Hangul
  import opened Sanitizer
  import opened Chosung
  import opened SearchIndex

  /** The initials of clean text are clean. */
  lemma InitialsAreClean(s: string)
    requires Clean(s)
    ensures Clean(Initials(s))
  {
    forall i | 0 <= i < |s|
      ensures Allowed(Initials(s)[i]) && !IsJsonControl(Initials(s)[i])
      ensures IsSpace(Initials(s)[i]) <==> IsSpace(s[i])
      ensures Initials(s)[i] == ' ' <==> s[i] == ' '
    {
      InitialStaysAllowed(s[i]);
    }
  }

  lemma InitialStaysAllowed(c: char)
    requires Allowed(c) && !IsJsonControl(c)
    ensures Allowed(ChosungOf(c)) && !IsJsonControl(ChosungOf(c))
    ensures (IsSpace(ChosungOf(c)) <==> IsSpace(c)) && (ChosungOf(c) == ' ' <==> c == ' ')
  {
    if IsSyllable(c) {
      ChoLettersInRange(ChosungOf(c));
    }
  }

  lemma ChoLettersInRange(c: char)
    requires IsCho(c)
    ensures 'ㄱ' <= c <= 'ㅎ'
  {
  }

  lemma {:induction false} DroppedAreThere(s: string)
    ensures forall c :: c in DropBlanks(s) ==> c in s
  {
    if s != [] {
      DroppedAreThere(s[1..]);
    }
  }

  lemma {:induction false} LastIsKept(s: string)
    requires s != [] && s[|s| - 1] != ' '
    ensures DropBlanks(s) != [] && DropBlanks(s)[|DropBlanks(s)| - 1] == s[|s| - 1]
  {
    if |s| > 1 {
      LastIsKept(s[1..]);
    }
  }

  lemma DroppedIsClean(s: string)
    requires Clean(s)
    ensures Clean(DropBlanks(s))
  {
    hide Allowed, IsJsonControl;
    DroppedAreThere(s);
    var d := DropBlanks(s);
    forall i | 0 <= i < |d| ensures Allowed(d[i]) && !IsJsonControl(d[i]) {
      assert d[i] in s;
    }
    if s != [] {
      LastIsKept(s);
    }
  }

  lemma BlankIsInvisible(s: string)
    ensures SanitizeText(s) == "" <==> Visible(s) == []
    ensures Strip(SanitizeText(s)) == "" <==> SanitizeText(s) == ""
  {
    SanitizedIsClean(s);
    SanitizeKeepsVisible(s);
    hide SanitizeText;
    if SanitizeText(s) != "" {
      hide Visible;
      CleanTextShows(SanitizeText(s));
    }
  }

  /** An item has a document exactly if its text shows something. */
  lemma DocExistsIff(item: Item, model: Model)
    ensures DocOf(item, model).Some? <==> Visible(item.text) != []
  {
    hide SanitizeText, Strip, Visible, MapCategory, Initials, DropBlanks;
    DocIsFull(item, model);
    BlankIsInvisible(item.text);
  }

  ghost predicate Has(name: string, word: string) {
    exists i: nat :: OccursAt(name, word, i)
  }

  /** Plans come before reports, and these before rules; each is told by its words in the file's name. */
  lemma CategoryIsFirstWord(name: string)
    ensures var plan, report := Has(name, "계획") || Has(name, "기획"), Has(name, "보고") || Has(name, "결과");
            var rule := Has(name, "규정") || Has(name, "지침") || Has(name, "가이드") || Has(name, "법규");
            && (MapCategory(name) == "PLAN" <==> plan)
            && (MapCategory(name) == "REPORT" <==> report && !plan)
            && (MapCategory(name) == "RULE" <==> rule && !plan && !report)
            && (MapCategory(name) == "OTHERS" <==> !plan && !report && !rule)
  {
    MentionsIsHas(name, "계획");
    MentionsIsHas(name, "기획");
    MentionsIsHas(name, "보고");
    MentionsIsHas(name, "결과");
    MentionsIsHas(name, "규정");
    MentionsIsHas(name, "지침");
    MentionsIsHas(name, "가이드");
    MentionsIsHas(name, "법규");
    hide Mentions, Has;
    assert |"PLAN"| == 4 && |"REPORT"| == 6 && |"RULE"| == 4 && |"OTHERS"| == 6;
    assert "PLAN"[0] == 'P' && "RULE"[0] == 'R' && "REPORT"[0] == 'R' && "OTHERS"[0] == 'O';
  }

  lemma MentionsIsHas(name: string, word: string)
    ensures Mentions(name, word) <==> Has(name, word)
  {
    hide OccursAt;
  }

  lemma CategoriesAreClean(name: string)
    ensures SanitizeText(MapCategory(name)) == MapCategory(name)
  {
    var c := MapCategory(name);
    assert Clean(c) by {
      assert forall i :: 0 <= i < |c| ==> 'A' <= c[i] <= 'Z';
    }
    FixedPointsAreClean(c);
  }

  /**
   A stored document holds the sanitised text and name of its item, the initials of exactly the
   text that is stored, position by position, and the embedding of its beginning.
   */
  lemma DocumentHoldsItem(item: Item, model: Model)
    requires DocOf(item, model).Some?
    ensures var d := DocOf(item, model).value;
            && d.allText == SanitizeText(item.text) && d.allText != []
            && d.originFile == SanitizeText(item.filename) && d.title == d.originFile
            && d.sourceLabel == SanitizeText(item.sourceLabel) && d.fileExt == SanitizeText(item.ext)
            && d.chosungText == Initials(d.allText) && d.chosungNgram == DropBlanks(d.chosungText)
            && d.vector == model.embed(if |d.allText| > 2000 then d.allText[..2000] else d.allText)
            && d.category == MapCategory(d.originFile)
            && d.contentHash == SanitizeText(if item.contentHash != "" then item.contentHash else model.digest(d.allText))
  {
    CategoriesAreClean(SanitizeText(item.filename));
    var body := SanitizeText(item.text);
    SanitizeIdempotent(item.text);
    SanitizeIdempotent(item.filename);
    SanitizeIdempotent(item.sourceLabel);
    SanitizedIsClean(item.text);
    InitialsAreClean(body);
    DroppedIsClean(Initials(body));
    FixedPointsAreClean(Initials(body));
    FixedPointsAreClean(DropBlanks(Initials(body)));
    hide SanitizeText, Initials, DropBlanks, MapCategory, Clean, Strip;
    DocumentFields(item, model);
  }

  lemma DocumentFields(item: Item, model: Model)
    requires DocOf(item, model).Some?
    ensures var d, body, name := DocOf(item, model).value, SanitizeText(item.text), SanitizeText(item.filename);
            && Strip(body) != [] && d.allText == SanitizeText(body) && d.originFile == d.title == SanitizeText(name)
            && d.sourceLabel == SanitizeText(SanitizeText(item.sourceLabel)) && d.fileExt == SanitizeText(item.ext)
            && d.chosungText == SanitizeText(Initials(body)) && d.chosungNgram == SanitizeText(DropBlanks(Initials(body)))
            && d.vector == model.embed(Prefix(d.allText)) && d.category == SanitizeText(MapCategory(name))
            && d.contentHash == SanitizeText(if item.contentHash != "" then item.contentHash else model.digest(body))
  {
    hide SanitizeText, Initials, DropBlanks, MapCategory, Strip;
    DocIsFull(item, model);
  }
}
