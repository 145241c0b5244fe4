/** sanitize_text and sanitize_for_opensearch (app/common/utils.py:29-43, 101-134). */
module Sanitizer {
  import opened Text
  import opened Hangul

  /** The control characters that JSON refuses; tab, line feed and carriage return stay. */
  predicate IsJsonControl(c: char) {
    var n := c as int;
    0 <= n <= 8 || n == 0x0B || n == 0x0C || 0x0E <= n <= 0x1F || n == 0x7F
  }

  predicate Allowed(c: char) {
    || IsSyllable(c) || 'ㄱ' <= c <= 'ㅎ' || IsJung(c)
    || 'a' <= c <= 'z' || 'A' <= c <= 'Z' || '0' <= c <= '9' || IsSpace(c)
    || c in {'.', ',', '!', '?', ';', ':', '(', ')', '"', '\'', '-', '[', ']', '<', '>', '+', '_'}
  }

  function BlankControls(s: string): (r: string)
    ensures |r| == |s|
    ensures forall i :: 0 <= i < |s| ==> r[i] == if IsJsonControl(s[i]) then ' ' else s[i]
  {
    seq(|s|, i requires 0 <= i < |s| => if IsJsonControl(s[i]) then ' ' else s[i])
  }

  function KeepAllowed(s: string): string {
    if s == [] then []
    else (if Allowed(s[0]) then [s[0]] else []) + KeepAllowed(s[1..])
  }

  /** re.sub(r' +', ' ', s) */
  function CollapseBlanks(s: string): string {
    if s == [] then []
    else if s[0] == ' ' && |s| > 1 && s[1] == ' ' then CollapseBlanks(s[1..])
    else [s[0]] + CollapseBlanks(s[1..])
  }

  function SanitizeText(s: string): string {
    Strip(CollapseBlanks(KeepAllowed(BlankControls(s))))
  }

  // ------------------------------------------------------------------
  // Clean text, said without the passes
  // ------------------------------------------------------------------

  ghost predicate Harmless(s: string) {
    forall i :: 0 <= i < |s| ==> Allowed(s[i]) && !IsJsonControl(s[i])
  }

  ghost predicate NoDoubleBlank(s: string) {
    forall i, j :: 0 <= i < j < |s| && j == i + 1 ==> !(s[i] == ' ' && s[j] == ' ')
  }

  ghost predicate Clean(s: string) {
    && Harmless(s)
    && NoDoubleBlank(s)
    && (s != [] ==> !IsSpace(s[0]) && !IsSpace(s[|s| - 1]))
  }

  /** The characters a reader sees: allowed, not a control, not white space. */
  function Visible(s: string): string {
    if s == [] then []
    else (if Allowed(s[0]) && !IsJsonControl(s[0]) && !IsSpace(s[0]) then [s[0]] else []) + Visible(s[1..])
  }

  lemma KeepHarmless(s: string)
    requires forall i :: 0 <= i < |s| ==> !IsJsonControl(s[i])
    ensures Harmless(KeepAllowed(s))
  {
  }

  lemma CollapseFacts(s: string)
    ensures Harmless(s) ==> Harmless(CollapseBlanks(s))
    ensures NoDoubleBlank(CollapseBlanks(s))
    ensures CollapseBlanks(s) == [] <==> s == []
    ensures s != [] ==> CollapseBlanks(s)[0] == s[0]
  {
    if s != [] {
      CollapseFacts(s[1..]);
      var r := CollapseBlanks(s[1..]);
      if !(s[0] == ' ' && |s| > 1 && s[1] == ' ') {
        assert CollapseBlanks(s) == [s[0]] + r;
      }
    }
  }

  lemma StripIsSlice(s: string) returns (a: nat, b: nat)
    ensures a <= b <= |s| && Strip(s) == s[a..b]
    ensures AllSpace(s[..a]) && AllSpace(s[b..])
  {
    var t := LStrip(s);
    var r := RStrip(t);
    a := |s| - |t|;
    b := a + |r|;
    assert s[a..b] == t[..|r|];
    assert s[b..] == t[|r|..];
  }

  lemma NoDoubleBlankSlice(s: string, a: nat, b: nat)
    requires a <= b <= |s| && NoDoubleBlank(s)
    ensures NoDoubleBlank(s[a..b])
  {
  }

  lemma StrippedIsClean(c: string)
    requires Harmless(c) && NoDoubleBlank(c)
    ensures Clean(Strip(c))
  {
    hide IsJsonControl, Allowed, IsSpace, AllSpace, Strip, NoDoubleBlank;
    var a, b := StripIsSlice(c);
    NoDoubleBlankSlice(c, a, b);
  }

  /** Whatever goes in, what comes out is clean. */
  lemma {:induction false} SanitizedIsClean(s: string)
    ensures Clean(SanitizeText(s))
  {
    assert !IsJsonControl(' ');
    hide IsJsonControl, Allowed, IsSpace, KeepAllowed, CollapseBlanks, Strip, Clean, NoDoubleBlank;
    var t := BlankControls(s);
    KeepHarmless(t);
    CollapseFacts(KeepAllowed(t));
    StrippedIsClean(CollapseBlanks(KeepAllowed(t)));
  }

  lemma {:induction false} KeepAllAllowed(s: string)
    requires forall i :: 0 <= i < |s| ==> Allowed(s[i])
    ensures KeepAllowed(s) == s
  {
    if s != [] {
      KeepAllAllowed(s[1..]);
    }
  }

  lemma {:induction false} CollapseNothing(s: string)
    requires NoDoubleBlank(s)
    ensures CollapseBlanks(s) == s
  {
    if s != [] {
      assert NoDoubleBlank(s[1..]) by {
        NoDoubleBlankSlice(s, 1, |s|);
      }
      CollapseNothing(s[1..]);
    }
  }

  /** Clean text is exactly the text the sanitiser leaves alone. */
  lemma FixedPointsAreClean(s: string)
    ensures SanitizeText(s) == s <==> Clean(s)
  {
    SanitizedIsClean(s);
    if Clean(s) {
      assert BlankControls(s) == s;
      KeepAllAllowed(s);
      CollapseNothing(s);
    }
  }

  lemma SanitizeIdempotent(s: string)
    ensures SanitizeText(SanitizeText(s)) == SanitizeText(s)
  {
    SanitizedIsClean(s);
    FixedPointsAreClean(SanitizeText(s));
  }

  lemma {:induction false} VisibleConcat(s: string, t: string)
    ensures Visible(s + t) == Visible(s) + Visible(t)
  {
    if s == [] {
      assert s + t == t;
    } else {
      assert (s + t)[1..] == s[1..] + t;
      VisibleConcat(s[1..], t);
    }
  }

  lemma {:induction false} SpaceIsInvisible(s: string)
    requires AllSpace(s)
    ensures Visible(s) == []
  {
    if s != [] {
      SpaceIsInvisible(s[1..]);
    }
  }

  lemma {:induction false} PassesKeepVisible(s: string)
    ensures Visible(KeepAllowed(BlankControls(s))) == Visible(s)
  {
    if s != [] {
      assert BlankControls(s)[1..] == BlankControls(s[1..]);
      PassesKeepVisible(s[1..]);
      var t := BlankControls(s);
      VisibleConcat(if Allowed(t[0]) then [t[0]] else [], KeepAllowed(t[1..]));
    }
  }

  lemma {:induction false} CollapseKeepsVisible(s: string)
    ensures Visible(CollapseBlanks(s)) == Visible(s)
  {
    if s != [] {
      CollapseKeepsVisible(s[1..]);
      VisibleConcat([s[0]], CollapseBlanks(s[1..]));
    }
  }

  /** Sanitising only touches blanks and refused characters: what can be seen stays, in order. */
  lemma SanitizeKeepsVisible(s: string)
    ensures Visible(SanitizeText(s)) == Visible(s)
  {
    hide Visible, KeepAllowed, BlankControls, CollapseBlanks, IsSpace, Strip;
    PassesKeepVisible(s);
    var c := CollapseBlanks(KeepAllowed(BlankControls(s)));
    CollapseKeepsVisible(KeepAllowed(BlankControls(s)));
    var a, b := StripIsSlice(c);
    assert c == c[..a] + c[a..b] + c[b..];
    VisibleConcat(c[..a] + c[a..b], c[b..]);
    VisibleConcat(c[..a], c[a..b]);
    SpaceIsInvisible(c[..a]);
    SpaceIsInvisible(c[b..]);
  }

  lemma CleanTextShows(s: string)
    requires Clean(s) && s != []
    ensures Visible(s) != []
  {
  }

  /** White space alone leaves nothing. */
  lemma BlankBecomesEmpty(s: string)
    requires AllSpace(s)
    ensures SanitizeText(s) == []
  {
    SpaceIsInvisible(s);
    SanitizeKeepsVisible(s);
    SanitizedIsClean(s);
    if SanitizeText(s) != [] {
      CleanTextShows(SanitizeText(s));
    }
  }

  // ------------------------------------------------------------------
  // The sanitiser as rules that lead to clean text
  // ------------------------------------------------------------------

  /** What is kept, by code: Hangul syllables and letters, ASCII letters and digits, white space and these marks. */
  lemma AllowedIs(c: char)
    ensures Allowed(c) <==>
              || 0xAC00 <= c as int <= 0xD7A3 || 0x3131 <= c as int <= 0x314E || 0x314F <= c as int <= 0x3163
              || 65 <= c as int <= 90 || 97 <= c as int <= 122 || 48 <= c as int <= 57 || IsSpace(c)
              || c in ".,!?;:()\"'-[]<>+_"
    ensures IsJsonControl(c) <==>
              (c as int < 32 && c !in "\t\n\r") || c as int == 127
  {
    var marks := ".,!?;:()\"'-[]<>+_";
    assert marks[0] == '.' && marks[1] == ',' && marks[2] == '!' && marks[3] == '?' && marks[4] == ';' && marks[5] == ':';
    assert marks[6] == '(' && marks[7] == ')' && marks[8] == '"' && marks[9] == '\'' && marks[10] == '-' && marks[11] == '[';
    assert marks[12] == ']' && marks[13] == '<' && marks[14] == '>' && marks[15] == '+' && marks[16] == '_';
  }

  /** The first two passes go character by character. */
  lemma {:induction false} PassesConcat(s: string, t: string)
    ensures KeepAllowed(BlankControls(s + t)) == KeepAllowed(BlankControls(s)) + KeepAllowed(BlankControls(t))
  {
    assert BlankControls(s + t) == BlankControls(s) + BlankControls(t);
    KeepAllowedConcat(BlankControls(s), BlankControls(t));
  }

  lemma {:induction false} KeepAllowedConcat(s: string, t: string)
    ensures KeepAllowed(s + t) == KeepAllowed(s) + KeepAllowed(t)
  {
    hide Allowed;
    if s == [] {
      assert s + t == t;
    } else {
      KeepAllowedConcat(s[1..], t);
      var head, u := if Allowed(s[0]) then [s[0]] else [], s + t;
      assert u[0] == s[0] && u[1..] == s[1..] + t;
      assert head + (KeepAllowed(s[1..]) + KeepAllowed(t)) == head + KeepAllowed(s[1..]) + KeepAllowed(t);
    }
  }

  lemma PassesOfOne(c: char)
    ensures KeepAllowed(BlankControls([c])) == if IsJsonControl(c) then " " else if Allowed(c) then [c] else ""
    ensures KeepAllowed(BlankControls("  ")) == "  "
  {
    var one, two := BlankControls([c]), BlankControls("  ");
    assert IsSpace(' ') && !IsJsonControl(' ');
    hide Allowed, IsJsonControl, IsSpace;
    assert one[1..] == [] && two == "  " && two[1..] == " " && two[1..][1..] == [];
    assert Allowed(' ');
    assert KeepAllowed(two[1..]) == " ";
  }

  lemma {:induction false} CollapseTwo(x: string, y: string)
    ensures CollapseBlanks(x + "  " + y) == CollapseBlanks(x + " " + y)
  {
    var s, t := x + "  " + y, x + " " + y;
    if x == [] {
      assert s == "  " + y && t == " " + y && s[1..] == t;
    } else {
      assert s[1..] == x[1..] + "  " + y && t[1..] == x[1..] + " " + y;
      CollapseTwo(x[1..], y);
      assert |s| > 1 && |t| > 1 && s[1] == t[1];
    }
  }

  /** White space in front or behind comes out in front or behind, or not at all. */
  lemma {:induction false} CollapseEnd(s: string, c: char)
    ensures CollapseBlanks(s + [c]) == CollapseBlanks(s) || CollapseBlanks(s + [c]) == CollapseBlanks(s) + [c]
    ensures CollapseBlanks([c] + s) == CollapseBlanks(s) || CollapseBlanks([c] + s) == [c] + CollapseBlanks(s)
  {
    assert ([c] + s)[1..] == s;
    if s == [] {
      assert s + [c] == [c] && [c][1..] == [];
    } else {
      assert (s + [c])[1..] == s[1..] + [c];
      CollapseEnd(s[1..], c);
      if |s| == 1 {
        assert s[1..] == [] && CollapseBlanks(s) == s;
        assert s[1..] + [c] == [c] && [c][1..] == [] && CollapseBlanks([c]) == [c];
      }
    }
  }

  /**
   Refused characters go, controls count as blanks, blanks in a row as one, and white space at the
   ends goes. These rules bring any text to a clean one, which the sanitiser leaves alone.
   */
  lemma SanitizerRules(a: string, c: char, b: string)
    ensures !Allowed(c) && !IsJsonControl(c) ==> SanitizeText(a + [c] + b) == SanitizeText(a + b)
    ensures IsJsonControl(c) ==> SanitizeText(a + [c] + b) == SanitizeText(a + " " + b)
    ensures SanitizeText(a + "  " + b) == SanitizeText(a + " " + b)
  {
    PassesOfOne(c);
    PassesOfOne(' ');
    assert !IsJsonControl(' ') && Allowed(' ');
    hide KeepAllowed, BlankControls, CollapseBlanks, Strip, Allowed, IsJsonControl;
    PassesConcat(a, b);
    ThreePasses(a, [c], b);
    ThreePasses(a, " ", b);
    ThreePasses(a, "  ", b);
    var x, y := KeepAllowed(BlankControls(a)), KeepAllowed(BlankControls(b));
    assert x + "" + y == x + y;
    CollapseTwo(x, y);
  }

  lemma ThreePasses(a: string, m: string, b: string)
    ensures KeepAllowed(BlankControls(a + m + b))
         == KeepAllowed(BlankControls(a)) + KeepAllowed(BlankControls(m)) + KeepAllowed(BlankControls(b))
  {
    PassesConcat(a + m, b);
    PassesConcat(a, m);
  }

  lemma EndsAreDropped(s: string, c: char)
    requires IsSpace(c)
    ensures SanitizeText([c] + s) == SanitizeText(s) == SanitizeText(s + [c])
  {
    PassesOfOne(c);
    assert IsSpace(' ') && Allowed(c);
    hide KeepAllowed, BlankControls, CollapseBlanks, Strip, Allowed, IsJsonControl, IsSpace;
    PassesConcat([c], s);
    PassesConcat(s, [c]);
    EndsOfPasses(KeepAllowed(BlankControls(s)), if IsJsonControl(c) then ' ' else c);
  }

  lemma EndsOfPasses(t: string, c: char)
    requires IsSpace(c)
    ensures Strip(CollapseBlanks([c] + t)) == Strip(CollapseBlanks(t)) == Strip(CollapseBlanks(t + [c]))
  {
    CollapseEnd(t, c);
    SpaceOf(c);
    hide CollapseBlanks, Strip, IsSpace, AllSpace;
    var u := CollapseBlanks(t);
    StripDropsEnds("", u, [c]);
    StripDropsEnds([c], u, "");
    assert "" + u + [c] == u + [c] && [c] + u + "" == [c] + u;
  }

  // ------------------------------------------------------------------
  // Trees of values
  // ------------------------------------------------------------------

  /** What reaches sanitize_for_opensearch; `Bytes` carries its UTF-8 reading, `Opaque` its str(). */
  datatype Value =
    | Null
    | Str(s: string)
    | Bytes(utf8: string)
    | Bool(b: bool)
    | Int(n: int)
    | Float(finite: bool, x: real)
    | Dict(entries: seq<Entry>)
    | Sequence(values: seq<Value>)
    | Opaque(text: string)

  datatype Entry = Entry(key: string, value: Value)

  function SanitizeValue(v: Value): Value
    decreases v, 1
  {
    match v
    case Null => Null
    case Str(s) => Str(SanitizeText(s))
    case Bytes(s) => Str(SanitizeText(s))
    case Bool(_) => v
    case Int(_) => v
    case Float(finite, _) => if finite then v else Float(true, 0.0)
    case Dict(entries) => Dict(SanitizeEntries(entries))
    case Sequence(values) => Sequence(SanitizeValues(values))
    case Opaque(s) => Str(SanitizeText(s))
  }

  function SanitizeEntries(entries: seq<Entry>): seq<Entry>
    decreases entries, 0
  {
    if entries == [] then []
    else [Entry(entries[0].key, SanitizeValue(entries[0].value))] + SanitizeEntries(entries[1..])
  }

  function SanitizeValues(values: seq<Value>): seq<Value>
    decreases values, 0
  {
    if values == [] then [] else [SanitizeValue(values[0])] + SanitizeValues(values[1..])
  }

  /** Safe to send: every text leaf is clean, every number finite, nothing but JSON kinds. */
  ghost predicate Sendable(v: Value)
    decreases v
  {
    match v
    case Null => true
    case Str(s) => Clean(s)
    case Bytes(_) => false
    case Bool(_) => true
    case Int(_) => true
    case Float(finite, _) => finite
    case Dict(entries) => forall i :: 0 <= i < |entries| ==> Sendable(entries[i].value)
    case Sequence(values) => forall i :: 0 <= i < |values| ==> Sendable(values[i])
    case Opaque(_) => false
  }

  /** A text leaf shows what can be seen of the text. */
  ghost predicate ShowsText(w: Value, text: string) {
    w.Str? && Visible(w.s) == Visible(text)
  }

  /**
   Same tree, same keys in the same places. Texts, bytes and objects become texts that show the
   same; numbers and truth values stay, and what is no finite number becomes 0.
   */
  ghost predicate SameShape(v: Value, w: Value)
    decreases v
  {
    match v
    case Dict(entries) =>
      w.Dict? && |w.entries| == |entries|
      && forall i :: 0 <= i < |entries| ==>
           w.entries[i].key == entries[i].key && SameShape(entries[i].value, w.entries[i].value)
    case Sequence(values) =>
      w.Sequence? && |w.values| == |values|
      && forall i :: 0 <= i < |values| ==> SameShape(values[i], w.values[i])
    case Str(s) => ShowsText(w, s)
    case Bytes(s) => ShowsText(w, s)
    case Opaque(s) => ShowsText(w, s)
    case Float(finite, x) => w == if finite then v else Float(true, 0.0)
    case _ => w == v
  }

  lemma EntriesAt(entries: seq<Entry>)
    ensures |SanitizeEntries(entries)| == |entries|
    ensures forall i :: 0 <= i < |entries| ==>
              SanitizeEntries(entries)[i] == Entry(entries[i].key, SanitizeValue(entries[i].value))
  {
  }

  lemma ValuesAt(values: seq<Value>)
    ensures |SanitizeValues(values)| == |values|
    ensures forall i :: 0 <= i < |values| ==> SanitizeValues(values)[i] == SanitizeValue(values[i])
  {
  }

  lemma TextLeaf(s: string)
    ensures Clean(SanitizeText(s)) && Visible(SanitizeText(s)) == Visible(s)
  {
    SanitizedIsClean(s);
    SanitizeKeepsVisible(s);
  }

  lemma {:induction false} SanitizedTree(v: Value)
    ensures Sendable(SanitizeValue(v)) && SameShape(v, SanitizeValue(v))
    decreases v
  {
    hide SanitizeText, Clean, Visible;
    match v
    case Str(s) => TextLeaf(s);
    case Bytes(s) => TextLeaf(s);
    case Opaque(s) => TextLeaf(s);
    case Dict(entries) =>
      EntriesAt(entries);
      forall i | 0 <= i < |entries|
        ensures Sendable(SanitizeValue(entries[i].value)) && SameShape(entries[i].value, SanitizeValue(entries[i].value))
      {
        SanitizedTree(entries[i].value);
      }
    case Sequence(values) =>
      ValuesAt(values);
      forall i | 0 <= i < |values|
        ensures Sendable(SanitizeValue(values[i])) && SameShape(values[i], SanitizeValue(values[i]))
      {
        SanitizedTree(values[i]);
      }
    case _ =>
  }

  /** The trees the sanitiser returns unchanged are exactly the sendable ones. */
  lemma {:induction false} FixedTreesAreSendable(v: Value)
    ensures SanitizeValue(v) == v <==> Sendable(v)
    decreases v
  {
    SanitizedTree(v);
    if Sendable(v) {
      match v
      case Str(s) => FixedPointsAreClean(s);
      case Dict(entries) =>
        EntriesAt(entries);
        forall i | 0 <= i < |entries| ensures SanitizeValue(entries[i].value) == entries[i].value {
          FixedTreesAreSendable(entries[i].value);
        }
        assert SanitizeEntries(entries) == entries;
      case Sequence(values) =>
        ValuesAt(values);
        forall i | 0 <= i < |values| ensures SanitizeValue(values[i]) == values[i] {
          FixedTreesAreSendable(values[i]);
        }
        assert SanitizeValues(values) == values;
      case _ =>
    }
  }

  lemma SanitizeValueIdempotent(v: Value)
    ensures SanitizeValue(SanitizeValue(v)) == SanitizeValue(v)
  {
    SanitizedTree(v);
    FixedTreesAreSendable(SanitizeValue(v));
  }
}
