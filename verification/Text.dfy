/** String primitives the services lean on: white space, strip, find, code-point order. */
module Text {
  import opened Wrappers

  /** str.isspace */
  predicate IsSpace(c: char) {
    var n := c as int;
    || 9 <= n <= 13 || 28 <= n <= 32 || n == 0x85 || n == 0xA0 || n == 0x1680
    || 0x2000 <= n <= 0x200A || n == 0x2028 || n == 0x2029 || n == 0x202F || n == 0x205F || n == 0x3000
  }

  /** Unicode's white space and the four information separators before the blank. */
  const WHITE_SPACE: seq<int> :=
    [9, 10, 11, 12, 13, 28, 29, 30, 31, 32, 133, 160, 5760, 8192, 8193, 8194, 8195, 8196, 8197, 8198, 8199, 8200, 8201,
     8202, 8232, 8233, 8239, 8287, 12288]

  lemma SpacesAre(c: char)
    ensures IsSpace(c) <==> c as int in WHITE_SPACE
  {
    if IsSpace(c) {
      var n := c as int;
      assert n == WHITE_SPACE[if n <= 13 then n - 9 else if n <= 32 then n - 23 else if n == 133 then 10
                              else if n == 160 then 11 else if n == 5760 then 12 else if n <= 8202 then n - 8179
                              else if n <= 8233 then n - 8208 else if n == 8239 then 26 else if n == 8287 then 27 else 28];
    }
  }

  predicate AllSpace(s: string) {
    forall i :: 0 <= i < |s| ==> IsSpace(s[i])
  }

  function LStrip(s: string): (r: string)
    ensures |r| <= |s| && r == s[|s| - |r|..] && AllSpace(s[..|s| - |r|])
    ensures r != [] ==> !IsSpace(r[0])
  {
    if s != [] && IsSpace(s[0]) then LStrip(s[1..]) else s
  }

  function RStrip(s: string): (r: string)
    ensures |r| <= |s| && r == s[..|r|] && AllSpace(s[|r|..])
    ensures r != [] ==> !IsSpace(r[|r| - 1])
  {
    if s != [] && IsSpace(s[|s| - 1]) then
      var t := RStrip(s[..|s| - 1]);
      assert forall i :: |t| <= i < |s| - 1 ==> s[i] == s[..|s| - 1][|t|..][i - |t|];
      t
    else s
  }

  /** str.strip: the slice of `s` without the white space at its two ends. */
  function Strip(s: string): (r: string)
    ensures r != [] ==> !IsSpace(r[0]) && !IsSpace(r[|r| - 1])
    ensures r == [] <==> AllSpace(s)
  {
    var t := LStrip(s);
    assert t != [] ==> s[|s| - |t|] == t[0];
    assert t == [] ==> s[..|s| - |t|] == s;
    RStrip(t)
  }

  /** str.replace(" ", "") */
  function DropBlanks(s: string): (r: string)
    ensures ' ' !in r
  {
    if s == [] then [] else (if s[0] == ' ' then [] else [s[0]]) + DropBlanks(s[1..])
  }

  /** Every blank goes and nothing else. */
  lemma {:induction false} DropBlanksFilters(s: string, t: string)
    ensures DropBlanks(s + t) == DropBlanks(s) + DropBlanks(t)
    ensures |s| == 1 ==> DropBlanks(s) == if s[0] == ' ' then [] else s
  {
    if s == [] {
      assert s + t == t;
    } else {
      assert (s + t)[1..] == s[1..] + t;
      DropBlanksFilters(s[1..], t);
    }
  }

  /** `Strip` is the middle of the text between white space at its ends. */
  lemma StripIsMiddle(s: string, a: nat, b: nat)
    requires a <= b <= |s| && AllSpace(s[..a]) && AllSpace(s[b..])
    requires a < b ==> !IsSpace(s[a]) && !IsSpace(s[b - 1])
    ensures Strip(s) == s[a..b]
  {
    hide IsSpace, AllSpace, LStrip, RStrip;
    if a == b {
      SpaceThroughout(s, a);
    } else {
      LStripIsTail(s, a);
      var tail := s[a..];
      assert tail[b - a..] == s[b..] && tail[..b - a] == s[a..b] && tail[b - a - 1] == s[b - 1];
      RStripIsHead(tail, b - a);
    }
  }

  lemma {:induction false} LStripConcat(s: string, t: string)
    ensures LStrip(s + t) == if AllSpace(s) then LStrip(t) else LStrip(s) + t
  {
    hide AllSpace, IsSpace;
    if s == [] {
      assert s + t == t;
      SpaceOf(' ');
    } else {
      var u := s + t;
      assert u[0] == s[0] && u[1..] == s[1..] + t && s == [s[0]] + s[1..];
      LStripConcat(s[1..], t);
      SpaceInParts([s[0]], s[1..]);
      SpaceOf(s[0]);
    }
  }

  lemma {:induction false} RStripConcat(s: string, t: string)
    ensures RStrip(s + t) == if AllSpace(t) then RStrip(s) else s + RStrip(t)
  {
    hide AllSpace, IsSpace;
    if t == [] {
      assert s + t == s;
      SpaceOf(' ');
    } else {
      var n := |t| - 1;
      var u := s + t;
      assert u[..|u| - 1] == s + t[..n] && u[|u| - 1] == t[n] && t == t[..n] + [t[n]];
      RStripConcat(s, t[..n]);
      SpaceInParts(t[..n], [t[n]]);
      SpaceOf(t[n]);
    }
  }

  /** More white space at the ends makes no difference. */
  lemma StripDropsEnds(before: string, s: string, after: string)
    requires AllSpace(before) && AllSpace(after)
    ensures Strip(before + s + after) == Strip(s)
  {
    hide IsSpace, AllSpace, LStrip, RStrip;
    LStripConcat(before + s, after);
    LStripConcat(before, s);
    if AllSpace(before + s) {
      StripsToNothing(before, s, after);
    } else {
      RStripConcat(LStrip(s), after);
      SpaceInParts(before, s);
    }
  }

  lemma SpaceOf(c: char)
    ensures AllSpace("") && (AllSpace([c]) <==> IsSpace(c))
  {
    hide IsSpace;
    assert [c][0] == c;
  }

  lemma SpaceInParts(a: string, b: string)
    ensures AllSpace(a + b) <==> AllSpace(a) && AllSpace(b)
  {
    hide IsSpace;
    if AllSpace(a + b) {
      forall i | 0 <= i < |a| ensures IsSpace(a[i]) {
        assert a[i] == (a + b)[i];
      }
      forall i | 0 <= i < |b| ensures IsSpace(b[i]) {
        assert b[i] == (a + b)[|a| + i];
      }
    }
  }

  lemma StripsToNothing(before: string, s: string, after: string)
    requires AllSpace(before + s) && AllSpace(after)
    ensures Strip(before + s + after) == [] == Strip(s)
  {
    hide IsSpace, AllSpace;
    SpaceInParts(before, s);
    SpaceInParts(before + s, after);
  }

  lemma SpaceThroughout(s: string, a: nat)
    requires a <= |s| && AllSpace(s[..a]) && AllSpace(s[a..])
    ensures AllSpace(s)
  {
    hide IsSpace;
    forall i | 0 <= i < |s| ensures IsSpace(s[i]) {
      assert if i < a then s[i] == s[..a][i] else s[i] == s[a..][i - a];
    }
  }

  lemma {:induction false} LStripIsTail(s: string, a: nat)
    requires a < |s| && AllSpace(s[..a]) && !IsSpace(s[a])
    ensures LStrip(s) == s[a..]
  {
    if a > 0 {
      assert s[0] == s[..a][0];
      var lead := s[..a];
      assert s[1..][..a - 1] == lead[1..];
      LStripIsTail(s[1..], a - 1);
    }
  }

  lemma {:induction false} RStripIsHead(s: string, b: nat)
    requires 0 < b <= |s| && AllSpace(s[b..]) && !IsSpace(s[b - 1])
    ensures RStrip(s) == s[..b]
  {
    if b < |s| {
      var n := |s| - 1;
      assert s[n] == s[b..][n - b];
      assert forall i :: 0 <= i < n - b ==> s[..n][b..][i] == s[b..][i];
      RStripIsHead(s[..n], b);
    }
  }

  lemma SubSlice<T>(s: seq<T>, a: nat, b: nat, i: nat, j: nat)
    requires a <= b <= |s| && i <= j <= b - a
    ensures s[a..b][i..j] == s[a + i..a + j]
  {
    var t := s[a..b];
    forall k | 0 <= k < j - i ensures t[i..j][k] == s[a + i..a + j][k] {
      assert t[i + k] == s[a + (i + k)];
    }
  }

  predicate OccursAt(text: string, pattern: string, i: nat) {
    i + |pattern| <= |text| && text[i..i + |pattern|] == pattern
  }

  /** str.find: the first place the pattern occurs. */
  function Find(text: string, pattern: string, from: nat := 0): (r: Option<nat>)
    requires from <= |text|
    ensures r.Some? ==> from <= r.value && OccursAt(text, pattern, r.value)
    ensures r.Some? ==> forall j :: from <= j < r.value ==> !OccursAt(text, pattern, j)
    ensures r.None? ==> forall j :: from <= j ==> !OccursAt(text, pattern, j)
    decreases |text| - from
  {
    if OccursAt(text, pattern, from) then Some(from)
    else if from == |text| then None
    else Find(text, pattern, from + 1)
  }

  /** `<=` on Python strings: code point by code point, a prefix first. */
  predicate CodePointLe(a: string, b: string) {
    if a == [] then true
    else if b == [] then false
    else if a[0] != b[0] then a[0] < b[0]
    else CodePointLe(a[1..], b[1..])
  }

  predicate CodePointLt(a: string, b: string) {
    !CodePointLe(b, a)
  }

  lemma CodePointRefl(a: string)
    ensures CodePointLe(a, a)
  {
  }

  lemma CodePointTotal(a: string, b: string)
    ensures CodePointLe(a, b) || CodePointLe(b, a)
    ensures CodePointLe(a, b) && CodePointLe(b, a) ==> a == b
  {
    if a != [] && b != [] && a[0] == b[0] {
      CodePointTotal(a[1..], b[1..]);
      assert a == [a[0]] + a[1..] && b == [b[0]] + b[1..];
    }
  }

  lemma CodePointTrans(a: string, b: string, c: string)
    requires CodePointLe(a, b) && CodePointLe(b, c)
    ensures CodePointLe(a, c)
  {
    if a != [] && a[0] == b[0] && b[0] == c[0] {
      CodePointTrans(a[1..], b[1..], c[1..]);
    }
  }
}
