/**
 The record loop of the HWP 5.0 parser (app/core/file/hwp.py:73-113).

 A section is a run of records: a little-endian 32-bit header holding a 10-bit tag, a
 10-bit level and a 12-bit size, where size 0xFFF announces a second 32-bit word with the
 real size (the data-record section of Hancom's HWP 5.0 format). `Encode` writes records;
 the loop of the source reads them.
 */
module HwpReader {
  import opened Wrappers
  import opened Text
  import opened Hangul

  type Byte = b: int | 0 <= b < 256

  const PARA_TEXT := 67
  const WIDE_SIZE := 0xFFF

  /** `wide` tells which of the two size forms was used on disk. */
  datatype Record = Record(tag: int, level: int, payload: seq<Byte>, wide: bool)

  predicate Valid(r: Record) {
    && 0 <= r.tag < 1024 && 0 <= r.level < 1024
    && |r.payload| < 0x1_0000_0000
    && (r.wide || |r.payload| < WIDE_SIZE)
  }

  predicate AllValid(rs: seq<Record>) {
    forall i :: 0 <= i < |rs| ==> Valid(rs[i])
  }

  // ------------------------------------------------------------------
  // Writing
  // ------------------------------------------------------------------

  function Word(n: int): (w: seq<Byte>)
    requires 0 <= n < 0x1_0000_0000
    ensures |w| == 4
  {
    [n % 256, n / 0x100 % 256, n / 0x1_0000 % 256, n / 0x100_0000]
  }

  function Header(r: Record): int
    requires Valid(r)
  {
    r.tag + 1024 * r.level + 0x10_0000 * (if r.wide then WIDE_SIZE else |r.payload|)
  }

  function Prefix(r: Record): seq<Byte>
    requires Valid(r)
  {
    Word(Header(r)) + if r.wide then Word(|r.payload|) else []
  }

  function Encode(r: Record): seq<Byte>
    requires Valid(r)
  {
    Prefix(r) + r.payload
  }

  function EncodeAll(rs: seq<Record>): seq<Byte>
    requires AllValid(rs)
  {
    if rs == [] then [] else Encode(rs[0]) + EncodeAll(rs[1..])
  }

  // ------------------------------------------------------------------
  // Reading
  // ------------------------------------------------------------------

  function Join(a: int, b: int, c: int, d: int): int {
    a + 0x100 * b + 0x1_0000 * c + 0x100_0000 * d
  }

  /** struct.unpack('<I', data[pos:pos+4]) */
  function Unpack(data: seq<Byte>, pos: nat): (n: int)
    requires pos + 4 <= |data|
    ensures 0 <= n < 0x1_0000_0000
  {
    Join(data[pos], data[pos + 1], data[pos + 2], data[pos + 3])
  }

  /** One turn of the loop: the record at `pos` and the position after it, or None to stop. */
  function ReadRecord(data: seq<Byte>, pos: nat): (r: Option<(Record, nat)>)
    ensures r.Some? ==> Valid(r.value.0) && pos + 4 <= r.value.1 <= |data|
  {
    if pos + 4 > |data| then None
    else
      var header := Unpack(data, pos);
      var size := header / 0x10_0000;
      if size == WIDE_SIZE && pos + 8 > |data| then None
      else
        var wide := size == WIDE_SIZE;
        var body := if wide then pos + 8 else pos + 4;
        var len := if wide then Unpack(data, pos + 4) else size;
        if body + len > |data| then None
        else Some((Record(header % 1024, header / 1024 % 1024, data[body..body + len], wide), body + len))
  }

  function Records(data: seq<Byte>, pos: nat): (rs: seq<Record>)
    requires pos <= |data|
    ensures AllValid(rs)
    decreases |data| - pos
  {
    match ReadRecord(data, pos)
    case None => []
    case Some((r, next)) => [r] + Records(data, next)
  }

  /** Where the loop leaves off. */
  function End(data: seq<Byte>, pos: nat): (end: nat)
    requires pos <= |data|
    ensures pos <= end <= |data|
    decreases |data| - pos
  {
    match ReadRecord(data, pos)
    case None => pos
    case Some((_, next)) => End(data, next)
  }

  // ------------------------------------------------------------------
  // Text
  // ------------------------------------------------------------------

  predicate Printable(c: char) {
    var n := c as int;
    || IsSyllable(c) || 0x3131 <= n <= 0x318E || 32 <= n <= 126 || n == 9 || n == 10 || n == 13
  }

  /** app/utils/string.py:15-47 */
  function CleanText(s: string): string {
    if s == [] then [] else (if Printable(s[0]) then [s[0]] else []) + CleanText(s[1..])
  }

  /** What one record adds to the result; `decode` is UTF-16LE with undecodable units ignored. */
  function Lines(r: Record, decode: seq<Byte> -> string): seq<string> {
    if r.tag != PARA_TEXT then []
    else
      var units := r.payload[..|r.payload| / 2 * 2];
      var text := CleanText(decode(units));
      if Strip(text) == [] then [] else [text, "\n"]
  }

  function AllLines(rs: seq<Record>, decode: seq<Byte> -> string): seq<string> {
    if rs == [] then [] else Lines(rs[0], decode) + AllLines(rs[1..], decode)
  }

  /** The loop over one unpacked section, appending to the text gathered so far. */
  method ReadSection(data: seq<Byte>, decode: seq<Byte> -> string, before: seq<string>) returns (result: seq<string>)
    ensures result == before + AllLines(Records(data, 0), decode)
    ensures before <= result && ReadsWritten(data, decode, result[|before|..])
  {
    WrittenSection(data, decode);
    hide CleanText, Strip, Unpack, Valid, AllLines, Records, ReadsWritten;
    result := before;
    var pos, size := 0, |data|;
    while pos < size
      invariant pos <= size
      invariant result + AllLines(Records(data, pos), decode) == before + AllLines(Records(data, 0), decode)
    {
      ghost var start := pos;
      SectionStep(data, start, decode, result);
      if pos + 4 > size {
        break;
      }
      var header := Unpack(data, pos);
      var tag := header % 0x400;
      var len := header / 0x10_0000 % 0x1000;
      assert len == header / 0x10_0000;
      pos := pos + 4;
      if len == 0xFFF {
        if pos + 4 > size {
          break;
        }
        len := Unpack(data, pos);
        pos := pos + 4;
      }
      if pos + len > size {
        break;
      }
      assert ReadRecord(data, start).value.1 == pos + len;
      ghost var r := ReadRecord(data, start).value.0;
      assert r.tag == tag && r.payload == data[pos..pos + len];
      LinesOf(r, decode);
      hide ReadRecord, Lines;
      if tag == 67 {
        var recData := data[pos..pos + len];
        if |recData| % 2 != 0 {
          recData := recData[..|recData| - 1];
        }
        var text := CleanText(decode(recData));
        if Strip(text) != [] {
          result := result + [text, "\n"];
        }
      }
      pos := pos + len;
    }
    if pos >= size {
      SectionStep(data, pos, decode, result);
    }
  }

  lemma SectionStep(data: seq<Byte>, pos: nat, decode: seq<Byte> -> string, before: seq<string>)
    requires pos <= |data|
    ensures ReadRecord(data, pos).None? ==> before + AllLines(Records(data, pos), decode) == before
    ensures ReadRecord(data, pos).Some? ==>
              var (r, next) := ReadRecord(data, pos).value;
              before + AllLines(Records(data, pos), decode)
              == before + Lines(r, decode) + AllLines(Records(data, next), decode)
  {
    hide ReadRecord, Lines;
    if ReadRecord(data, pos).Some? {
      var (r, next) := ReadRecord(data, pos).value;
      assert ([r] + Records(data, next))[1..] == Records(data, next);
    }
  }

  lemma LinesOf(r: Record, decode: seq<Byte> -> string)
    ensures r.tag != PARA_TEXT ==> Lines(r, decode) == []
    ensures r.tag == PARA_TEXT ==>
              var units := if |r.payload| % 2 != 0 then r.payload[..|r.payload| - 1] else r.payload;
              Lines(r, decode) == if Strip(CleanText(decode(units))) == [] then [] else [CleanText(decode(units)), "\n"]
  {
    hide CleanText, Strip;
    assert |r.payload| % 2 == 0 ==> r.payload[..|r.payload| / 2 * 2] == r.payload;
  }

  // ------------------------------------------------------------------
  // The reader inverts the writer
  // ------------------------------------------------------------------

  lemma JoinSplit(a: Byte, b: Byte, c: Byte, d: Byte)
    ensures Word(Join(a, b, c, d)) == [a, b, c, d]
  {
    var n, n1, n2 := Join(a, b, c, d), b + 0x100 * (c + 0x100 * d), c + 0x100 * d;
    LowByte(a, n1);
    LowByte(b, n2);
    LowByte(c, d);
    assert n == a + 0x100 * n1 && n / 0x1_0000 == n / 0x100 / 0x100 && n / 0x100_0000 == n / 0x1_0000 / 0x100;
  }

  lemma LowByte(a: Byte, rest: int)
    requires rest >= 0
    ensures (a + 0x100 * rest) % 0x100 == a && (a + 0x100 * rest) / 0x100 == rest
  {
  }

  lemma SplitJoin(n: int)
    requires 0 <= n < 0x1_0000_0000
    ensures var w := Word(n); Join(w[0], w[1], w[2], w[3]) == n
  {
    assert n / 0x1_0000 == n / 0x100 / 0x100 && n / 0x100_0000 == n / 0x1_0000 / 0x100;
  }

  lemma UnpackWord(data: seq<Byte>, pos: nat, n: int)
    requires 0 <= n < 0x1_0000_0000
    requires pos + 4 <= |data| && data[pos..pos + 4] == Word(n)
    ensures Unpack(data, pos) == n
  {
    hide Word, Join;
    var w := data[pos..pos + 4];
    assert w[0] == data[pos] && w[1] == data[pos + 1] && w[2] == data[pos + 2] && w[3] == data[pos + 3];
    SplitJoin(n);
  }

  lemma WordUnpack(data: seq<Byte>, pos: nat)
    requires pos + 4 <= |data|
    ensures Word(Unpack(data, pos)) == data[pos..pos + 4]
  {
    hide Word, Join;
    JoinSplit(data[pos], data[pos + 1], data[pos + 2], data[pos + 3]);
  }

  lemma HeaderFields(r: Record)
    requires Valid(r)
    ensures 0 <= Header(r) < 0x1_0000_0000
    ensures Header(r) % 1024 == r.tag && Header(r) / 1024 % 1024 == r.level
    ensures Header(r) / 0x10_0000 == if r.wide then WIDE_SIZE else |r.payload|
  {
    var size := if r.wide then WIDE_SIZE else |r.payload|;
    var upper := r.level + 1024 * size;
    LowTen(r.tag, upper);
    LowTen(r.level, size);
    assert Header(r) == r.tag + 1024 * upper && Header(r) / 0x10_0000 == Header(r) / 1024 / 1024;
  }

  lemma LowTen(a: int, rest: int)
    requires 0 <= a < 1024 && rest >= 0
    ensures (a + 1024 * rest) % 1024 == a && (a + 1024 * rest) / 1024 == rest
  {
  }

  /** A record written at `pos` is read back at `pos`, whatever stands around it. */
  lemma {:induction false} ReadsEncoded(data: seq<Byte>, pos: nat, r: Record)
    requires Valid(r)
    requires pos + |Encode(r)| <= |data| && data[pos..pos + |Encode(r)|] == Encode(r)
    ensures ReadRecord(data, pos) == Some((r, pos + |Encode(r)|))
  {
    hide Word, Unpack, Header;
    HeaderFields(r);
    var stream := data[pos..pos + |Encode(r)|];
    var body := pos + |Prefix(r)|;
    assert stream[..|Prefix(r)|] == Prefix(r) == data[pos..body];
    assert stream[|Prefix(r)|..] == r.payload == data[body..body + |r.payload|];
    assert data[pos..pos + 4] == Prefix(r)[..4] == Word(Header(r));
    UnpackWord(data, pos, Header(r));
    if r.wide {
      assert data[pos + 4..pos + 8] == Prefix(r)[4..] == Word(|r.payload|);
      UnpackWord(data, pos + 4, |r.payload|);
    }
  }

  /** Conversely, the bytes a record was read from are its encoding. */
  lemma {:induction false} EncodesRead(data: seq<Byte>, pos: nat)
    requires ReadRecord(data, pos).Some?
    ensures var (r, next) := ReadRecord(data, pos).value;
            Encode(r) == data[pos..next]
  {
    hide Word, Unpack;
    var (r, next) := ReadRecord(data, pos).value;
    var header := Unpack(data, pos);
    assert Header(r) == header;
    WordUnpack(data, pos);
    if r.wide {
      WordUnpack(data, pos + 4);
      assert data[pos..pos + 8] == data[pos..pos + 4] + data[pos + 4..pos + 8];
    }
    var body := pos + |Prefix(r)|;
    assert Prefix(r) == data[pos..body];
    assert data[pos..next] == data[pos..body] + data[body..next];
  }

  lemma {:induction false} ReadsStream(data: seq<Byte>, pos: nat, rs: seq<Record>)
    requires AllValid(rs) && pos <= |data| && EncodeAll(rs) <= data[pos..]
    ensures var next := pos + |EncodeAll(rs)|;
            next <= |data| && Records(data, pos) == rs + Records(data, next)
    decreases |rs|
  {
    hide Encode, ReadRecord, Valid;
    if rs != [] {
      var code := Encode(rs[0]);
      var next := pos + |code|;
      assert data[pos..next] == data[pos..][..|code|] == EncodeAll(rs)[..|code|] == code;
      ReadsEncoded(data, pos, rs[0]);
      assert EncodeAll(rs[1..]) == EncodeAll(rs)[|code|..];
      assert data[next..] == data[pos..][|code|..];
      ReadsStream(data, next, rs[1..]);
      assert rs == [rs[0]] + rs[1..];
    }
  }

  /** Reading a written list of records yields that list. */
  lemma {:induction false} ReaderInvertsWriter(rs: seq<Record>)
    requires AllValid(rs)
    ensures Records(EncodeAll(rs), 0) == rs
  {
    var data := EncodeAll(rs);
    assert data[0..] == data;
    ReadsStream(data, 0, rs);
  }

  /**
   Reading any bytes at all: what was consumed is exactly the encoding of what was returned,
   and no further record can be read where the loop stopped.
   */
  lemma {:induction false} WriterInvertsReader(data: seq<Byte>, pos: nat)
    requires pos <= |data|
    ensures EncodeAll(Records(data, pos)) == data[pos..End(data, pos)]
    ensures ReadRecord(data, End(data, pos)).None?
    decreases |data| - pos
  {
    if ReadRecord(data, pos).Some? {
      var (r, next) := ReadRecord(data, pos).value;
      WriterInvertsReader(data, next);
      EncodesRead(data, pos);
      assert Records(data, pos)[1..] == Records(data, next);
      assert data[pos..End(data, pos)] == data[pos..next] + data[next..End(data, next)];
    }
  }

  // ------------------------------------------------------------------
  // What is written comes out as text
  // ------------------------------------------------------------------

  /** Hangul syllables and letters, ASCII from the blank to the tilde, tab, line feed and carriage return. */
  predicate IsKept(code: int) {
    || 0xAC00 <= code <= 0xD7A3 || 0x3131 <= code <= 0x318E || 32 <= code <= 126
    || code == 9 || code == 10 || code == 13
  }

  /** Cleaning is character by character: these are kept, all others are dropped. */
  lemma {:induction false} CleanTextFilters(s: string, t: string)
    ensures CleanText(s + t) == CleanText(s) + CleanText(t)
    ensures |s| == 1 ==> CleanText(s) == if IsKept(s[0] as int) then s else []
  {
    if s == [] {
      assert s + t == t;
    } else {
      assert (s + t)[1..] == s[1..] + t;
      CleanTextFilters(s[1..], t);
    }
  }

  ghost predicate AllKept(s: string) {
    forall i :: 0 <= i < |s| ==> IsKept(s[i] as int)
  }

  lemma {:induction false} KeptTextStays(s: string)
    requires AllKept(s)
    ensures CleanText(s) == s
  {
    if s != [] {
      KeptTextStays(s[1..]);
    }
  }

  /** The text of a paragraph record; an odd last byte is not part of it. */
  function ParagraphText(r: Record, decode: seq<Byte> -> string): string {
    decode(if |r.payload| % 2 == 0 then r.payload else r.payload[..|r.payload| - 1])
  }

  /** Every paragraph's text is of kept characters and shows something. */
  ghost predicate PlainParagraphs(rs: seq<Record>, decode: seq<Byte> -> string) {
    forall i :: 0 <= i < |rs| && rs[i].tag == 67 ==>
      AllKept(ParagraphText(rs[i], decode)) && exists c :: c in ParagraphText(rs[i], decode) && !IsSpace(c)
  }

  /** Paragraph after paragraph, each with its line end. */
  function ParagraphLines(rs: seq<Record>, decode: seq<Byte> -> string): seq<string> {
    if rs == [] then []
    else
      var n := |rs| - 1;
      ParagraphLines(rs[..n], decode) + if rs[n].tag == 67 then [ParagraphText(rs[n], decode), "\n"] else []
  }

  lemma {:induction false} AllLinesConcat(rs: seq<Record>, ts: seq<Record>, decode: seq<Byte> -> string)
    ensures AllLines(rs + ts, decode) == AllLines(rs, decode) + AllLines(ts, decode)
  {
    hide Lines;
    if rs == [] {
      assert rs + ts == ts;
    } else {
      assert (rs + ts)[1..] == rs[1..] + ts;
      AllLinesConcat(rs[1..], ts, decode);
    }
  }

  lemma OneParagraph(r: Record, decode: seq<Byte> -> string)
    requires r.tag == 67 ==> AllKept(ParagraphText(r, decode)) && exists c :: c in ParagraphText(r, decode) && !IsSpace(c)
    ensures Lines(r, decode) == if r.tag == 67 then [ParagraphText(r, decode), "\n"] else []
  {
    LinesOf(r, decode);
    if r.tag == 67 {
      KeptTextStays(ParagraphText(r, decode));
    }
    hide CleanText, Strip, AllKept, Lines, IsSpace;
  }

  lemma {:induction false} LinesAreParagraphs(rs: seq<Record>, decode: seq<Byte> -> string)
    requires PlainParagraphs(rs, decode)
    ensures AllLines(rs, decode) == ParagraphLines(rs, decode)
  {
    hide CleanText, Strip, AllKept, Lines;
    if rs != [] {
      var n := |rs| - 1;
      assert forall i :: 0 <= i < n ==> rs[..n][i] == rs[i];
      LinesAreParagraphs(rs[..n], decode);
      assert rs[..n] + [rs[n]] == rs;
      AllLinesConcat(rs[..n], [rs[n]], decode);
      OneParagraph(rs[n], decode);
      assert AllLines([rs[n]], decode) == Lines(rs[n], decode) + AllLines([rs[n]][1..], decode);
    }
  }

  /** Of a written section the loop yields its paragraphs, in order and unchanged. */
  lemma WrittenTextIsRead(rs: seq<Record>, decode: seq<Byte> -> string)
    requires AllValid(rs) && PlainParagraphs(rs, decode)
    ensures AllLines(Records(EncodeAll(rs), 0), decode) == ParagraphLines(rs, decode)
  {
    ReaderInvertsWriter(rs);
    LinesAreParagraphs(rs, decode);
  }

  /** If the bytes are a written section of plain paragraphs, these are its lines. */
  ghost predicate ReadsWritten(data: seq<Byte>, decode: seq<Byte> -> string, lines: seq<string>) {
    forall rs :: AllValid(rs) && data == EncodeAll(rs) && PlainParagraphs(rs, decode) ==> lines == ParagraphLines(rs, decode)
  }

  lemma WrittenSection(data: seq<Byte>, decode: seq<Byte> -> string)
    ensures ReadsWritten(data, decode, AllLines(Records(data, 0), decode))
  {
    hide AllValid, PlainParagraphs, ParagraphLines, AllLines, Records, EncodeAll;
    forall rs | AllValid(rs) && data == EncodeAll(rs) && PlainParagraphs(rs, decode)
      ensures AllLines(Records(data, 0), decode) == ParagraphLines(rs, decode)
    {
      WrittenTextIsRead(rs, decode);
    }
  }

  // ------------------------------------------------------------------
  // Truncation
  // ------------------------------------------------------------------

  lemma SliceOfTake(data: seq<Byte>, n: nat, i: nat, j: nat)
    requires i <= j <= n <= |data|
    ensures data[..n][i..j] == data[i..j]
  {
  }

  lemma {:induction false} CutRecord(data: seq<Byte>, n: nat, pos: nat)
    requires pos <= n <= |data|
    ensures ReadRecord(data[..n], pos)
         == if ReadRecord(data, pos).Some? && ReadRecord(data, pos).value.1 <= n then ReadRecord(data, pos) else None
  {
    var cut := data[..n];
    if pos + 4 <= n {
      assert Unpack(cut, pos) == Unpack(data, pos);
      if pos + 8 <= n {
        assert Unpack(cut, pos + 4) == Unpack(data, pos + 4);
      }
      if ReadRecord(data, pos).Some? && ReadRecord(data, pos).value.1 <= n {
        var (r, next) := ReadRecord(data, pos).value;
        var body := next - |r.payload|;
        SliceOfTake(data, n, body, next);
      }
    }
  }

  /** Cutting any byte string anywhere loses records from the end and changes none. */
  lemma {:induction false} CutStream(data: seq<Byte>, n: nat, pos: nat)
    requires pos <= n <= |data|
    ensures Records(data[..n], pos) <= Records(data, pos)
    decreases |data| - pos
  {
    CutRecord(data, n, pos);
    if ReadRecord(data[..n], pos).Some? {
      CutStream(data, n, ReadRecord(data, pos).value.1);
    }
  }

  lemma {:induction false} EncodeAllConcat(rs: seq<Record>, ts: seq<Record>)
    requires AllValid(rs) && AllValid(ts)
    ensures AllValid(rs + ts) && EncodeAll(rs + ts) == EncodeAll(rs) + EncodeAll(ts)
  {
    hide Encode, Valid;
    if rs == [] {
      assert rs + ts == ts;
    } else {
      EncodeAllConcat(rs[1..], ts);
      assert (rs + ts)[0] == rs[0] && (rs + ts)[1..] == rs[1..] + ts;
      JoinThree(Encode(rs[0]), EncodeAll(rs[1..]), EncodeAll(ts));
    }
  }

  lemma JoinThree(a: seq<Byte>, b: seq<Byte>, c: seq<Byte>)
    ensures a + (b + c) == (a + b) + c
  {
  }

  /** Of a written stream cut at byte n, exactly the records that end by n are read. */
  lemma {:induction false} CutWrittenStream(rs: seq<Record>, k: nat, n: nat)
    requires AllValid(rs) && k <= |rs|
    requires |EncodeAll(rs[..k])| <= n <= |EncodeAll(rs)|
    requires k < |rs| ==> n < |EncodeAll(rs[..k + 1])|
    ensures Records(EncodeAll(rs)[..n], 0) == rs[..k]
  {
    hide Encode, EncodeAll, ReadRecord, Valid;
    var data := EncodeAll(rs);
    EncodeAllConcat(rs[..k], rs[k..]);
    assert rs == rs[..k] + rs[k..];
    var at := |EncodeAll(rs[..k])|;
    assert data[..n][0..] == data[..n];
    ReadsStream(data[..n], 0, rs[..k]);
    if k < |rs| {
      NextEncoded(rs, k);
      ReadsEncoded(data, at, rs[k]);
      CutRecord(data, n, at);
    } else {
      assert rs[..k] == rs;
    }
  }

  /** Where record k stands in the written stream. */
  lemma NextEncoded(rs: seq<Record>, k: nat)
    requires AllValid(rs) && k < |rs|
    ensures var at, next := |EncodeAll(rs[..k])|, |EncodeAll(rs[..k + 1])|;
            next == at + |Encode(rs[k])| && next <= |EncodeAll(rs)| && EncodeAll(rs)[at..next] == Encode(rs[k])
  {
    hide Encode, Valid;
    var code := Encode(rs[k]);
    assert rs == rs[..k] + rs[k..] && rs[..k + 1] == rs[..k] + [rs[k]];
    EncodeAllConcat(rs[..k], rs[k..]);
    EncodeAllConcat(rs[..k], [rs[k]]);
    assert EncodeAll([rs[k]]) == code + EncodeAll([]) && EncodeAll(rs[k..]) == code + EncodeAll(rs[k..][1..]);
  }

  lemma {:induction false} LinesOfPrefix(rs: seq<Record>, ts: seq<Record>, decode: seq<Byte> -> string)
    requires rs <= ts
    ensures AllLines(rs, decode) <= AllLines(ts, decode)
  {
    if rs != [] {
      LinesOfPrefix(rs[1..], ts[1..], decode);
    }
  }

  /** A damaged tail costs lines from the end; the lines before it come out unchanged. */
  lemma {:induction false} CutTextIsPrefix(data: seq<Byte>, n: nat, decode: seq<Byte> -> string)
    requires n <= |data|
    ensures AllLines(Records(data[..n], 0), decode) <= AllLines(Records(data, 0), decode)
  {
    CutStream(data, n, 0);
    LinesOfPrefix(Records(data[..n], 0), Records(data, 0), decode);
  }
}
