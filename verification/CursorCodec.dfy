/**
 Cursor values as text (app/services/db_engine_cache.py:96-122): the last value of a chunk is
 stored in SyncJob.cursor_value and read back to compare with in the next query.
 */
module CursorCodec {
  import opened Wrappers
  import opened Decimal

  /** cursor_type: "int", "datetime", anything else. */
  datatype CursorType = IntCursor | DatetimeCursor | TextCursor

  /** A naive datetime. */
  datatype Moment = Moment(year: nat, month: nat, day: nat, hour: nat, minute: nat, second: nat, micro: nat)

  datatype CursorValue = Number(n: int) | Instant(at: Moment) | Label(s: string)

  predicate LeapYear(y: nat) {
    y % 4 == 0 && (y % 100 != 0 || y % 400 == 0)
  }

  function DaysIn(year: nat, month: nat): nat {
    if month == 2 then (if LeapYear(year) then 29 else 28)
    else if month == 4 || month == 6 || month == 9 || month == 11 then 30
    else 31
  }

  predicate ValidMoment(m: Moment) {
    && 1 <= m.year <= 9999 && 1 <= m.month <= 12 && 1 <= m.day <= DaysIn(m.year, m.month)
    && m.hour < 24 && m.minute < 60 && m.second < 60 && m.micro < 1_000_000
  }

  /** The value is one a column of this type yields. */
  predicate Fits(t: CursorType, v: CursorValue) {
    match t
    case IntCursor => v.Number?
    case DatetimeCursor => v.Instant? && ValidMoment(v.at)
    case TextCursor => v.Label?
  }

  // ------------------------------------------------------------------
  // Writing
  // ------------------------------------------------------------------

  function IntText(n: int): (s: string)
    ensures s != []
  {
    if n < 0 then "-" + Digits(-n) else Digits(n)
  }

  function ToSeconds(m: Moment): string {
    Padded(m.year, 4) + "-" + Padded(m.month, 2) + "-" + Padded(m.day, 2) + "T"
    + Padded(m.hour, 2) + ":" + Padded(m.minute, 2) + ":" + Padded(m.second, 2)
  }

  /** datetime.isoformat: the fraction appears only when there is one. */
  function IsoFormat(m: Moment): string {
    ToSeconds(m) + if m.micro == 0 then [] else "." + Padded(m.micro, 6)
  }

  /** _stringify_cursor_value; None is a NULL in the cursor column. */
  function Stringify(v: Option<CursorValue>): string {
    match v
    case None => ""
    case Some(Number(n)) => IntText(n)
    case Some(Instant(at)) => IsoFormat(at)
    case Some(Label(s)) => s
  }

  // ------------------------------------------------------------------
  // Reading
  // ------------------------------------------------------------------

  /** int(raw) on what `IntText` can write. */
  function ReadInt(raw: string): Option<int> {
    if raw != [] && raw[0] == '-' then
      if raw[1..] != [] && AllDigits(raw[1..]) then Some(-(ValueOf(raw[1..]) as int)) else None
    else if raw != [] && AllDigits(raw) then Some(ValueOf(raw))
    else None
  }

  function Field(s: string, from: nat, to: nat): Option<nat> {
    if from <= to <= |s| && AllDigits(s[from..to]) then Some(ValueOf(s[from..to])) else None
  }

  /** strptime(raw, "%Y-%m-%dT%H:%M:%S") on text of exactly that layout. */
  function ReadSeconds(s: string): Option<Moment> {
    if |s| != 19 || s[4] != '-' || s[7] != '-' || s[10] != 'T' || s[13] != ':' || s[16] != ':' then None
    else
      match (Field(s, 0, 4), Field(s, 5, 7), Field(s, 8, 10), Field(s, 11, 13), Field(s, 14, 16), Field(s, 17, 19))
      case (Some(year), Some(month), Some(day), Some(hour), Some(minute), Some(second)) =>
        var m := Moment(year, month, day, hour, minute, second, 0);
        if ValidMoment(m) then Some(m) else None
      case _ => None
  }

  /** datetime.fromisoformat on the two layouts isoformat writes. */
  function ReadIso(s: string): Option<Moment> {
    if |s| == 26 && s[19] == '.' then
      match (ReadSeconds(s[..19]), Field(s, 20, 26))
      case (Some(m), Some(micro)) => if micro < 1_000_000 then Some(m.(micro := micro)) else None
      case _ => None
    else ReadSeconds(s)
  }

  datatype Coerced = Absent | Value(v: CursorValue) | BadValue

  /** _coerce_cursor_value; BadValue is the ValueError that fails the fetch. */
  function Coerce(t: CursorType, raw: Option<string>): Coerced {
    if raw.None? || raw.value == "" then Absent
    else
      match t
      case IntCursor => (match ReadInt(raw.value) case Some(n) => Value(Number(n)) case None => BadValue)
      case DatetimeCursor =>
        var iso := ReadIso(raw.value);
        var m := if iso.Some? || |raw.value| < 19 then iso else ReadSeconds(raw.value[..19]);
        (match m case Some(at) => Value(Instant(at)) case None => BadValue)
      case TextCursor => Value(Label(raw.value))
  }

  // ------------------------------------------------------------------
  // Round trip
  // ------------------------------------------------------------------

  /** The text of an integer reads back, and starts with a minus exactly if it is negative. */
  lemma ReadsInt(n: int)
    ensures ReadInt(IntText(n)) == Some(n) && (IntText(n)[0] == '-' <==> n < 0)
  {
    if n < 0 {
      ReadsDigits(-n);
      assert IntText(n)[1..] == Digits(-n);
    } else {
      ReadsDigits(n);
      assert IsDigit(Digits(n)[0]);
    }
  }

  /** A number written after `before` and followed by a separator is the field at that place. */
  lemma FieldIn(s: string, before: string, n: nat, width: nat, separator: string)
    requires width >= 1 && n < Pow10(width) && |separator| == 1
    requires before + Padded(n, width) + separator <= s
    ensures Field(s, |before|, |before| + width) == Some(n)
    ensures |before| + width < |s| && s[|before| + width] == separator[0]
    ensures |before + Padded(n, width) + separator| == |before| + width + 1
  {
    PaddedReads(n, width);
    var text := before + Padded(n, width) + separator;
    assert s[..|text|] == text;
    assert s[|before| + width] == text[|before| + width];
    assert s[|before|..|before| + width] == Padded(n, width);
  }

  lemma LastField(before: string, n: nat, width: nat)
    requires width >= 1 && n < Pow10(width)
    ensures var s := before + Padded(n, width);
            |s| == |before| + width && Field(s, |before|, |before| + width) == Some(n)
  {
    PaddedReads(n, width);
    var s := before + Padded(n, width);
    assert s[|before|..|before| + width] == Padded(n, width);
  }

  lemma PrefixChain(p: string, x: string, y: string, s: string)
    requires p + x + y <= s
    ensures p <= s
  {
    assert p <= p + x + y;
  }

  lemma SmallPowers()
    ensures Pow10(2) == 100 && Pow10(4) == 10_000 && Pow10(6) == 1_000_000
  {
    assert Pow10(1) == 10 && Pow10(3) == 1000 && Pow10(5) == 100_000;
  }

  lemma ReadsSeconds(m: Moment)
    requires ValidMoment(m)
    ensures |ToSeconds(m)| == 19 && ReadSeconds(ToSeconds(m)) == Some(m.(micro := 0))
  {
    SmallPowers();
    SameSeconds(m);
    hide Field, Padded, Pow10, ValidMoment;
    var p1 := Padded(m.year, 4) + "-";
    var p2 := p1 + Padded(m.month, 2) + "-";
    var p3 := p2 + Padded(m.day, 2) + "T";
    var p4 := p3 + Padded(m.hour, 2) + ":";
    var p5 := p4 + Padded(m.minute, 2) + ":";
    var s := p5 + Padded(m.second, 2);
    assert p5 <= s;
    PrefixChain(p4, Padded(m.minute, 2), ":", s);
    PrefixChain(p3, Padded(m.hour, 2), ":", s);
    PrefixChain(p2, Padded(m.day, 2), "T", s);
    PrefixChain(p1, Padded(m.month, 2), "-", s);
    assert p1 == [] + Padded(m.year, 4) + "-";
    FieldIn(s, [], m.year, 4, "-");
    FieldIn(s, p1, m.month, 2, "-");
    FieldIn(s, p2, m.day, 2, "T");
    FieldIn(s, p3, m.hour, 2, ":");
    FieldIn(s, p4, m.minute, 2, ":");
    LastField(p5, m.second, 2);
  }

  lemma SameSeconds(m: Moment)
    requires ValidMoment(m)
    ensures ValidMoment(m.(micro := 0))
    ensures m.year < 10_000 && m.month < 100 && m.day < 100 && m.hour < 100 && m.minute < 100 && m.second < 100
    ensures m.micro < 1_000_000
  {
  }

  lemma ReadsIso(m: Moment)
    requires ValidMoment(m)
    ensures ReadIso(IsoFormat(m)) == Some(m)
  {
    SmallPowers();
    SameSeconds(m);
    hide ReadSeconds, ToSeconds, Padded, Pow10, Field, ValidMoment;
    ReadsSeconds(m);
    if m.micro != 0 {
      assert IsoFormat(m) == (ToSeconds(m) + ".") + Padded(m.micro, 6);
      LastField(ToSeconds(m) + ".", m.micro, 6);
      assert IsoFormat(m)[..19] == ToSeconds(m);
    } else {
      assert IsoFormat(m) == ToSeconds(m);
    }
  }

  // ------------------------------------------------------------------
  // What can be read
  // ------------------------------------------------------------------

  /** The lengths of the months outside leap years. */
  const MONTHS := [31, 28, 31, 30, 31, 30, 31, 31, 30, 31, 30, 31]

  /** The date is on the Gregorian calendar, years 1 to 9999. */
  predicate OnCalendar(year: nat, month: nat, day: nat) {
    && 1 <= year <= 9999 && 1 <= month <= |MONTHS| && 1 <= day
    && (day <= MONTHS[month - 1] || (month == 2 && day == 29 && (year % 400 == 0 || (year % 4 == 0 && year % 100 != 0))))
  }

  predicate IsMoment(m: Moment) {
    OnCalendar(m.year, m.month, m.day) && m.hour <= 23 && m.minute <= 59 && m.second <= 59 && m.micro <= 999_999
  }

  lemma ValidMomentIff(m: Moment)
    ensures ValidMoment(m) <==> IsMoment(m)
  {
  }

  lemma FieldText(s: string, from: nat, to: nat)
    requires from < to <= |s| && Field(s, from, to).Some?
    ensures s[from..to] == Padded(Field(s, from, to).value, to - from)
  {
    PaddedValue(s[from..to]);
  }

  /** The text that is read as a moment in whole seconds is the one that moment is written as. */
  lemma SecondsText(s: string)
    requires ReadSeconds(s).Some?
    ensures ValidMoment(ReadSeconds(s).value) && ReadSeconds(s).value.micro == 0 && s == ToSeconds(ReadSeconds(s).value)
  {
    hide ValidMoment, Field, Padded;
    FieldText(s, 0, 4);
    FieldText(s, 5, 7);
    FieldText(s, 8, 10);
    FieldText(s, 11, 13);
    FieldText(s, 14, 16);
    FieldText(s, 17, 19);
    assert s == s[0..4] + [s[4]] + s[5..7] + [s[7]] + s[8..10] + [s[10]]
              + s[11..13] + [s[13]] + s[14..16] + [s[16]] + s[17..19];
  }

  lemma IsoText(s: string)
    requires ReadIso(s).Some?
    ensures var m := ReadIso(s).value;
            ValidMoment(m) && (s == IsoFormat(m) || (m.micro == 0 && ToSeconds(m) <= s))
  {
    hide ReadSeconds, Padded, Field;
    if |s| == 26 && s[19] == '.' {
      SecondsText(s[..19]);
      FieldText(s, 20, 26);
      assert ToSeconds(ReadIso(s).value) == s[..19];
      assert s == s[..19] + [s[19]] + s[20..26];
    } else {
      SecondsText(s);
    }
  }

  /** The layout isoformat writes, digits or not between the separators. */
  predicate IsoLayout(s: string) {
    && (|s| == 19 || (|s| == 26 && s[19] == '.'))
    && s[4] == '-' && s[7] == '-' && s[10] == 'T' && s[13] == ':' && s[16] == ':'
  }

  /**
   A stored text of that layout is read as a moment exactly if it is how that moment is written, or
   starts like that moment in whole seconds and is not how one with a fraction is written.
   */
  lemma MomentIsReadIff(s: string, m: Moment)
    requires IsoLayout(s)
    ensures Coerce(DatetimeCursor, Some(s)) == Value(Instant(m)) <==>
              && IsMoment(m)
              && (s == IsoFormat(m)
                  || (m.micro == 0 && ToSeconds(m) <= s
                      && forall f :: IsMoment(f) && f.micro > 0 ==> s != IsoFormat(f)))
  {
    hide ReadSeconds, ToSeconds, Padded, Field, ValidMoment, IsMoment;
    forall f ensures ValidMoment(f) <==> IsMoment(f) {
      ValidMomentIff(f);
    }
    forall f | IsMoment(f) ensures ReadIso(IsoFormat(f)) == Some(f) {
      ReadsIso(f);
    }
    if IsMoment(m) {
      ReadsSeconds(m);
      assert ToSeconds(m) <= s ==> s[..19] == ToSeconds(m);
    }
    if ReadIso(s).Some? {
      IsoText(s);
      ReadsSeconds(ReadIso(s).value);
      assert ToSeconds(ReadIso(s).value) <= s && s[..19] == ToSeconds(ReadIso(s).value);
    } else if ReadSeconds(s[..19]).Some? {
      SecondsText(s[..19]);
    }
  }

  /** What was stored is read back, for every value but the empty string. */
  lemma CursorRoundTrip(t: CursorType, v: CursorValue)
    requires Fits(t, v)
    ensures Coerce(t, Some(Stringify(Some(v)))) == Value(v) <==> v != Label("")
  {
    match t
    case IntCursor => ReadsInt(v.n);
    case DatetimeCursor =>
      ReadsIso(v.at);
      ReadsSeconds(v.at);
    case TextCursor =>
  }
}
