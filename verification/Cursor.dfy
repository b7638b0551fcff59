/** Page tokens (encodeCursor and decodeCursor of internal/repository/postgres/payment_repo.go):
    base64url of an RFC 3339 timestamp (section 5.6), '|', and a UUID. */
module Cursor {
  import opened Wrappers
  import opened Digits
  import Base64Url

  /** A UTC time as the calendar shows it. */
  datatype Civil = Civil(year: nat, month: nat, day: nat, hour: nat, minute: nat, second: nat, nanos: nat)

  predicate LeapYear(y: nat) {
    y % 4 == 0 && (y % 100 != 0 || y % 400 == 0)
  }

  function DaysIn(year: nat, month: nat): nat {
    if month == 2 then (if LeapYear(year) then 29 else 28)
    else if month == 4 || month == 6 || month == 9 || month == 11 then 30
    else 31
  }

  predicate ValidTime(t: Civil) {
    && 1 <= t.month <= 12 && 1 <= t.day <= DaysIn(t.year, t.month)
    && t.hour < 24 && t.minute < 60 && t.second < 60 && t.nanos < 1_000_000_000
  }

  /** The five groups of a UUID's text form: 32, 16, 16, 16 and 48 bits. */
  datatype Uuid = Uuid(g1: nat, g2: nat, g3: nat, g4: nat, g5: nat)

  predicate ValidUuid(u: Uuid) {
    u.g1 < Pow(Hex, 8) && u.g2 < Pow(Hex, 4) && u.g3 < Pow(Hex, 4) && u.g4 < Pow(Hex, 4) && u.g5 < Pow(Hex, 12)
  }

  datatype Position = Position(at: Civil, id: Uuid)

  predicate ValidPosition(p: Position) {
    ValidTime(p.at) && ValidUuid(p.id)
  }

  // ── Numbers followed by a separator ──

  /** The width of a number and the character after it. */
  datatype Field = Field(width: nat, after: char)

  function Print(values: seq<nat>, layout: seq<Field>, base: Base, tail: string): string
    requires |values| == |layout|
    decreases |layout|
  {
    if layout == [] then tail
    else Pad(values[0], base, layout[0].width) + ([layout[0].after] + Print(values[1..], layout[1..], base, tail))
  }

  function Scan(s: string, layout: seq<Field>, base: Base): (r: Option<(seq<nat>, string)>)
    ensures r.Some? ==> |r.value.0| == |layout|
    decreases |layout|
  {
    if layout == [] then Some(([], s))
    else
      var w := layout[0].width;
      if |s| < w + 1 || s[w] != layout[0].after then None
      else
        var v, rest := Parse(s[..w], base), Scan(s[w + 1..], layout[1..], base);
        if v.None? || rest.None? then None else Some(([v.value] + rest.value.0, rest.value.1))
  }

  lemma ScanFirst(
    numeral: string, value: nat, rest: string, values: seq<nat>, layout: seq<Field>, base: Base, tail: string)
    requires layout != [] && |numeral| == layout[0].width && Parse(numeral, base) == Some(value)
    requires Scan(rest, layout[1..], base) == Some((values, tail))
    ensures Scan(numeral + ([layout[0].after] + rest), layout, base) == Some(([value] + values, tail))
  {
    CutNumeral(numeral, layout[0].after, rest);
  }

  lemma CutNumeral(numeral: string, after: char, rest: string)
    ensures
      var s := numeral + ([after] + rest);
      && |s| >= |numeral| + 1 && s[|numeral|] == after
      && s[..|numeral|] == numeral && s[|numeral| + 1..] == rest
  {
  }

  lemma {:induction false} ScanPrint(values: seq<nat>, layout: seq<Field>, base: Base, tail: string)
    requires |values| == |layout|
    requires forall i :: 0 <= i < |values| ==> values[i] < Pow(base, layout[i].width)
    ensures Scan(Print(values, layout, base, tail), layout, base) == Some((values, tail))
    decreases |layout|
  {
    if layout != [] {
      ScanPrint(values[1..], layout[1..], base, tail);
      ParsePad(values[0], base, layout[0].width);
      var rest := Print(values[1..], layout[1..], base, tail);
      ScanFirst(Pad(values[0], base, layout[0].width), values[0], rest, values[1..], layout, base, tail);
      assert values == [values[0]] + values[1..];
    }
  }

  /** Bytes other than the separator of the two halves of a token. */
  predicate Plain(s: string) {
    forall i :: 0 <= i < |s| ==> s[i] as int < 256 && s[i] != '|'
  }

  lemma DigitsArePlain(s: string, base: Base)
    requires AllDigits(s, base)
    ensures Plain(s)
  {
    forall i | 0 <= i < |s| ensures s[i] as int < 256 && s[i] != '|' {
      assert IsDigit(s[i], base);
    }
  }

  lemma {:induction false} PrintIsPlain(values: seq<nat>, layout: seq<Field>, base: Base, tail: string)
    requires |values| == |layout| && Plain(tail)
    requires forall i :: 0 <= i < |layout| ==> Plain([layout[i].after])
    ensures Plain(Print(values, layout, base, tail))
    decreases |layout|
  {
    if layout != [] {
      PrintIsPlain(values[1..], layout[1..], base, tail);
      DigitsArePlain(Pad(values[0], base, layout[0].width), base);
      assert Plain([layout[0].after]);
      assert [layout[0].after][0] == layout[0].after;
    }
  }

  // ── Fractions of a second ──

  function TrimZeros(ds: seq<nat>): seq<nat> {
    if ds != [] && ds[|ds| - 1] == 0 then TrimZeros(ds[..|ds| - 1]) else ds
  }

  /** Exactly n digits: cut, or filled up with zeros. */
  function FillZeros(ds: seq<nat>, n: nat): (r: seq<nat>)
    ensures |r| == n
    decreases if |ds| < n then n - |ds| else 0
  {
    if |ds| >= n then ds[..n] else FillZeros(ds + [0], n)
  }

  lemma {:induction false} FillTrimmed(ds: seq<nat>, n: nat)
    requires |ds| <= n
    ensures FillZeros(TrimZeros(ds), n) == FillZeros(ds, n)
  {
    if ds != [] && ds[|ds| - 1] == 0 {
      var q := ds[..|ds| - 1];
      FillTrimmed(q, n);
      assert q + [0] == ds;
    }
  }

  lemma {:induction false} TrimmedDigits(ds: seq<nat>, base: Base)
    requires DigitsOf(ds, base)
    ensures DigitsOf(TrimZeros(ds), base)
    ensures |TrimZeros(ds)| <= |ds|
    ensures TrimZeros(ds) == [] ==> Number(ds, base) == 0
    ensures TrimZeros(ds) != [] ==> TrimZeros(ds)[|TrimZeros(ds)| - 1] != 0
  {
    if ds != [] && ds[|ds| - 1] == 0 {
      TrimmedDigits(ds[..|ds| - 1], base);
    }
  }

  /** ".999999999" without the trailing zeros; nothing at all for zero. */
  function FractionText(nanos: nat): (s: string)
    requires nanos < 1_000_000_000
  {
    var ds := TrimZeros(LastDigits(nanos, Decimal, 9));
    TrimmedDigits(LastDigits(nanos, Decimal, 9), Decimal);
    if nanos == 0 then "" else "." + Text(ds, Decimal)
  }

  function DigitRun(s: string): (n: nat)
    ensures n <= |s| && AllDigits(s[..n], Decimal)
  {
    if s == "" || !IsDigit(s[0], Decimal) then 0
    else
      var n := DigitRun(s[1..]);
      assert forall i :: 1 <= i < n + 1 ==> s[i] == s[1..][..n][i - 1];
      n + 1
  }

  lemma {:induction false} DigitRunStops(a: string, b: string)
    requires AllDigits(a, Decimal) && (b == "" || !IsDigit(b[0], Decimal))
    ensures DigitRun(a + b) == |a|
  {
    if a == "" {
      assert a + b == b;
    } else {
      assert (a + b)[1..] == a[1..] + b;
      DigitRunStops(a[1..], b);
    }
  }

  /** Reads an optional fraction and the zone; only Z is understood. */
  function ScanFractionAndZone(s: string): Option<nat> {
    if s == "Z" then Some(0)
    else if |s| < 2 || s[0] != '.' || !IsDigit(s[1], Decimal) then None
    else
      var n := DigitRun(s[1..]);
      if s[1..][n..] != "Z" then None
      else Some(Number(FillZeros(Read(s[1..][..n], Decimal), 9), Decimal))
  }

  lemma ScanFraction(nanos: nat)
    requires nanos < 1_000_000_000
    ensures ScanFractionAndZone(FractionText(nanos) + "Z") == Some(nanos)
  {
    var all := LastDigits(nanos, Decimal, 9);
    var ds := TrimZeros(all);
    DecimalPowers(9);
    NumberOfLastDigits(nanos, Decimal, 9);
    TrimmedDigits(all, Decimal);
    if nanos == 0 {
      assert FractionText(nanos) + "Z" == "Z";
    } else {
      var f := Text(ds, Decimal);
      var s := FractionText(nanos) + "Z";
      assert s[1..] == f + "Z";
      DigitRunStops(f, "Z");
      assert s[1..][..|f|] == f && s[1..][|f|..] == "Z";
      assert s[1] == f[0];
      ReadText(ds);
      FillTrimmed(all, 9);
      assert all[..9] == all;
    }
  }

  lemma ReadText(ds: seq<nat>)
    requires DigitsOf(ds, Decimal)
    ensures Read(Text(ds, Decimal), Decimal) == ds
  {
    var rs := Read(Text(ds, Decimal), Decimal);
    forall i | 0 <= i < |ds| ensures rs[i] == ds[i] {
      assert DigitValue(Text(ds, Decimal)[i]) == Some(ds[i]);
    }
  }

  // ── Times ──

  /** Digits of a year; four up to 9999. */
  function YearWidth(y: nat): (w: nat)
    ensures w >= 4
    ensures w == 4 <==> y < 10_000
  {
    if y < 10_000 then 4 else YearWidth(y / 10) + 1
  }

  function TimeLayout(yearWidth: nat): seq<Field> {
    [Field(yearWidth, '-'), Field(2, '-'), Field(2, 'T'), Field(2, ':'), Field(2, ':')]
  }

  function TimeTail(t: Civil): string
    requires ValidTime(t)
  {
    Pad(t.second, Decimal, 2) + (FractionText(t.nanos) + "Z")
  }

  /** t.UTC().Format(time.RFC3339Nano) */
  function FormatTime(t: Civil): string
    requires ValidTime(t)
  {
    Print([t.year, t.month, t.day, t.hour, t.minute], TimeLayout(YearWidth(t.year)), Decimal, TimeTail(t))
  }

  /** The text of a time, field by field. */
  lemma TimeShape(t: Civil)
    requires ValidTime(t) && t.year <= 9999
    ensures FormatTime(t) ==
      Pad(t.year, Decimal, 4) + ("-" + (Pad(t.month, Decimal, 2) + ("-" + (Pad(t.day, Decimal, 2) + ("T" +
        (Pad(t.hour, Decimal, 2) + (":" + (Pad(t.minute, Decimal, 2) + (":" +
          (Pad(t.second, Decimal, 2) + (FractionText(t.nanos) + "Z")))))))))))
  {
    PrintFive(t.year, t.month, t.day, t.hour, t.minute, TimeLayout(4), TimeTail(t));
  }

  lemma PrintFive(a: nat, b: nat, c: nat, d: nat, e: nat, layout: seq<Field>, tail: string)
    requires |layout| == 5
    ensures Print([a, b, c, d, e], layout, Decimal, tail) ==
      Pad(a, Decimal, layout[0].width) + ([layout[0].after] + (Pad(b, Decimal, layout[1].width) + ([layout[1].after] +
        (Pad(c, Decimal, layout[2].width) + ([layout[2].after] +
          (Pad(d, Decimal, layout[3].width) + ([layout[3].after] +
            (Pad(e, Decimal, layout[4].width) + ([layout[4].after] + tail)))))))))
  {
    var l1, l2 := layout[1..], layout[1..][1..];
    var l3, l4 := l2[1..], l2[1..][1..];
    assert [a, b, c, d, e][1..] == [b, c, d, e] && [b, c, d, e][1..] == [c, d, e];
    assert [c, d, e][1..] == [d, e] && [d, e][1..] == [e] && [e][1..] == [];
    assert Print([e], l4, Decimal, tail) == Pad(e, Decimal, l4[0].width) + ([l4[0].after] + tail);
    assert Print([d, e], l3, Decimal, tail)
        == Pad(d, Decimal, l3[0].width) + ([l3[0].after] + Print([e], l4, Decimal, tail));
    assert Print([c, d, e], l2, Decimal, tail)
        == Pad(c, Decimal, l2[0].width) + ([l2[0].after] + Print([d, e], l3, Decimal, tail));
    assert Print([b, c, d, e], l1, Decimal, tail)
        == Pad(b, Decimal, l1[0].width) + ([l1[0].after] + Print([c, d, e], l2, Decimal, tail));
  }

  /** time.Parse(time.RFC3339Nano, s), of times in UTC. */
  function ParseTime(s: string): (r: Option<Civil>)
    ensures r.Some? ==> ValidTime(r.value)
  {
    var scanned := Scan(s, TimeLayout(4), Decimal);
    if scanned.None? || |scanned.value.1| < 2 then None
    else
      var v, tail := scanned.value.0, scanned.value.1;
      var second, nanos := Parse(tail[..2], Decimal), ScanFractionAndZone(tail[2..]);
      if second.None? || nanos.None? then None
      else
        var t := Civil(v[0], v[1], v[2], v[3], v[4], second.value, nanos.value);
        if ValidTime(t) then Some(t) else None
  }

  lemma TimeRoundTrip(t: Civil)
    requires ValidTime(t) && t.year <= 9999
    ensures ParseTime(FormatTime(t)) == Some(t)
  {
    DecimalPowers(2);
    DecimalPowers(4);
    var values := [t.year, t.month, t.day, t.hour, t.minute];
    ScanPrint(values, TimeLayout(4), Decimal, TimeTail(t));
    ParsePad(t.second, Decimal, 2);
    ScanFraction(t.nanos);
    assert TimeTail(t)[..2] == Pad(t.second, Decimal, 2);
    assert TimeTail(t)[2..] == FractionText(t.nanos) + "Z";
  }

  /** A year of five digits or more prints, but does not parse. */
  lemma LongYearsDoNotParse(t: Civil)
    requires ValidTime(t) && t.year > 9999
    ensures ParseTime(FormatTime(t)) == None
  {
    var w := YearWidth(t.year);
    var year := Pad(t.year, Decimal, w);
    assert IsDigit(year[4], Decimal);
    assert FormatTime(t)[4] == year[4];
  }

  lemma TimeIsPlain(t: Civil)
    requires ValidTime(t)
    ensures Plain(FormatTime(t))
  {
    DigitsArePlain(Pad(t.second, Decimal, 2), Decimal);
    TrimmedDigits(LastDigits(t.nanos, Decimal, 9), Decimal);
    DigitsArePlain(Text(TrimZeros(LastDigits(t.nanos, Decimal, 9)), Decimal), Decimal);
    assert Plain(FractionText(t.nanos));
    assert Plain(TimeTail(t));
    PrintIsPlain([t.year, t.month, t.day, t.hour, t.minute], TimeLayout(YearWidth(t.year)), Decimal, TimeTail(t));
  }

  // ── UUIDs ──

  const UUID_LAYOUT: seq<Field> := [Field(8, '-'), Field(4, '-'), Field(4, '-'), Field(4, '-')]

  function FormatUuid(u: Uuid): string {
    Print([u.g1, u.g2, u.g3, u.g4], UUID_LAYOUT, Hex, Pad(u.g5, Hex, 12))
  }

  /** The text of a UUID, group by group. */
  lemma UuidShape(u: Uuid)
    ensures FormatUuid(u) ==
      Pad(u.g1, Hex, 8) + ("-" + (Pad(u.g2, Hex, 4) + ("-" + (Pad(u.g3, Hex, 4) + ("-" +
        (Pad(u.g4, Hex, 4) + ("-" + Pad(u.g5, Hex, 12))))))))
  {
    var last := Pad(u.g5, Hex, 12);
    var l1, l2, l3 := UUID_LAYOUT[1..], UUID_LAYOUT[1..][1..], UUID_LAYOUT[1..][1..][1..];
    assert [u.g1, u.g2, u.g3, u.g4][1..] == [u.g2, u.g3, u.g4] && [u.g2, u.g3, u.g4][1..] == [u.g3, u.g4];
    assert [u.g3, u.g4][1..] == [u.g4] && [u.g4][1..] == [];
    assert Print([u.g4], l3, Hex, last) == Pad(u.g4, Hex, 4) + ("-" + last);
    assert Print([u.g3, u.g4], l2, Hex, last) == Pad(u.g3, Hex, 4) + ("-" + Print([u.g4], l3, Hex, last));
    assert Print([u.g2, u.g3, u.g4], l1, Hex, last)
        == Pad(u.g2, Hex, 4) + ("-" + Print([u.g3, u.g4], l2, Hex, last));
  }

  /** uuid.Parse, of the 36-character form. */
  function ParseUuid(s: string): Option<Uuid> {
    var scanned := Scan(s, UUID_LAYOUT, Hex);
    if scanned.None? || |scanned.value.1| != 12 then None
    else
      var v, last := scanned.value.0, Parse(scanned.value.1, Hex);
      if last.None? then None else Some(Uuid(v[0], v[1], v[2], v[3], last.value))
  }

  lemma UuidRoundTrip(u: Uuid)
    requires ValidUuid(u)
    ensures ParseUuid(FormatUuid(u)) == Some(u)
  {
    ScanPrint([u.g1, u.g2, u.g3, u.g4], UUID_LAYOUT, Hex, Pad(u.g5, Hex, 12));
    ParsePad(u.g5, Hex, 12);
  }

  lemma UuidIsPlain(u: Uuid)
    ensures Plain(FormatUuid(u))
  {
    DigitsArePlain(Pad(u.g5, Hex, 12), Hex);
    PrintIsPlain([u.g1, u.g2, u.g3, u.g4], UUID_LAYOUT, Hex, Pad(u.g5, Hex, 12));
  }

  // ── Tokens ──

  function FirstBar(s: string): (i: nat)
    ensures i <= |s|
    ensures i < |s| ==> s[i] == '|'
    ensures forall j :: 0 <= j < i ==> s[j] != '|'
  {
    if s == "" || s[0] == '|' then 0 else FirstBar(s[1..]) + 1
  }

  function RawCursor(p: Position): (raw: string)
    requires ValidPosition(p)
    ensures Base64Url.IsBytes(raw) && raw != ""
    ensures FirstBar(raw) == |FormatTime(p.at)|
  {
    TimeIsPlain(p.at);
    UuidIsPlain(p.id);
    var raw := FormatTime(p.at) + ("|" + FormatUuid(p.id));
    assert raw[|FormatTime(p.at)|] == '|';
    raw
  }

  function EncodeCursor(p: Position): (token: string)
    requires ValidPosition(p)
    ensures token != ""
  {
    Base64Url.RoundTrip(RawCursor(p));
    Base64Url.Encode(RawCursor(p))
  }

  /** SplitN(raw, "|", 2), then both halves. */
  function ParseRaw(raw: string): Option<Position> {
    var bar := FirstBar(raw);
    if bar == |raw| then None
    else
      var at, id := ParseTime(raw[..bar]), ParseUuid(raw[bar + 1..]);
      if at.None? || id.None? then None else Some(Position(at.value, id.value))
  }

  function DecodeCursor(token: string): Option<Position> {
    var raw := Base64Url.Decode(token);
    if raw.None? then None else ParseRaw(raw.value)
  }

  lemma ParseHalves(a: string, b: string)
    requires FirstBar(a + ("|" + b)) == |a|
    ensures ParseRaw(a + ("|" + b)) ==
      if ParseTime(a).None? || ParseUuid(b).None? then None
      else Some(Position(ParseTime(a).value, ParseUuid(b).value))
  {
    var raw := a + ("|" + b);
    assert raw[..|a|] == a && raw[|a| + 1..] == b;
  }

  lemma RawIs(p: Position)
    requires ValidPosition(p)
    ensures RawCursor(p) == FormatTime(p.at) + ("|" + FormatUuid(p.id))
  {
  }

  lemma RawParses(p: Position)
    requires ValidPosition(p)
    ensures
      var at, id := ParseTime(FormatTime(p.at)), ParseUuid(FormatUuid(p.id));
      ParseRaw(RawCursor(p)) == if at.None? || id.None? then None else Some(Position(at.value, id.value))
  {
    RawIs(p);
    assert FirstBar(RawCursor(p)) == |FormatTime(p.at)|;
    ParseHalves(FormatTime(p.at), FormatUuid(p.id));
  }

  lemma RawRoundTrip(p: Position)
    requires ValidPosition(p)
    ensures ParseRaw(RawCursor(p)) == if p.at.year <= 9999 then Some(p) else None
  {
    RawParses(p);
    UuidRoundTrip(p.id);
    if p.at.year <= 9999 {
      TimeRoundTrip(p.at);
    } else {
      LongYearsDoNotParse(p.at);
    }
  }

  /** decodeCursor undoes encodeCursor exactly for the years RFC 3339 can write; beyond year
      9999 the token is rejected, and a rejected token restarts the listing. */
  lemma CursorRoundTrip(p: Position)
    requires ValidPosition(p)
    ensures DecodeCursor(EncodeCursor(p)) == if p.at.year <= 9999 then Some(p) else None
  {
    Base64Url.RoundTrip(RawCursor(p));
    RawRoundTrip(p);
  }
}
