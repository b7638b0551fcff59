/** internal/webhook/signer.go: the signature header "t=<unix>,v1=<hex>", its printer and its
    hand-written parser. HMAC-SHA256 is any function to 32 bytes. A string is its bytes, one
    character each. */
module Signer {
  import opened Wrappers
  import opened Int64
  import opened Digits

  // ── Ranging over the runes of a string ──

  predicate ByteIn(s: string, i: nat, lo: int, hi: int) {
    i < |s| && lo <= s[i] as int <= hi
  }

  /** The bytes of the first rune (RFC 3629, section 4); 0 when they are not valid UTF-8. */
  function RuneWidth(s: string): (w: nat)
    requires s != ""
    ensures w <= |s|
    ensures s[0] as int < 0x80 ==> w == 1
    ensures s[0] as int >= 0x80 ==> forall i :: 0 <= i < w ==> s[i] as int >= 0x80
  {
    var b := s[0] as int;
    if b < 0x80 then 1
    else if 0xC2 <= b <= 0xDF then (if ByteIn(s, 1, 0x80, 0xBF) then 2 else 0)
    else if 0xE0 <= b <= 0xEF then
      (if ByteIn(s, 1, if b == 0xE0 then 0xA0 else 0x80, if b == 0xED then 0x9F else 0xBF)
          && ByteIn(s, 2, 0x80, 0xBF) then 3 else 0)
    else if 0xF0 <= b <= 0xF4 then
      (if ByteIn(s, 1, if b == 0xF0 then 0x90 else 0x80, if b == 0xF4 then 0x8F else 0xBF)
          && ByteIn(s, 2, 0x80, 0xBF) && ByteIn(s, 3, 0x80, 0xBF) then 4 else 0)
    else 0
  }

  /** The bytes of a Unicode scalar value (RFC 3629, section 3). */
  function Utf8(v: nat): seq<nat> {
    if v < 0x80 then [v]
    else if v < 0x800 then [0xC0 + v / 0x40, 0x80 + v % 0x40]
    else if v < 0x1_0000 then [0xE0 + v / 0x1000, 0x80 + v / 0x40 % 0x40, 0x80 + v % 0x40]
    else [0xF0 + v / 0x4_0000, 0x80 + v / 0x1000 % 0x40, 0x80 + v / 0x40 % 0x40, 0x80 + v % 0x40]
  }

  predicate IsScalar(v: nat) {
    v < 0xD800 || 0xE000 <= v <= 0x10_FFFF
  }

  predicate StartsWith(s: string, bytes: seq<nat>) {
    |bytes| <= |s| && forall i :: 0 <= i < |bytes| ==> s[i] as int == bytes[i]
  }

  lemma TwoByteBounds(v: nat)
    requires 0x80 <= v < 0x800
    ensures 0xC2 <= Utf8(v)[0] <= 0xDF && 0x80 <= Utf8(v)[1] <= 0xBF
  {
  }

  lemma ThreeByteBounds(v: nat)
    requires 0x800 <= v < 0x1_0000 && IsScalar(v)
    ensures
      var u := Utf8(v);
      && 0xE0 <= u[0] <= 0xEF && 0x80 <= u[1] <= 0xBF && 0x80 <= u[2] <= 0xBF
      && (u[0] == 0xE0 ==> u[1] >= 0xA0) && (u[0] == 0xED ==> u[1] <= 0x9F)
  {
  }

  lemma FourByteBounds(v: nat)
    requires 0x1_0000 <= v && IsScalar(v)
    ensures
      var u := Utf8(v);
      && 0xF0 <= u[0] <= 0xF4 && 0x80 <= u[1] <= 0xBF && 0x80 <= u[2] <= 0xBF && 0x80 <= u[3] <= 0xBF
      && (u[0] == 0xF0 ==> u[1] >= 0x90) && (u[0] == 0xF4 ==> u[1] <= 0x8F)
  {
  }

  /** Text that starts with the bytes of a scalar value starts with a rune of that width. */
  lemma ScalarIsRune(s: string, v: nat)
    requires s != "" && IsScalar(v) && StartsWith(s, Utf8(v))
    ensures RuneWidth(s) == |Utf8(v)|
  {
    if 0x80 <= v < 0x800 {
      TwoByteBounds(v);
    } else if 0x800 <= v < 0x1_0000 {
      ThreeByteBounds(v);
    } else if 0x1_0000 <= v {
      FourByteBounds(v);
    }
  }

  /** A rune is the bytes of a scalar value, so everything else is invalid: overlong forms, surrogates,
      values beyond U+10FFFF, and bytes cut off. */
  lemma RuneIsScalar(s: string) returns (v: nat)
    requires s != "" && RuneWidth(s) > 0
    ensures IsScalar(v) && |Utf8(v)| == RuneWidth(s) && StartsWith(s, Utf8(v))
  {
    var b := s[0] as int;
    if RuneWidth(s) == 1 {
      v := b;
    } else if RuneWidth(s) == 2 {
      v := (b - 0xC0) * 0x40 + (s[1] as int - 0x80);
    } else if RuneWidth(s) == 3 {
      v := ThreeBytes(b, s[1] as int, s[2] as int);
    } else {
      v := FourBytes(b, s[1] as int, s[2] as int, s[3] as int);
    }
  }

  lemma ThreeBytes(a: int, b: int, c: int) returns (v: nat)
    requires 0xE0 <= a <= 0xEF && 0x80 <= b <= 0xBF && 0x80 <= c <= 0xBF
    requires (a == 0xE0 ==> b >= 0xA0) && (a == 0xED ==> b <= 0x9F)
    ensures IsScalar(v) && Utf8(v) == [a, b, c]
  {
    v := (a - 0xE0) * 0x1000 + (b - 0x80) * 0x40 + (c - 0x80);
    assert v / 0x40 == (a - 0xE0) * 0x40 + (b - 0x80);
  }

  lemma FourBytes(a: int, b: int, c: int, d: int) returns (v: nat)
    requires 0xF0 <= a <= 0xF4 && 0x80 <= b <= 0xBF && 0x80 <= c <= 0xBF && 0x80 <= d <= 0xBF
    requires (a == 0xF0 ==> b >= 0x90) && (a == 0xF4 ==> b <= 0x8F)
    ensures IsScalar(v) && Utf8(v) == [a, b, c, d]
  {
    v := (a - 0xF0) * 0x4_0000 + (b - 0x80) * 0x1000 + (c - 0x80) * 0x40 + (d - 0x80);
    assert v / 0x40 == (a - 0xF0) * 0x1000 + (b - 0x80) * 0x40 + (c - 0x80);
    assert v / 0x1000 == (a - 0xF0) * 0x40 + (b - 0x80);
  }

  /** U+FFFD, which an invalid byte is read as. */
  const REPLACEMENT: string := [0xEF as char, 0xBF as char, 0xBD as char]

  /** The runes of s written out again. */
  function Runes(s: string): string {
    if s == "" then ""
    else
      var w := RuneWidth(s);
      if w == 0 then REPLACEMENT + Runes(s[1..]) else s[..w] + Runes(s[w..])
  }

  /** An invalid byte alone is replaced, by the bytes of U+FFFD. */
  lemma InvalidIsReplaced(s: string)
    requires s != "" && RuneWidth(s) == 0
    ensures StartsWith(Runes(s), Utf8(0xFFFD)) && Runes(s)[3..] == Runes(s[1..])
  {
  }

  predicate ValidText(s: string) {
    s == "" || (RuneWidth(s) > 0 && ValidText(s[RuneWidth(s)..]))
  }

  /** Valid text in front is left as it is. */
  lemma {:induction false} RunesAfterValid(a: string, b: string)
    requires ValidText(a)
    ensures Runes(a + b) == a + Runes(b)
  {
    if a == "" {
      assert a + b == b;
    } else {
      RunesAfterRune(a, b);
      RunesAfterValid(a[RuneWidth(a)..], b);
      CutAndJoin(a, RuneWidth(a), Runes(b));
    }
  }

  lemma CutAndJoin(a: string, n: nat, more: string)
    requires n <= |a|
    ensures a[..n] + (a[n..] + more) == a + more
  {
  }

  lemma RunesAfterRune(a: string, b: string)
    requires a != "" && RuneWidth(a) > 0
    ensures Runes(a + b) == a[..RuneWidth(a)] + Runes(a[RuneWidth(a)..] + b)
  {
    var w := RuneWidth(a);
    SameWidth(a, b);
    assert (a + b)[..w] == a[..w] && (a + b)[w..] == a[w..] + b;
  }

  lemma SameWidth(a: string, b: string)
    requires a != "" && RuneWidth(a) > 0
    ensures RuneWidth(a + b) == RuneWidth(a)
  {
  }

  predicate IsAscii(s: string) {
    forall i :: 0 <= i < |s| ==> s[i] as int < 0x80
  }

  lemma {:induction false} AsciiIsValid(s: string)
    requires IsAscii(s)
    ensures ValidText(s)
  {
    if s != "" {
      AsciiIsValid(s[1..]);
    }
  }

  lemma RunesOfValid(s: string)
    requires ValidText(s)
    ensures Runes(s) == s
  {
    RunesAfterValid(s, "");
    assert s + "" == s;
  }

  // ── Searching and joining text ──

  /** The position of the first c, or the length. */
  function FirstIndex(s: string, c: char): (k: nat)
    ensures k <= |s| && c !in s[..k]
    ensures k < |s| ==> s[k] == c
    ensures k == |s| <==> c !in s
  {
    if s == "" then 0
    else if s[0] == c then 0
    else
      var k := FirstIndex(s[1..], c);
      assert s[..k + 1] == [s[0]] + s[1..][..k];
      assert s == [s[0]] + s[1..];
      k + 1
  }

  /** A prefix without c, then c, fixes where the first c is. */
  lemma FirstIndexAfter(a: string, c: char, rest: string)
    requires c !in a
    ensures FirstIndex(a + [c] + rest, c) == |a|
  {
    var s := a + [c] + rest;
    assert s[|a|] == c && forall i :: 0 <= i < |a| ==> s[i] == a[i];
  }

  /** The text between commas; an empty last one is dropped. */
  function Fields(s: string): seq<string> {
    if s == "" then []
    else
      var k := FirstIndex(s, ',');
      if k == |s| then [s] else [s[..k]] + Fields(s[k + 1..])
  }

  function Join(parts: seq<string>): string {
    if parts == [] then ""
    else if |parts| == 1 then parts[0]
    else parts[0] + [','] + Join(parts[1..])
  }

  predicate CommaFree(parts: seq<string>) {
    forall i :: 0 <= i < |parts| ==> ',' !in parts[i]
  }

  function LastComma(s: string): string {
    if s != "" && s[|s| - 1] == ',' then "," else ""
  }

  lemma JoinOneMore(first: string, tail: string, fields: seq<string>)
    requires tail == Join(fields) + LastComma(tail) && (fields == [] <==> tail == "")
    ensures first + [','] + tail == Join([first] + fields) + LastComma(first + [','] + tail)
  {
    assert ([first] + fields)[1..] == fields;
    if tail != "" {
      assert (first + [','] + tail)[|first| + |tail|] == tail[|tail| - 1];
    }
  }

  lemma FieldsAtComma(cur: string, rest: string)
    requires ',' !in cur
    ensures Fields(cur + [','] + rest) == [cur] + Fields(rest)
  {
    var s := cur + [','] + rest;
    FirstIndexAfter(cur, ',', rest);
    assert s[..|cur|] == cur && s[|cur| + 1..] == rest;
  }

  lemma FieldsWithoutComma(cur: string)
    requires ',' !in cur
    ensures Fields(cur) == if cur == "" then [] else [cur]
  {
  }

  /** The parts but for an empty last one. */
  function Kept(parts: seq<string>): seq<string> {
    if parts != [] && parts[|parts| - 1] == "" then parts[..|parts| - 1] else parts
  }

  lemma KeptNext(first: string, rest: seq<string>)
    requires rest != []
    ensures Kept([first] + rest) == [first] + Kept(rest)
    ensures Join([first] + rest) == first + [','] + Join(rest)
  {
    assert ([first] + rest)[1..] == rest;
  }

  /** Splitting undoes joining, but for an empty last part. */
  lemma {:induction false} FieldsUndoJoin(parts: seq<string>)
    requires CommaFree(parts)
    ensures Fields(Join(parts)) == Kept(parts)
  {
    if |parts| == 1 {
      FieldsWithoutComma(parts[0]);
    } else if |parts| > 1 {
      var first, rest := parts[0], parts[1..];
      assert parts == [first] + rest;
      KeptNext(first, rest);
      FieldsAtComma(first, Join(rest));
      FieldsUndoJoin(rest);
    }
  }

  lemma {:induction false} FieldsAreCommaFree(s: string)
    ensures CommaFree(Fields(s)) && (Fields(s) == [] <==> s == "")
  {
    var k := FirstIndex(s, ',');
    if k < |s| {
      FieldsAreCommaFree(s[k + 1..]);
    }
  }

  /** The split is recovered by joining, up to one comma at the end. */
  lemma {:induction false} JoinUndoesFields(s: string)
    ensures s == Join(Fields(s)) + LastComma(s)
  {
    var k := FirstIndex(s, ',');
    FieldsAreCommaFree(s);
    if k < |s| {
      var first, tail := s[..k], s[k + 1..];
      assert s == first + [','] + tail;
      FieldsAtComma(first, tail);
      JoinUndoesFields(tail);
      FieldsAreCommaFree(tail);
      JoinOneMore(first, tail, Fields(tail));
    } else if s != "" {
      FieldsWithoutComma(s);
      assert s[|s| - 1] in s;
    }
  }

  function RuneStep(s: string): (n: nat)
    requires s != ""
    ensures 1 <= n <= |s|
  {
    if RuneWidth(s) == 0 then 1 else RuneWidth(s)
  }

  /** What one rune other than a comma adds to the current part. */
  function RuneText(s: string): (t: string)
    requires s != "" && s[0] != ','
    ensures ',' !in t
  {
    if RuneWidth(s) == 0 then REPLACEMENT else s[..RuneWidth(s)]
  }

  lemma RunesAtComma(s: string)
    requires s != "" && s[0] == ','
    ensures Runes(s) == [','] + Runes(s[1..])
  {
    assert s[..1] == [','];
  }

  lemma RunesGoOn(s: string)
    requires s != "" && s[0] != ','
    ensures Runes(s) == RuneText(s) + Runes(s[RuneStep(s)..])
  {
  }

  lemma Associate(a: string, b: string, c: string)
    ensures a + (b + c) == (a + b) + c
  {
  }

  lemma FieldEnds(cur: string, rest: string)
    requires ',' !in cur
    ensures Fields(cur + ([','] + rest)) == [cur] + Fields(rest)
  {
    Associate(cur, [','], rest);
    FieldsAtComma(cur, rest);
  }

  /** What the loop appends to its parts from a state on: the rest of the text, and the current part. */
  ghost function Loop(rest: string, cur: string): seq<string> {
    if rest == "" then (if cur == "" then [] else [cur])
    else if rest[0] == ',' then [cur] + Loop(rest[1..], "")
    else Loop(rest[RuneStep(rest)..], cur + RuneText(rest))
  }

  lemma {:induction false} LoopIsFields(rest: string, cur: string)
    requires ',' !in cur
    ensures Loop(rest, cur) == Fields(cur + Runes(rest))
  {
    if rest == "" {
      FieldsWithoutComma(cur);
      assert cur + "" == cur;
    } else if rest[0] == ',' {
      LoopIsFields(rest[1..], "");
      AtComma(rest, cur);
    } else {
      LoopIsFields(rest[RuneStep(rest)..], cur + RuneText(rest));
      RunesGoOn(rest);
      Associate(cur, RuneText(rest), Runes(rest[RuneStep(rest)..]));
    }
  }

  lemma AtComma(rest: string, cur: string)
    requires rest != "" && rest[0] == ',' && ',' !in cur
    ensures Fields(cur + Runes(rest)) == [cur] + Fields("" + Runes(rest[1..]))
  {
    RunesAtComma(rest);
    FieldEnds(cur, Runes(rest[1..]));
    Unprefixed(Runes(rest[1..]));
  }

  lemma Unprefixed(t: string)
    ensures "" + t == t
  {
  }

  lemma Reassociate(parts: seq<string>, cur: string, more: seq<string>)
    ensures parts + ([cur] + more) == (parts + [cur]) + more
  {
  }

  lemma LoopFromStart(s: string)
    ensures [] + Loop(s, "") == Fields(Runes(s))
  {
    LoopIsFields(s, "");
    Unprefixed(Runes(s));
  }

  method SplitCSV(s: string) returns (parts: seq<string>)
    ensures parts == Fields(Runes(s))
  {
    parts := [];
    var cur, rest := "", s;
    while rest != ""
      invariant parts + Loop(rest, cur) == [] + Loop(s, "")
      decreases |rest|
    {
      if rest[0] == ',' {
        Reassociate(parts, cur, Loop(rest[1..], ""));
        parts, cur, rest := parts + [cur], "", rest[1..];
      } else {
        cur, rest := cur + RuneText(rest), rest[RuneStep(rest)..];
      }
    }
    if cur != "" {
      parts := parts + [cur];
    }
    LoopFromStart(s);
  }

  lemma {:induction false} JoinIsValid(parts: seq<string>)
    requires forall i :: 0 <= i < |parts| ==> ValidText(parts[i])
    ensures ValidText(Join(parts))
  {
    if |parts| > 1 {
      JoinIsValid(parts[1..]);
      ValidWithComma(parts[0], Join(parts[1..]));
    }
  }

  lemma ValidWithComma(first: string, rest: string)
    requires ValidText(first) && ValidText(rest)
    ensures ValidText(first + [','] + rest)
  {
    assert ([','] + rest)[1..] == rest;
    ValidConcat(first, [','] + rest);
    assert first + [','] + rest == first + ([','] + rest);
  }

  lemma {:induction false} ValidConcat(a: string, b: string)
    requires ValidText(a) && ValidText(b)
    ensures ValidText(a + b)
  {
    if a == "" {
      assert a + b == b;
    } else {
      var w := RuneWidth(a);
      SameWidth(a, b);
      assert (a + b)[w..] == a[w..] + b;
      ValidConcat(a[w..], b);
    }
  }

  /** splitCSV undoes comma-joining of comma-free texts, but for an empty last one. */
  lemma SplitUndoesJoin(parts: seq<string>)
    requires CommaFree(parts) && forall i :: 0 <= i < |parts| ==> ValidText(parts[i])
    ensures Fields(Runes(Join(parts))) == Kept(parts)
  {
    JoinIsValid(parts);
    RunesOfValid(Join(parts));
    FieldsUndoJoin(parts);
  }

  /** key=value at the first '='. */
  function KeyValue(s: string): (kv: Option<(string, string)>)
    ensures kv.Some? <==> '=' in s
    ensures kv.Some? ==> s == kv.value.0 + ['='] + kv.value.1 && '=' !in kv.value.0
  {
    var k := FirstIndex(s, '=');
    if k < |s| then Some((s[..k], s[k + 1..])) else None
  }

  lemma KeyValueOf(key: string, value: string)
    requires '=' !in key
    ensures KeyValue(key + ['='] + value) == Some((key, value))
  {
    var s := key + ['='] + value;
    FirstIndexAfter(key, '=', value);
    assert s[..|key|] == key && s[|key| + 1..] == value;
  }

  method SplitKV(s: string) returns (key: string, value: string, ok: bool)
    ensures KeyValue(s) == if ok then Some((key, value)) else None
    ensures !ok ==> key == "" && value == ""
  {
    var i := 0;
    while i < |s|
      invariant 0 <= i <= |s| && '=' !in s[..i]
    {
      if s[i] == '=' {
        assert s == s[..i] + ['='] + s[i + 1..];
        FirstIndexAfter(s[..i], '=', s[i + 1..]);
        return s[..i], s[i + 1..], true;
      }
      var here := s[i..];
      assert '=' !in here[..RuneStep(here)];
      assert s[..i + RuneStep(here)] == s[..i] + here[..RuneStep(here)];
      i := i + RuneStep(here);
    }
    assert s[..|s|] == s;
    return "", "", false;
  }

  // ── strconv ──

  function DecimalDigits(n: nat): (ds: seq<nat>)
    ensures ds != [] && DigitsOf(ds, Decimal)
  {
    if n < 10 then [n] else DecimalDigits(n / 10) + [n % 10]
  }

  lemma {:induction false} NumberOfDecimalDigits(n: nat)
    ensures Number(DecimalDigits(n), Decimal) == n
  {
    var ds := DecimalDigits(n);
    if n < 10 {
      assert ds[..0] == [];
    } else {
      NumberOfDecimalDigits(n / 10);
      assert ds[..|ds| - 1] == DecimalDigits(n / 10);
    }
  }

  /** strconv.FormatInt(n, 10) */
  function FormatInt(n: int): string {
    if n < 0 then ['-'] + Text(DecimalDigits(-n), Decimal) else Text(DecimalDigits(n), Decimal)
  }

  /** strconv.ParseInt(s, 10, 64): an optional sign, digits, and the int64 range. */
  function ParseInt(s: string): (n: Option<int>)
    ensures n.Some? ==> Fits(n.value)
  {
    if s == "" then None
    else
      var digits := if s[0] == '-' || s[0] == '+' then s[1..] else s;
      var n := Parse(digits, Decimal);
      if digits == "" || n.None? then None
      else
        var v: int := if s[0] == '-' then 0 - n.value else n.value;
        if Fits(v) then Some(v) else None
  }

  lemma ParseText(n: nat)
    ensures Parse(Text(DecimalDigits(n), Decimal), Decimal) == Some(n)
  {
    var ds := DecimalDigits(n);
    var rs := Read(Text(ds, Decimal), Decimal);
    forall i | 0 <= i < |ds| ensures rs[i] == ds[i] {
      assert DigitValue(Text(ds, Decimal)[i]) == Some(ds[i]);
    }
    assert rs == ds;
    NumberOfDecimalDigits(n);
  }

  lemma NotADigit(s: string, c: char)
    requires AllDigits(s, Decimal) && DigitValue(c).None?
    ensures c !in s
  {
  }

  lemma FormattedCharacters(n: int, c: char)
    requires DigitValue(c).None? && c != '-'
    ensures FormatInt(n) != "" && c !in FormatInt(n)
  {
    NotADigit(Text(DecimalDigits(if n < 0 then -n else n), Decimal), c);
  }

  /** A numeral is read with or without its sign. */
  lemma ParseSigned(digits: string, n: nat)
    requires digits != "" && Parse(digits, Decimal) == Some(n)
    ensures ParseInt(['-'] + digits) == if Fits(0 - n) then Some(0 - n) else None
    ensures ParseInt(['+'] + digits) == ParseInt(digits) == if Fits(n) then Some(n) else None
  {
    assert (['-'] + digits)[1..] == digits && (['+'] + digits)[1..] == digits;
    assert IsDigit(digits[0], Decimal);
  }

  /** A printed int64 is read back. */
  lemma ParseFormatted(n: int)
    ensures ParseInt(FormatInt(n)) == if Fits(n) then Some(n) else None
  {
    var m: nat := if n < 0 then -n else n;
    ParseText(m);
    ParseSigned(Text(DecimalDigits(m), Decimal), m);
  }

  // ── The digest ──

  newtype byte = x: int | 0 <= x < 256

  type Digest = d: seq<byte> | |d| == 32 witness seq(32, _ => 0)

  type Mac = (string, string) -> Digest

  /** hex.EncodeToString, digit by digit. */
  function HexDigits(bs: seq<byte>): (ds: seq<nat>)
    ensures DigitsOf(ds, Hex) && |ds| == 2 * |bs|
  {
    if bs == [] then [] else [bs[0] as int / 16, bs[0] as int % 16] + HexDigits(bs[1..])
  }

  lemma {:induction false} HexDigitsInjective(a: seq<byte>, b: seq<byte>)
    requires |a| == |b| && HexDigits(a) == HexDigits(b)
    ensures a == b
  {
    if a != [] {
      assert HexDigits(a)[0] == HexDigits(b)[0] && HexDigits(a)[1] == HexDigits(b)[1];
      assert a[0] == b[0];
      assert HexDigits(a)[2..] == HexDigits(a[1..]) && HexDigits(b)[2..] == HexDigits(b[1..]);
      HexDigitsInjective(a[1..], b[1..]);
      assert a == [a[0]] + a[1..] && b == [b[0]] + b[1..];
    }
  }

  function HexText(d: Digest): string {
    Text(HexDigits(d), Hex)
  }

  lemma HexTextDecides(a: Digest, b: Digest)
    ensures HexText(a) == HexText(b) <==> a == b
  {
    var x, y := HexDigits(a), HexDigits(b);
    if HexText(a) == HexText(b) {
      forall i | 0 <= i < |x| ensures x[i] == y[i] {
        assert DigitValue(HexText(a)[i]) == Some(x[i]) && DigitValue(HexText(b)[i]) == Some(y[i]);
      }
      assert x == y;
      HexDigitsInjective(a, b);
    }
  }

  // ── Signing and verifying ──

  /** What is authenticated: "<timestamp>.<body>". */
  function Payload(ts: string, body: string): string {
    ts + ['.'] + body
  }

  /** The payload fixes both the timestamp and the body. */
  lemma PayloadInjective(ts: int, body: string, ts': int, body': string)
    requires Fits(ts) && Fits(ts')
    requires Payload(FormatInt(ts), body) == Payload(FormatInt(ts'), body')
    ensures ts == ts' && body == body'
  {
    var a, b := FormatInt(ts), FormatInt(ts');
    FormattedCharacters(ts, '.');
    FormattedCharacters(ts', '.');
    FirstIndexAfter(a, '.', body);
    FirstIndexAfter(b, '.', body');
    assert Payload(a, body)[..|a|] == a && Payload(b, body')[..|b|] == b;
    assert Payload(a, body)[|a| + 1..] == body && Payload(b, body')[|b| + 1..] == body';
    ParseFormatted(ts);
    ParseFormatted(ts');
  }

  function SignPayload(mac: Mac, secret: string, body: string, now: int): string {
    var ts := FormatInt(now);
    "t=" + ts + ",v1=" + HexText(mac(secret, Payload(ts, body)))
  }

  /** The value of the last part with the key. */
  function LastValue(parts: seq<string>, key: string): string {
    if parts == [] then ""
    else
      var kv := KeyValue(parts[|parts| - 1]);
      if kv.Some? && kv.value.0 == key then kv.value.1 else LastValue(parts[..|parts| - 1], key)
  }

  lemma LastValueNext(parts: seq<string>, i: nat, key: string)
    requires i < |parts|
    ensures LastValue(parts[..i + 1], key) ==
      var kv := KeyValue(parts[i]);
      if kv.Some? && kv.value.0 == key then kv.value.1 else LastValue(parts[..i], key)
  {
    assert parts[..i + 1][..i] == parts[..i];
  }

  predicate Accepts(mac: Mac, secret: string, header: string, body: string, tolerance: int, now: int) {
    var parts := Fields(Runes(header));
    Passes(mac, secret, LastValue(parts, "t"), LastValue(parts, "v1"), body, tolerance, now)
  }

  /** The two values of a header are present, the timestamp is a number and young enough, and the
      signature is the digest. */
  predicate Passes(mac: Mac, secret: string, ts: string, v1: string, body: string, tolerance: int, now: int) {
    && ts != "" && v1 != ""
    && ParseInt(ts).Some?
    && Wrap(now - ParseInt(ts).value) <= tolerance
    && v1 == HexText(mac(secret, Payload(ts, body)))
  }

  /** The first loop of VerifySignature. */
  method ReadHeader(header: string) returns (ts: string, v1: string)
    ensures ts == LastValue(Fields(Runes(header)), "t") && v1 == LastValue(Fields(Runes(header)), "v1")
  {
    ts, v1 := "", "";
    var parts := SplitCSV(header);
    for i := 0 to |parts|
      invariant ts == LastValue(parts[..i], "t") && v1 == LastValue(parts[..i], "v1")
    {
      LastValueNext(parts, i, "t");
      LastValueNext(parts, i, "v1");
      var k, v, isPair := SplitKV(parts[i]);
      if isPair {
        if k == "t" {
          ts := v;
        } else if k == "v1" {
          v1 := v;
        }
      }
    }
    assert parts[..|parts|] == parts;
  }

  method VerifySignature(mac: Mac, secret: string, header: string, body: string, tolerance: int, now: int)
    returns (ok: bool)
    ensures ok <==> Accepts(mac, secret, header, body, tolerance, now)
  {
    var ts, v1 := ReadHeader(header);
    ok := CheckValues(mac, secret, ts, v1, body, tolerance, now);
  }

  /** The rest of VerifySignature. */
  method CheckValues(mac: Mac, secret: string, ts: string, v1: string, body: string, tolerance: int, now: int)
    returns (ok: bool)
    ensures ok <==> Passes(mac, secret, ts, v1, body, tolerance, now)
  {
    if ts == "" || v1 == "" {
      return false;
    }
    var unixTS := ParseInt(ts);
    if unixTS.None? {
      return false;
    }
    if Wrap(now - unixTS.value) > tolerance {
      return false;
    }
    return v1 == HexText(mac(secret, Payload(ts, body)));
  }

  lemma HeaderFields(ts: string, sig: string)
    requires ts != "" && sig != "" && ',' !in ts && ',' !in sig
    ensures Fields("t=" + ts + ",v1=" + sig) == ["t=" + ts, "v1=" + sig]
  {
    var parts := ["t=" + ts, "v1=" + sig];
    assert Join(parts[1..]) == "v1=" + sig;
    assert "t=" + ts + ",v1=" + sig == Join(parts);
    FieldsUndoJoin(parts);
  }

  lemma HeaderValues(ts: string, sig: string)
    ensures
      var parts := ["t=" + ts, "v1=" + sig];
      LastValue(parts, "t") == ts && LastValue(parts, "v1") == sig
  {
    var parts := ["t=" + ts, "v1=" + sig];
    assert "t=" + ts == "t" + ['='] + ts && "v1=" + sig == "v1" + ['='] + sig;
    KeyValueOf("t", ts);
    KeyValueOf("v1", sig);
    assert parts[..1] == ["t=" + ts];
    assert LastValue(parts[..1], "t") == ts;
  }

  /** The header is the parts t, the decimal timestamp, and v1, the digest of "<timestamp>.<body>", joined
      by a comma. */
  lemma HeaderText(mac: Mac, secret: string, body: string, ts: int)
    ensures
      SignPayload(mac, secret, body, ts) ==
        Join(["t=" + FormatInt(ts), "v1=" + HexText(mac(secret, FormatInt(ts) + "." + body))])
  {
    TwoJoined("t=" + FormatInt(ts), "v1=" + HexText(mac(secret, FormatInt(ts) + "." + body)));
  }

  /** A digest is written as 64 hexadecimal digits in lower case. */
  lemma HexTextShape(d: Digest)
    ensures |HexText(d)| == 64 && forall i :: 0 <= i < 64 ==> LowerCase(HexText(d)[i])
  {
    TextIsLowerCase(HexDigits(d), Hex);
  }

  lemma TwoJoined(a: string, b: string)
    ensures Join([a, b]) == a + "," + b
  {
    assert [a] + [b] == [a, b] && Join([b]) == b;
    KeptNext(a, [b]);
  }

  /** And that is how it is split. */
  lemma HeaderParts(mac: Mac, secret: string, body: string, ts: int)
    ensures
      var sig := HexText(mac(secret, Payload(FormatInt(ts), body)));
      Fields(Runes(SignPayload(mac, secret, body, ts))) == ["t=" + FormatInt(ts), "v1=" + sig]
  {
    var text, sig := FormatInt(ts), HexText(mac(secret, Payload(FormatInt(ts), body)));
    FormattedCharacters(ts, ',');
    NotAComma(mac(secret, Payload(text, body)));
    HeaderIsAscii(mac, secret, body, ts);
    AsciiIsValid(SignPayload(mac, secret, body, ts));
    RunesOfValid(SignPayload(mac, secret, body, ts));
    HeaderFields(text, sig);
  }

  /** The value of a key is that of the last part with it; without any it is empty. */
  lemma {:induction false} LastWins(parts: seq<string>, key: string, i: nat, value: string)
    requires i < |parts| && KeyValue(parts[i]) == Some((key, value))
    requires forall j :: i < j < |parts| ==> KeyValue(parts[j]).None? || KeyValue(parts[j]).value.0 != key
    ensures LastValue(parts, key) == value
  {
    if i < |parts| - 1 {
      LastWins(parts[..|parts| - 1], key, i, value);
    }
  }

  lemma {:induction false} NoneIsEmpty(parts: seq<string>, key: string)
    requires forall j :: 0 <= j < |parts| ==> KeyValue(parts[j]).None? || KeyValue(parts[j]).value.0 != key
    ensures LastValue(parts, key) == ""
  {
    if parts != [] {
      NoneIsEmpty(parts[..|parts| - 1], key);
    }
  }

  /** A header made at time ts for one secret and body is accepted for another secret and body
      exactly when it is not too old and the digests agree. */
  lemma HeaderVerifies(
    mac: Mac, secret: string, body: string, ts: int, secret': string, body': string, tolerance: int, now: int)
    requires Fits(ts)
    ensures Accepts(mac, secret', SignPayload(mac, secret, body, ts), body', tolerance, now) <==>
      && Wrap(now - ts) <= tolerance
      && mac(secret', Payload(FormatInt(ts), body')) == mac(secret, Payload(FormatInt(ts), body))
  {
    HeaderReads(mac, secret, body, ts);
    PassesWhen(mac, secret', ts, HexText(mac(secret, Payload(FormatInt(ts), body))), body', tolerance, now);
    HexTextDecides(mac(secret', Payload(FormatInt(ts), body')), mac(secret, Payload(FormatInt(ts), body)));
  }

  lemma PassesWhen(mac: Mac, secret: string, ts: int, sig: string, body: string, tolerance: int, now: int)
    requires FormatInt(ts) != "" && ParseInt(FormatInt(ts)) == Some(ts) && sig != ""
    ensures Passes(mac, secret, FormatInt(ts), sig, body, tolerance, now) <==>
      Wrap(now - ts) <= tolerance && sig == HexText(mac(secret, Payload(FormatInt(ts), body)))
  {
  }

  lemma DigitsAreAscii(s: string, base: Base)
    requires AllDigits(s, base)
    ensures IsAscii(s)
  {
    forall i | 0 <= i < |s| ensures s[i] as int < 0x80 {
      assert IsDigit(s[i], base);
    }
  }

  lemma HeaderIsAscii(mac: Mac, secret: string, body: string, ts: int)
    ensures IsAscii(SignPayload(mac, secret, body, ts))
  {
    DigitsAreAscii(Text(DecimalDigits(if ts < 0 then -ts else ts), Decimal), Decimal);
    DigitsAreAscii(HexText(mac(secret, Payload(FormatInt(ts), body))), Hex);
    assert IsAscii(FormatInt(ts));
  }

  lemma HeaderReads(mac: Mac, secret: string, body: string, ts: int)
    requires Fits(ts)
    ensures
      var parts := Fields(Runes(SignPayload(mac, secret, body, ts)));
      && LastValue(parts, "t") == FormatInt(ts) != ""
      && LastValue(parts, "v1") == HexText(mac(secret, Payload(FormatInt(ts), body))) != ""
      && ParseInt(FormatInt(ts)) == Some(ts)
  {
    var text, sig := FormatInt(ts), HexText(mac(secret, Payload(FormatInt(ts), body)));
    FormattedCharacters(ts, ',');
    NotAComma(mac(secret, Payload(text, body)));
    HeaderParts(mac, secret, body, ts);
    HeaderValues(text, sig);
    ParseFormatted(ts);
  }

  lemma NotAComma(d: Digest)
    ensures HexText(d) != "" && ',' !in HexText(d)
  {
    var s := HexText(d);
    forall i | 0 <= i < |s| ensures s[i] != ',' {
      assert DigitValue(s[i]).Some?;
    }
  }

  /** For the same secret and body: accepted exactly up to the tolerance, when both clocks are
      past 1970. */
  lemma SameSecretVerifies(mac: Mac, secret: string, body: string, ts: int, tolerance: int, now: int)
    requires 0 <= ts < TWO_63 && 0 <= now < TWO_63
    ensures Accepts(mac, secret, SignPayload(mac, secret, body, ts), body, tolerance, now) <==> now - ts <= tolerance
  {
    HeaderVerifies(mac, secret, body, ts, secret, body, tolerance, now);
  }

  /** For all clocks, the wrapped age decides wrongly exactly when the age overflows int64 and
      its wrapped value falls on the other side of the tolerance. */
  lemma WrongAgeIff(mac: Mac, secret: string, body: string, ts: int, tolerance: int, now: int)
    requires Fits(ts) && Fits(now) && Fits(tolerance)
    ensures
      var accepted := Accepts(mac, secret, SignPayload(mac, secret, body, ts), body, tolerance, now);
      (accepted != (now - ts <= tolerance)) <==>
        || (now - ts >= TWO_63 && now - ts - TWO_64 <= tolerance)
        || (now - ts < -TWO_63 && now - ts + TWO_64 > tolerance)
  {
    HeaderVerifies(mac, secret, body, ts, secret, body, tolerance, now);
    WrappedDifference(now, ts);
  }

  lemma WrappedDifference(a: int, b: int)
    requires Fits(a) && Fits(b)
    ensures Wrap(a - b) ==
      if a - b >= TWO_63 then a - b - TWO_64 else if a - b < -TWO_63 then a - b + TWO_64 else a - b
  {
    var k: int :| Wrap(a - b) == a - b - k * TWO_64;
    CongruentFitsEqual(Wrap(a - b),
      if a - b >= TWO_63 then a - b - TWO_64 else if a - b < -TWO_63 then a - b + TWO_64 else a - b,
      if a - b >= TWO_63 then k - 1 else if a - b < -TWO_63 then k + 1 else k);
  }

  /** A timestamp so old that its age overflows is accepted. */
  lemma AncientAccepted(mac: Mac, secret: string, body: string)
    ensures Accepts(mac, secret, SignPayload(mac, secret, body, -TWO_63), body, 300, 1)
  {
    WrongAgeIff(mac, secret, body, -TWO_63, 300, 1);
  }
}
