/** base64.RawURLEncoding: the URL and filename safe alphabet of RFC 4648, section 5, without
    padding (section 3.2). Text stands for a byte string: every char is below 256. */
module Base64Url {
  import opened Wrappers

  predicate IsBytes(s: string) {
    forall i :: 0 <= i < |s| ==> s[i] as int < 256
  }

  type Byte = b: int | 0 <= b < 256
  type Sextet = n: int | 0 <= n < 64

  // ── Bytes and 6-bit groups ──

  function Cut(s: seq<Byte>): (t: seq<Sextet>)
    ensures t == [] <==> s == []
  {
    if s == [] then []
    else if |s| == 1 then [s[0] / 4, s[0] % 4 * 16]
    else if |s| == 2 then [s[0] / 4, s[0] % 4 * 16 + s[1] / 16, s[1] % 16 * 4]
    else [s[0] / 4, s[0] % 4 * 16 + s[1] / 16, s[1] % 16 * 4 + s[2] / 64, s[2] % 64] + Cut(s[3..])
  }

  /** Like Go's non-strict decoder, ignores the unused low bits of the last group. */
  function Glue(t: seq<Sextet>): Option<seq<Byte>> {
    if t == [] then Some([])
    else if |t| == 1 then None
    else
      var a: Byte := t[0] as int * 4 + t[1] as int / 16;
      if |t| == 2 then Some([a])
      else
        var b: Byte := t[1] as int % 16 * 16 + t[2] as int / 4;
        if |t| == 3 then Some([a, b])
        else
          var c: Byte := t[2] as int % 4 * 64 + t[3] as int;
          var rest := Glue(t[4..]);
          if rest.None? then None else Some([a, b, c] + rest.value)
  }

  /** Three bytes cut into four groups and glued together again. */
  lemma GroupsGlue(a: int, b: int, c: int)
    requires 0 <= a < 256 && 0 <= b < 256 && 0 <= c < 256
    ensures a / 4 * 4 + (a % 4 * 16 + b / 16) / 16 == a
    ensures (a % 4 * 16 + b / 16) % 16 * 16 + (b % 16 * 4 + c / 64) / 4 == b
    ensures (b % 16 * 4 + c / 64) % 4 * 64 + c % 64 == c
  {
  }

  lemma GlueThree(a: Byte, b: Byte, c: Byte, t: seq<Sextet>, rest: seq<Sextet>, tail: seq<Byte>)
    requires Glue(rest) == Some(tail)
    requires t == [a / 4, a % 4 * 16 + b / 16, b % 16 * 4 + c / 64, c % 64]
    ensures Glue(t + rest) == Some([a, b, c] + tail)
  {
    GroupsGlue(a, b, c);
    assert (t + rest)[4..] == rest;
  }

  lemma {:induction false} GlueCut(s: seq<Byte>)
    ensures Glue(Cut(s)) == Some(s)
  {
    if |s| == 1 {
      GroupsGlue(s[0], 0, 0);
      assert s == [s[0]];
    } else if |s| == 2 {
      GroupsGlue(s[0], s[1], 0);
      assert s == [s[0], s[1]];
    } else if |s| >= 3 {
      GlueCut(s[3..]);
      var t := [s[0] / 4, s[0] % 4 * 16 + s[1] / 16, s[1] % 16 * 4 + s[2] / 64, s[2] % 64];
      GlueThree(s[0], s[1], s[2], t, Cut(s[3..]), s[3..]);
      assert s == [s[0], s[1], s[2]] + s[3..];
    }
  }

  // ── The alphabet ──

  function CharOf(n: Sextet): (c: char)
    ensures ValueOf(c) == Some(n)
  {
    if n < 26 then ('A' as int + n) as char
    else if n < 52 then ('a' as int + n - 26) as char
    else if n < 62 then ('0' as int + n - 52) as char
    else if n == 62 then '-'
    else '_'
  }

  function ValueOf(c: char): Option<Sextet> {
    if 'A' <= c <= 'Z' then Some(c as int - 'A' as int)
    else if 'a' <= c <= 'z' then Some(c as int - 'a' as int + 26)
    else if '0' <= c <= '9' then Some(c as int - '0' as int + 52)
    else if c == '-' then Some(62)
    else if c == '_' then Some(63)
    else None
  }

  function Chars(t: seq<Sextet>): (s: string)
    ensures |s| == |t|
    ensures forall i :: 0 <= i < |t| ==> ValueOf(s[i]) == Some(t[i])
  {
    if t == [] then "" else Chars(t[..|t| - 1]) + [CharOf(t[|t| - 1])]
  }

  function Values(s: string): Option<seq<Sextet>> {
    if s == "" then Some([])
    else
      var init, last := Values(s[..|s| - 1]), ValueOf(s[|s| - 1]);
      if init.None? || last.None? then None else Some(init.value + [last.value])
  }

  lemma {:induction false} ValuesChars(s: string, t: seq<Sextet>)
    requires |s| == |t|
    requires forall i :: 0 <= i < |t| ==> ValueOf(s[i]) == Some(t[i])
    ensures Values(s) == Some(t)
  {
    if t != [] {
      ValuesChars(s[..|s| - 1], t[..|t| - 1]);
      assert t == t[..|t| - 1] + [t[|t| - 1]];
    }
  }

  /** Go's decoder skips line breaks anywhere in the input. */
  function SkipLineBreaks(t: string): string {
    if t == "" then ""
    else if t[0] == '\n' || t[0] == '\r' then SkipLineBreaks(t[1..])
    else [t[0]] + SkipLineBreaks(t[1..])
  }

  lemma {:induction false} NothingToSkip(t: string)
    requires forall i :: 0 <= i < |t| ==> ValueOf(t[i]).Some?
    ensures SkipLineBreaks(t) == t
  {
    if t != "" {
      NothingToSkip(t[1..]);
    }
  }

  // ── Text ──

  function ToBytes(s: string): (b: seq<Byte>)
    requires IsBytes(s)
    ensures |b| == |s| && forall i :: 0 <= i < |s| ==> b[i] == s[i] as int
  {
    seq(|s|, i requires 0 <= i < |s| => s[i] as int)
  }

  function ToText(b: seq<Byte>): (s: string)
    ensures |s| == |b| && forall i :: 0 <= i < |s| ==> s[i] as int == b[i]
  {
    seq(|b|, i requires 0 <= i < |b| => b[i] as char)
  }

  function Encode(s: string): string
    requires IsBytes(s)
  {
    Chars(Cut(ToBytes(s)))
  }

  function Decode(t: string): Option<string> {
    var values := Values(SkipLineBreaks(t));
    if values.None? then None
    else
      var bytes := Glue(values.value);
      if bytes.None? then None else Some(ToText(bytes.value))
  }

  /** Decoding undoes encoding, for every byte string; only "" encodes to "". */
  lemma RoundTrip(s: string)
    requires IsBytes(s)
    ensures Decode(Encode(s)) == Some(s)
    ensures Encode(s) == "" <==> s == ""
  {
    var t := Cut(ToBytes(s));
    NothingToSkip(Chars(t));
    ValuesChars(Chars(t), t);
    GlueCut(ToBytes(s));
    assert ToText(ToBytes(s)) == s;
  }

  /** The codes of A-Z, a-z, 0-9, '-' and '_', in the order of the RFC's table. */
  function CodeOf(n: Sextet): int {
    if n <= 25 then 65 + n
    else if n <= 51 then 97 + (n - 26)
    else if n <= 61 then 48 + (n - 52)
    else if n == 62 then 45
    else 95
  }

  /** Each 6-bit group is written in its place, in the alphabet of the RFC. */
  lemma {:induction false} CharsAt(t: seq<Sextet>, i: nat)
    requires i < |t|
    ensures Chars(t)[i] as int == CodeOf(t[i])
  {
    if i < |t| - 1 {
      CharsAt(t[..|t| - 1], i);
    }
  }

  function BitsOfThree(a: int, b: int, c: int): int {
    a * 0x1_0000 + b * 0x100 + c
  }

  function BitsOfFour(a: int, b: int, c: int, d: int): int {
    a * 0x4_0000 + b * 0x1000 + c * 0x40 + d
  }

  /** The groups are the bits of the bytes in order, three bytes as four groups, and a last group that is
      cut off is filled up with zero bits. */
  lemma CutKeepsBits(s: seq<Byte>)
    ensures |s| == 1 ==> |Cut(s)| == 2 && BitsOfThree(s[0], 0, 0) == BitsOfFour(Cut(s)[0], Cut(s)[1], 0, 0)
    ensures |s| == 2 ==>
      |Cut(s)| == 3 && BitsOfThree(s[0], s[1], 0) == BitsOfFour(Cut(s)[0], Cut(s)[1], Cut(s)[2], 0)
    ensures |s| >= 3 ==>
      && |Cut(s)| >= 4 && Cut(s)[4..] == Cut(s[3..])
      && BitsOfThree(s[0], s[1], s[2]) == BitsOfFour(Cut(s)[0], Cut(s)[1], Cut(s)[2], Cut(s)[3])
  {
    if |s| == 1 {
      SameBits(s[0], 0, 0);
    } else if |s| == 2 {
      SameBits(s[0], s[1], 0);
    } else if |s| >= 3 {
      SameBits(s[0], s[1], s[2]);
      var t := [s[0] / 4, s[0] % 4 * 16 + s[1] / 16, s[1] % 16 * 4 + s[2] / 64, s[2] % 64];
      assert Cut(s) == t + Cut(s[3..]);
    }
  }

  lemma SameBits(a: int, b: int, c: int)
    ensures BitsOfThree(a, b, c) == BitsOfFour(a / 4, a % 4 * 16 + b / 16, b % 16 * 4 + c / 64, c % 64)
  {
  }
}
