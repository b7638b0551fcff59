/** Fixed-width decimal and hexadecimal numerals, as fmt, strconv and uuid print and read them. */
module Digits {
  import opened Wrappers

  datatype Base = Decimal | Hex {
    function Radix(): int {
      if Decimal? then 10 else 16
    }

    function Times(x: int): int {
      if Decimal? then 10 * x else 16 * x
    }

    function Quotient(x: nat): nat {
      if Decimal? then x / 10 else x / 16
    }

    function Remainder(x: nat): nat {
      if Decimal? then x % 10 else x % 16
    }
  }

  // ── Numbers and digit lists ──

  function Pow(base: Base, w: nat): int {
    if w == 0 then 1 else base.Times(Pow(base, w - 1))
  }

  predicate DigitsOf(ds: seq<nat>, base: Base) {
    forall i :: 0 <= i < |ds| ==> ds[i] < base.Radix()
  }

  /** The last w digits of n. */
  function LastDigits(n: nat, base: Base, w: nat): (ds: seq<nat>)
    ensures |ds| == w && DigitsOf(ds, base)
  {
    if w == 0 then [] else LastDigits(base.Quotient(n), base, w - 1) + [base.Remainder(n)]
  }

  function Number(ds: seq<nat>, base: Base): nat {
    if ds == [] then 0 else base.Times(Number(ds[..|ds| - 1], base)) + ds[|ds| - 1]
  }

  lemma {:induction false} NumberOfLastDigits(n: nat, base: Base, w: nat)
    requires n < Pow(base, w)
    ensures Number(LastDigits(n, base, w), base) == n
  {
    if w > 0 {
      NumberOfLastDigits(base.Quotient(n), base, w - 1);
      var ds := LastDigits(n, base, w);
      assert ds[..|ds| - 1] == LastDigits(base.Quotient(n), base, w - 1);
    }
  }

  lemma {:induction false} DecimalPowers(w: nat)
    requires w <= 9
    ensures Pow(Decimal, w) ==
      [1, 10, 100, 1_000, 10_000, 100_000, 1_000_000, 10_000_000, 100_000_000, 1_000_000_000][w]
  {
    if w > 0 {
      DecimalPowers(w - 1);
    }
  }

  // ── Characters ──

  predicate LowerCase(c: char) {
    '0' <= c <= '9' || 'a' <= c <= 'f'
  }

  function Digit(d: nat): (c: char)
    requires d < 16
    ensures DigitValue(c) == Some(d)
  {
    if d < 10 then ('0' as int + d) as char else ('a' as int + d - 10) as char
  }

  /** Hexadecimal digits are read in either case. */
  function DigitValue(c: char): Option<nat> {
    if '0' <= c <= '9' then Some(c as int - '0' as int)
    else if 'a' <= c <= 'f' then Some(c as int - 'a' as int + 10)
    else if 'A' <= c <= 'F' then Some(c as int - 'A' as int + 10)
    else None
  }

  predicate IsDigit(c: char, base: Base) {
    DigitValue(c).Some? && DigitValue(c).value < base.Radix()
  }

  predicate AllDigits(s: string, base: Base) {
    forall i :: 0 <= i < |s| ==> IsDigit(s[i], base)
  }

  function Text(ds: seq<nat>, base: Base): (s: string)
    requires DigitsOf(ds, base)
    ensures |s| == |ds| && AllDigits(s, base)
    ensures forall i :: 0 <= i < |ds| ==> DigitValue(s[i]) == Some(ds[i])
  {
    seq(|ds|, i requires 0 <= i < |ds| => Digit(ds[i]))
  }

  /** Digits are printed in lower case. */
  lemma TextIsLowerCase(ds: seq<nat>, base: Base)
    requires DigitsOf(ds, base)
    ensures forall i :: 0 <= i < |ds| ==> LowerCase(Text(ds, base)[i])
  {
  }

  function Read(s: string, base: Base): (ds: seq<nat>)
    requires AllDigits(s, base)
    ensures |ds| == |s| && DigitsOf(ds, base)
    ensures forall i :: 0 <= i < |s| ==> DigitValue(s[i]) == Some(ds[i])
  {
    seq(|s|, i requires 0 <= i < |s| => DigitValue(s[i]).value)
  }

  /** n on w digits, zero-padded. */
  function Pad(n: nat, base: Base, w: nat): (s: string)
    ensures |s| == w && AllDigits(s, base)
  {
    Text(LastDigits(n, base, w), base)
  }

  /** Reads a numeral made of digits only. */
  function Parse(s: string, base: Base): (r: Option<nat>)
    ensures r.Some? <==> AllDigits(s, base)
  {
    if AllDigits(s, base) then Some(Number(Read(s, base), base)) else None
  }

  /** Reading a padded numeral gives the number back. */
  lemma ParsePad(n: nat, base: Base, w: nat)
    requires n < Pow(base, w)
    ensures Parse(Pad(n, base, w), base) == Some(n)
  {
    var ds := LastDigits(n, base, w);
    var rs := Read(Text(ds, base), base);
    forall i | 0 <= i < |ds| ensures rs[i] == ds[i] {
      assert DigitValue(Text(ds, base)[i]) == Some(ds[i]);
    }
    assert rs == ds;
    NumberOfLastDigits(n, base, w);
  }
}
