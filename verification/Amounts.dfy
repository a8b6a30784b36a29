/** Eight-decimal amount text (`fmt8` in `lending.rs`) and its exact inverse. */
module Amounts {
  const UNIT: nat := 100_000_000

  function Digit(n: nat): char
    requires n < 10
  {
    '0' + n as char
  }

  /** `to_string`. */
  function Decimal(n: nat): string {
    if n < 10 then [Digit(n)] else Decimal(n / 10) + [Digit(n % 10)]
  }

  /** `{n:0width$}` for an `n` that fits. */
  function Fixed(n: nat, width: nat): (s: string)
    ensures |s| == width
  {
    if width == 0 then [] else Fixed(n / 10, width - 1) + [Digit(n % 10)]
  }

  /** `trim_end_matches('0')`. */
  function TrimZeros(s: string): string {
    if s != [] && s[|s| - 1] == '0' then TrimZeros(s[..|s| - 1]) else s
  }

  function Fmt8(sats: nat): string {
    var whole, frac := sats / UNIT, sats % UNIT;
    if frac == 0 then Decimal(whole) else TrimZeros(Decimal(whole) + ['.'] + Fixed(frac, 8))
  }

  // ----- The inverse -----

  predicate IsDigit(c: char) { '0' <= c <= '9' }

  function ValueOf(c: char): nat { if IsDigit(c) then (c - '0') as nat else 0 }

  function FromDigits(s: string): nat {
    if s == [] then 0 else FromDigits(s[..|s| - 1]) * 10 + ValueOf(s[|s| - 1])
  }

  /** Position of the decimal point, or the length if there is none. */
  function Point(s: string): (i: nat)
    ensures i <= |s|
  {
    if s == [] || s[0] == '.' then 0 else 1 + Point(s[1..])
  }

  function PadZeros(s: string, width: nat): string {
    if |s| >= width then s else s + seq(width - |s|, _ => '0')
  }

  function Parse8(s: string): nat {
    var p := Point(s);
    if p == |s| then FromDigits(s) * UNIT
    else FromDigits(s[..p]) * UNIT + FromDigits(PadZeros(s[p + 1..], 8))
  }

  lemma {:induction false} DecimalRoundTrip(n: nat)
    ensures FromDigits(Decimal(n)) == n && Decimal(n) != [] && forall c :: c in Decimal(n) ==> IsDigit(c)
  {
    var s := Decimal(n);
    if n < 10 {
      assert s[..|s| - 1] == [];
    } else {
      DecimalRoundTrip(n / 10);
      assert s[..|s| - 1] == Decimal(n / 10);
    }
  }

  function Pow10(w: nat): nat { if w == 0 then 1 else 10 * Pow10(w - 1) }

  lemma {:induction false} FixedRoundTrip(n: nat, width: nat)
    requires n < Pow10(width)
    ensures FromDigits(Fixed(n, width)) == n && forall c :: c in Fixed(n, width) ==> IsDigit(c)
  {
    if width > 0 {
      FixedRoundTrip(n / 10, width - 1);
      var s := Fixed(n, width);
      assert s[..|s| - 1] == Fixed(n / 10, width - 1);
    }
  }

  lemma {:induction false} TrimThenPad(s: string)
    ensures PadZeros(TrimZeros(s), |s|) == s && |TrimZeros(s)| <= |s| && TrimZeros(s) == s[..|TrimZeros(s)|]
  {
    if s != [] && s[|s| - 1] == '0' {
      TrimThenPad(s[..|s| - 1]);
      assert s == s[..|s| - 1] + ['0'];
    }
  }

  /** Trimming stops inside a fraction that is not all zeros: it never reaches the point. */
  lemma {:induction false} TrimKeepsPrefix(prefix: string, s: string)
    requires FromDigits(s) > 0 && forall c :: c in s ==> IsDigit(c)
    ensures TrimZeros(prefix + s) == prefix + TrimZeros(s) && TrimZeros(s) != []
  {
    var init := s[..|s| - 1];
    assert (prefix + s)[..|prefix + s| - 1] == prefix + init;
    if s[|s| - 1] == '0' {
      TrimKeepsPrefix(prefix, init);
    }
  }

  lemma {:induction false} PointAfter(whole: string, rest: string)
    requires forall c :: c in whole ==> IsDigit(c)
    ensures Point(whole + ['.'] + rest) == |whole|
    ensures Point(whole) == |whole|
  {
    if whole == [] {
      assert (whole + ['.'] + rest)[0] == '.';
    } else {
      PointAfter(whole[1..], rest);
      assert whole[0] in whole;
      assert (whole + ['.'] + rest)[1..] == whole[1..] + ['.'] + rest;
    }
  }

  /** The shape of a formatted amount: digits, then only if there is a fraction a point and one to
      eight digits, the last not zero. */
  lemma Fmt8Shape(sats: nat)
    ensures Decimal(sats / UNIT) != [] && forall c :: c in Decimal(sats / UNIT) ==> IsDigit(c)
    ensures sats % UNIT == 0 ==> Fmt8(sats) == Decimal(sats / UNIT)
    ensures sats % UNIT != 0 ==>
              var f := TrimZeros(Fixed(sats % UNIT, 8));
              Fmt8(sats) == Decimal(sats / UNIT) + ['.'] + f && 0 < |f| <= 8 && f[|f| - 1] != '0'
              && forall c :: c in f ==> IsDigit(c)
  {
    DecimalRoundTrip(sats / UNIT);
    if sats % UNIT != 0 {
      assert Pow10(8) == UNIT;
      FixedRoundTrip(sats % UNIT, 8);
      TrimKeepsPrefix(Decimal(sats / UNIT) + ['.'], Fixed(sats % UNIT, 8));
      TrimThenPad(Fixed(sats % UNIT, 8));
      LastKept(Fixed(sats % UNIT, 8));
    }
  }

  lemma {:induction false} LastKept(s: string)
    ensures TrimZeros(s) != [] ==> TrimZeros(s)[|TrimZeros(s)| - 1] != '0'
  {
    if s != [] && s[|s| - 1] == '0' {
      LastKept(s[..|s| - 1]);
    }
  }

  /** Formatting loses nothing: the text parses back to the same number of satoshis. */
  lemma Fmt8RoundTrip(sats: nat)
    ensures Parse8(Fmt8(sats)) == sats
  {
    var whole, frac := sats / UNIT, sats % UNIT;
    DecimalRoundTrip(whole);
    Fmt8Shape(sats);
    if frac == 0 {
      PointAfter(Decimal(whole), []);
    } else {
      assert Pow10(8) == UNIT;
      FixedRoundTrip(frac, 8);
      var f := TrimZeros(Fixed(frac, 8));
      PointAfter(Decimal(whole), f);
      TrimThenPad(Fixed(frac, 8));
      var s := Fmt8(sats);
      assert s[..|Decimal(whole)|] == Decimal(whole) && s[|Decimal(whole)| + 1..] == f;
    }
  }

  /** Different amounts are always shown differently. */
  lemma Fmt8Injective(m: nat, n: nat)
    requires Fmt8(m) == Fmt8(n)
    ensures m == n
  {
    Fmt8RoundTrip(m);
    Fmt8RoundTrip(n);
  }

  // ----- In satoshis -----

  /** A digit is its place in the row of digits, written and read. */
  lemma DigitsInOrder(n: nat)
    requires n < 10
    ensures Digit(n) == "0123456789"[n] && ValueOf("0123456789"[n]) == n
  {
  }

  /** `s` spells `n` in decimal: its last digit is the remainder by ten, and the digits before spell the quotient. */
  predicate Spells(s: string, n: nat) {
    if s == [] then n == 0
    else s[|s| - 1] == "0123456789"[n % 10] && Spells(s[..|s| - 1], n / 10)
  }

  lemma {:induction false} DecimalSpells(n: nat)
    ensures Spells(Decimal(n), n) && Decimal(n) != [] && (n > 0 ==> Decimal(n)[0] != '0')
  {
    DigitsInOrder(n % 10);
    var s := Decimal(n);
    if n < 10 {
      assert s[..|s| - 1] == [];
    } else {
      DecimalSpells(n / 10);
      assert s[..|s| - 1] == Decimal(n / 10) && s[0] == Decimal(n / 10)[0];
    }
  }

  lemma {:induction false} FixedSpells(n: nat, width: nat)
    requires n < Pow10(width)
    ensures Spells(Fixed(n, width), n)
  {
    if width > 0 {
      DigitsInOrder(n % 10);
      FixedSpells(n / 10, width - 1);
      var s := Fixed(n, width);
      assert s[..|s| - 1] == Fixed(n / 10, width - 1);
    }
  }

  /** The text in satoshis: before the point the hundred millions, without a leading zero; after it the remainder as
      eight digits, less the zeros at its end; no point when nothing remains. */
  lemma Fmt8InSatoshis(sats: nat) returns (whole: string, fraction: string)
    ensures Spells(whole, sats / 100000000) && whole != [] && (sats >= 100000000 ==> whole[0] != '0')
    ensures sats % 100000000 == 0 ==> Fmt8(sats) == whole
    ensures sats % 100000000 != 0 ==>
              && Fmt8(sats) == whole + "." + fraction && 1 <= |fraction| <= 8 && fraction[|fraction| - 1] != '0'
              && Spells(fraction + seq(8 - |fraction|, _ => '0'), sats % 100000000)
  {
    whole := Decimal(sats / 100000000);
    DecimalSpells(sats / 100000000);
    Fmt8Shape(sats);
    fraction := TrimZeros(Fixed(sats % 100000000, 8));
    TrimThenPad(Fixed(sats % 100000000, 8));
    assert Pow10(8) == 100000000;
    FixedSpells(sats % 100000000, 8);
    hide Spells, Fixed, Decimal, TrimZeros;
    assert fraction + seq(8 - |fraction|, _ => '0') == PadZeros(fraction, 8);
  }
}
