/** Integer literals have the values that their digits say. */
module Numerals {
  import opened Symbols
  import opened Syntax

  /** The digits of a number, without leading zeros; hexadecimal ones in either case. */
  function DigitChar(d: nat, upper: bool): (c: char)
    requires d < 16
  {
    if upper then "0123456789ABCDEF"[d] else "0123456789abcdef"[d]
  }

  function Written(n: nat, base: nat, upper: bool): (r: string)
    requires 2 <= base <= 16
  {
    if n < base then [DigitChar(n, upper)] else Written(n / base, base, upper) + [DigitChar(n % base, upper)]
  }

  lemma DigitBack(d: nat, upper: bool)
    requires d < 16
    ensures DigitOf(DigitChar(d, upper)) == d && (DigitChar(d, upper) == '0' <==> d == 0)
    ensures DigitChar(d, upper) != 'x' && DigitChar(d, upper) != 'X'
  {
  }

  lemma OneDigit(c: char, base: nat)
    requires DigitOf(c) < base
    ensures Positional([c], base) == Some(DigitOf(c))
  {
    assert [c][..0] == [] && Positional([], base) == Some(0);
  }

  lemma OneMoreDigit(front: string, c: char, base: nat, m: nat)
    requires Positional(front, base) == Some(m) && DigitOf(c) < base
    ensures Positional(front + [c], base) == Some(m * base + DigitOf(c))
  {
    assert (front + [c])[..|front|] == front;
  }

  lemma Divided(n: nat, base: nat)
    requires 2 <= base
    ensures n % base < base && n / base * base + n % base == n && (base <= n ==> 0 < n / base < n)
  {
  }

  lemma WrittenStep(n: nat, base: nat, upper: bool, front: nat, last: nat)
    requires 2 <= base <= 16 && base <= n && front == n / base && last == n % base && last < base
    ensures Written(n, base, upper) == Written(front, base, upper) + [DigitChar(last, upper)]
  {
  }

  lemma {:induction false} WrittenValue(n: nat, base: nat, upper: bool)
    requires 2 <= base <= 16
    ensures Positional(Written(n, base, upper), base) == Some(n)
  {
    var front, last := n / base, n % base;
    Divided(n, base);
    DigitBack(last, upper);
    if n < base {
      DigitBack(n, upper);
      OneDigit(DigitChar(n, upper), base);
    } else {
      WrittenValue(front, base, upper);
      WrittenStep(n, base, upper, front, last);
      OneMoreDigit(Written(front, base, upper), DigitChar(last, upper), base, front);
    }
  }

  lemma {:induction false} WrittenShape(n: nat, base: nat, upper: bool)
    requires 2 <= base <= 16
    ensures Written(n, base, upper) != "" && (n > 0 ==> Written(n, base, upper)[0] != '0')
    ensures forall c :: c in Written(n, base, upper) ==> c != 'x' && c != 'X'
  {
    var front, last := n / base, n % base;
    Divided(n, base);
    DigitBack(last, upper);
    if n < base {
      DigitBack(n, upper);
    } else {
      WrittenShape(front, base, upper);
      WrittenStep(n, base, upper, front, last);
    }
  }

  /** A literal of up to 64 bits has its value, and a longer one has none. */
  function Bounded(n: nat): (v: Option<nat>) {
    if n <= 0xFFFF_FFFF_FFFF_FFFF then Some(n) else None
  }

  lemma DecimalLiteral(n: nat)
    ensures IntValue(Written(n, 10, false)) == Bounded(n)
  {
    WrittenValue(n, 10, false);
    WrittenShape(n, 10, false);
    if n == 0 {
      assert Written(0, 10, false) == "0";
    }
  }

  lemma OctalLiteral(n: nat)
    ensures IntValue("0" + Written(n, 8, false)) == Bounded(n)
  {
    var digits := Written(n, 8, false);
    WrittenValue(n, 8, false);
    WrittenShape(n, 8, false);
    assert digits[0] in digits;
    assert ("0" + digits)[1..] == digits && ("0" + digits)[1] == digits[0];
  }

  lemma HexLiteral(n: nat, upper: bool, mark: char)
    requires mark == 'x' || mark == 'X'
    ensures IntValue(['0', mark] + Written(n, 16, upper)) == Bounded(n)
  {
    var digits := Written(n, 16, upper);
    WrittenValue(n, 16, upper);
    WrittenShape(n, 16, upper);
    assert (['0', mark] + digits)[2..] == digits;
  }

  /** With a sign the value must fit into 63 bits and the sign. */
  lemma SignedLiteral(n: nat, negative: bool)
    ensures
      var v: int := if negative then -(n as int) else n;
      SignedValue(Written(n, 10, false), negative)
      == if -0x8000_0000_0000_0000 <= v <= 0x7FFF_FFFF_FFFF_FFFF then Some(v) else None
  {
    DecimalLiteral(n);
  }

  /** Fields have 29-bit numbers, values 32-bit ones, and what a message or an enum reserves is of its own kind. */
  lemma NumberLimits(n: nat, negative: bool, inEnum: bool)
    ensures FieldNumber(Written(n, 10, false)) <==> 1 <= n < 0x2000_0000
    ensures
      var v: int := if negative then -(n as int) else n;
      && (EnumNumber(Written(n, 10, false), negative) <==> -0x8000_0000 <= v < 0x8000_0000)
      && (ReservedNumber(inEnum, Written(n, 10, false), negative) <==>
            if inEnum then -0x8000_0000 <= v < 0x8000_0000 else !negative && 1 <= v < 0x2000_0000)
  {
    SignedLiteral(n, negative);
    DecimalLiteral(n);
  }
}
