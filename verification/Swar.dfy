/** The lexer's 8-bytes-at-a-time scanners, and the scalar loops they replace. */
module Swar {
  type Byte = bv8

  // ---- byte classes -------------------------------------------------------------

  predicate IsIdentContinue(c: Byte) {
    (0x30 <= c <= 0x39) || (0x41 <= c <= 0x5a) || (0x61 <= c <= 0x7a) || c == 0x5f
  }

  /** Space, tab, carriage return, vertical tab and form feed; newlines are counted apart. */
  predicate IsWs(c: Byte) {
    c == 0x20 || c == 0x09 || c == 0x0d || c == 0x0b || c == 0x0c
  }

  predicate IsNewline(c: Byte) {
    c == 0x0a
  }

  /** Ends the plain body of a string: its quote, a backslash or a newline. */
  predicate EndsBody(quote: Byte, c: Byte) {
    c == quote || c == 0x5c || c == 0x0a
  }

  // ---- words ----------------------------------------------------------------------

  const ONES: bv64 := 0x0101_0101_0101_0101
  const HIGH: bv64 := 0x8080_8080_8080_8080
  const LOW7: bv64 := 0x7f7f_7f7f_7f7f_7f7f

  /** Per-byte mask (high bit set) of bytes equal to `n`. */
  function SwarEq(x: bv64, n: Byte): bv64 {
    var v := x ^ (ONES * (n as bv64));
    HIGH & !(v | ((v | HIGH) - ONES))
  }

  /** Per-byte mask of 7-bit values at least `n`. */
  function SwarGe7(x7: bv64, n: Byte): bv64 {
    (x7 + ONES * (0x80 - n as bv64)) & HIGH
  }

  /** Little-endian load of the eight bytes at `i`. */
  function Load8(b: seq<Byte>, i: nat): bv64
    requires i + 8 <= |b|
  {
    (b[i] as bv64) | ((b[i + 1] as bv64) << 8) | ((b[i + 2] as bv64) << 16) | ((b[i + 3] as bv64) << 24) |
    ((b[i + 4] as bv64) << 32) | ((b[i + 5] as bv64) << 40) | ((b[i + 6] as bv64) << 48) | ((b[i + 7] as bv64) << 56)
  }

  /** Bytes of a word that are not identifier bytes. */
  function NonIdent(x: bv64): bv64 {
    var x7 := x & LOW7;
    var digit := SwarGe7(x7, 0x30) & !SwarGe7(x7, 0x3a);
    var upper := SwarGe7(x7, 0x41) & !SwarGe7(x7, 0x5b);
    var lower := SwarGe7(x7, 0x61) & !SwarGe7(x7, 0x7b);
    var underscore := SwarEq(x, 0x5f);
    var ident := (digit | upper | lower | underscore) & !(x & HIGH);
    !ident & HIGH
  }

  /** Bytes of a word that are not whitespace (newlines are whitespace here). */
  function NonWs(x: bv64): bv64 {
    var x7 := x & LOW7;
    var ctl := SwarGe7(x7, 0x09) & !SwarGe7(x7, 0x0e);
    var ws := (ctl | SwarEq(x, 0x20)) & !(x & HIGH);
    !ws & HIGH
  }

  /** Byte `k` of a word, in string order. */
  function Lane(x: bv64, k: nat): Byte
    requires k < 8
  {
    match k
    case 0 => (x & 0xff) as bv8
    case 1 => ((x >> 8) & 0xff) as bv8
    case 2 => ((x >> 16) & 0xff) as bv8
    case 3 => ((x >> 24) & 0xff) as bv8
    case 4 => ((x >> 32) & 0xff) as bv8
    case 5 => ((x >> 40) & 0xff) as bv8
    case 6 => ((x >> 48) & 0xff) as bv8
    case _ => (x >> 56) as bv8
  }

  /** Which bytes a mask flags. */
  function Flags(m: bv64): (f: seq<bool>)
    ensures |f| == 8
  {
    [Lane(m, 0) != 0, Lane(m, 1) != 0, Lane(m, 2) != 0, Lane(m, 3) != 0,
     Lane(m, 4) != 0, Lane(m, 5) != 0, Lane(m, 6) != 0, Lane(m, 7) != 0]
  }

  /** A mask has at most the high bit of each byte. */
  predicate IsMask(m: bv64) {
    m & LOW7 == 0
  }

  lemma LoadLanes(b: seq<Byte>, i: nat)
    requires i + 8 <= |b|
    ensures Lane(Load8(b, i), 0) == b[i + 0]
    ensures Lane(Load8(b, i), 1) == b[i + 1]
    ensures Lane(Load8(b, i), 2) == b[i + 2]
    ensures Lane(Load8(b, i), 3) == b[i + 3]
    ensures Lane(Load8(b, i), 4) == b[i + 4]
    ensures Lane(Load8(b, i), 5) == b[i + 5]
    ensures Lane(Load8(b, i), 6) == b[i + 6]
    ensures Lane(Load8(b, i), 7) == b[i + 7]
  {
  }

  lemma EqLow(x: bv64, n: Byte)
    ensures Lane(SwarEq(x, n), 0) != 0 <==> Lane(x, 0) == n
    ensures Lane(SwarEq(x, n), 1) != 0 <==> Lane(x, 1) == n
    ensures Lane(SwarEq(x, n), 2) != 0 <==> Lane(x, 2) == n
    ensures Lane(SwarEq(x, n), 3) != 0 <==> Lane(x, 3) == n
  {
  }

  lemma EqHigh(x: bv64, n: Byte)
    ensures Lane(SwarEq(x, n), 4) != 0 <==> Lane(x, 4) == n
    ensures Lane(SwarEq(x, n), 5) != 0 <==> Lane(x, 5) == n
  {
  }

  lemma EqTop(x: bv64, n: Byte)
    ensures Lane(SwarEq(x, n), 6) != 0 <==> Lane(x, 6) == n
    ensures Lane(SwarEq(x, n), 7) != 0 <==> Lane(x, 7) == n
  {
  }

  lemma NonIdentLow(x: bv64)
    ensures Lane(NonIdent(x), 0) != 0 <==> !IsIdentContinue(Lane(x, 0))
    ensures Lane(NonIdent(x), 1) != 0 <==> !IsIdentContinue(Lane(x, 1))
    ensures Lane(NonIdent(x), 2) != 0 <==> !IsIdentContinue(Lane(x, 2))
    ensures Lane(NonIdent(x), 3) != 0 <==> !IsIdentContinue(Lane(x, 3))
  {
  }

  lemma NonIdentHigh(x: bv64)
    ensures Lane(NonIdent(x), 4) != 0 <==> !IsIdentContinue(Lane(x, 4))
    ensures Lane(NonIdent(x), 5) != 0 <==> !IsIdentContinue(Lane(x, 5))
  {
  }

  lemma NonIdentTop(x: bv64)
    ensures Lane(NonIdent(x), 6) != 0 <==> !IsIdentContinue(Lane(x, 6))
    ensures Lane(NonIdent(x), 7) != 0 <==> !IsIdentContinue(Lane(x, 7))
  {
  }

  lemma NonWsLow(x: bv64)
    ensures Lane(NonWs(x), 0) != 0 <==> !(IsWs(Lane(x, 0)) || IsNewline(Lane(x, 0)))
    ensures Lane(NonWs(x), 1) != 0 <==> !(IsWs(Lane(x, 1)) || IsNewline(Lane(x, 1)))
    ensures Lane(NonWs(x), 2) != 0 <==> !(IsWs(Lane(x, 2)) || IsNewline(Lane(x, 2)))
    ensures Lane(NonWs(x), 3) != 0 <==> !(IsWs(Lane(x, 3)) || IsNewline(Lane(x, 3)))
  {
  }

  lemma NonWsHigh(x: bv64)
    ensures Lane(NonWs(x), 4) != 0 <==> !(IsWs(Lane(x, 4)) || IsNewline(Lane(x, 4)))
    ensures Lane(NonWs(x), 5) != 0 <==> !(IsWs(Lane(x, 5)) || IsNewline(Lane(x, 5)))
  {
  }

  lemma NonWsTop(x: bv64)
    ensures Lane(NonWs(x), 6) != 0 <==> !(IsWs(Lane(x, 6)) || IsNewline(Lane(x, 6)))
    ensures Lane(NonWs(x), 7) != 0 <==> !(IsWs(Lane(x, 7)) || IsNewline(Lane(x, 7)))
  {
  }

  lemma Masks(x: bv64, n: Byte)
    ensures IsMask(SwarEq(x, n)) && IsMask(NonIdent(x)) && IsMask(NonWs(x))
  {
  }

  // ---- counting bits ---------------------------------------------------------------

  function TrailingZeros8(c: Byte): nat {
    if c & 0x01 != 0 then 0 else if c & 0x02 != 0 then 1 else if c & 0x04 != 0 then 2 else if c & 0x08 != 0 then 3
    else if c & 0x10 != 0 then 4 else if c & 0x20 != 0 then 5 else if c & 0x40 != 0 then 6 else if c & 0x80 != 0 then 7 else 8
  }

  function TrailingZeros(x: bv64): nat {
    if Lane(x, 0) != 0 then TrailingZeros8(Lane(x, 0))
    else if Lane(x, 1) != 0 then 8 + TrailingZeros8(Lane(x, 1))
    else if Lane(x, 2) != 0 then 16 + TrailingZeros8(Lane(x, 2))
    else if Lane(x, 3) != 0 then 24 + TrailingZeros8(Lane(x, 3))
    else if Lane(x, 4) != 0 then 32 + TrailingZeros8(Lane(x, 4))
    else if Lane(x, 5) != 0 then 40 + TrailingZeros8(Lane(x, 5))
    else if Lane(x, 6) != 0 then 48 + TrailingZeros8(Lane(x, 6))
    else 56 + TrailingZeros8(Lane(x, 7))
  }

  function PowerOf2(j: nat): Byte {
    match j
    case 0 => 0x01
    case 1 => 0x02
    case 2 => 0x04
    case 3 => 0x08
    case 4 => 0x10
    case 5 => 0x20
    case 6 => 0x40
    case _ => 0x80
  }

  /** Bit `i` of a word, counted from the lowest one. */
  predicate IsSet(x: bv64, i: nat)
    requires i < 64
  {
    Lane(x, i / 8) & PowerOf2(i % 8) != 0
  }

  lemma LowestBit8(c: Byte)
    requires c != 0
    ensures TrailingZeros8(c) < 8 && c & PowerOf2(TrailingZeros8(c)) != 0
    ensures forall j: nat :: j < TrailingZeros8(c) ==> c & PowerOf2(j) == 0
  {
  }

  lemma FirstLane(x: bv64) returns (k: nat)
    requires x != 0
    ensures k < 8 && Lane(x, k) != 0 && TrailingZeros(x) == 8 * k + TrailingZeros8(Lane(x, k))
    ensures forall j: nat :: j < k ==> Lane(x, j) == 0
  {
    k := if Lane(x, 0) != 0 then 0 else if Lane(x, 1) != 0 then 1 else if Lane(x, 2) != 0 then 2
         else if Lane(x, 3) != 0 then 3 else if Lane(x, 4) != 0 then 4 else if Lane(x, 5) != 0 then 5
         else if Lane(x, 6) != 0 then 6 else 7;
  }

  /** The bits below the count are clear, and the bit at the count is set. */
  lemma LowestBit(x: bv64)
    requires x != 0
    ensures TrailingZeros(x) < 64 && IsSet(x, TrailingZeros(x))
    ensures forall i: nat :: i < TrailingZeros(x) ==> !IsSet(x, i)
  {
    var k := FirstLane(x);
    var n := TrailingZeros8(Lane(x, k));
    LowestBit8(Lane(x, k));
    assert (8 * k + n) / 8 == k && (8 * k + n) % 8 == n;
    forall i: nat | i < 8 * k + n ensures !IsSet(x, i) {
      if i / 8 == k {
        assert i % 8 < n;
      }
    }
  }

  function Bit(c: Byte, m: Byte): nat {
    if c & m != 0 then 1 else 0
  }

  function CountOnes8(c: Byte): nat {
    Bit(c, 0x01) + Bit(c, 0x02) + Bit(c, 0x04) + Bit(c, 0x08) +
    Bit(c, 0x10) + Bit(c, 0x20) + Bit(c, 0x40) + Bit(c, 0x80)
  }

  function CountOnes(x: bv64): nat {
    CountOnes8(Lane(x, 0)) + CountOnes8(Lane(x, 1)) + CountOnes8(Lane(x, 2)) + CountOnes8(Lane(x, 3)) +
    CountOnes8(Lane(x, 4)) + CountOnes8(Lane(x, 5)) + CountOnes8(Lane(x, 6)) + CountOnes8(Lane(x, 7))
  }

  /** Index of the first byte flagged in a mask. */
  function FirstFlag(mask: bv64): nat {
    TrailingZeros(mask) / 8
  }

  /** All bits below byte `k`. */
  function Below(k: nat): bv64 {
    match k
    case 0 => (1 << 0) - 1
    case 1 => (1 << 8) - 1
    case 2 => (1 << 16) - 1
    case 3 => (1 << 24) - 1
    case 4 => (1 << 32) - 1
    case 5 => (1 << 40) - 1
    case 6 => (1 << 48) - 1
    case _ => (1 << 56) - 1
  }

  lemma FirstFlagExact(m: bv64)
    requires m != 0
    ensures var k := FirstFlag(m); k < 8 && Flags(m)[k] && forall j :: 0 <= j < k ==> !Flags(m)[j]
  {
    assert forall c: Byte {:trigger TrailingZeros8(c)} :: c != 0 ==> TrailingZeros8(c) < 8;
  }

  lemma MaskLanes(m: bv64)
    requires IsMask(m)
    ensures Lane(m, 0) == 0 || Lane(m, 0) == 0x80
    ensures Lane(m, 1) == 0 || Lane(m, 1) == 0x80
    ensures Lane(m, 2) == 0 || Lane(m, 2) == 0x80
    ensures Lane(m, 3) == 0 || Lane(m, 3) == 0x80
    ensures Lane(m, 4) == 0 || Lane(m, 4) == 0x80
    ensures Lane(m, 5) == 0 || Lane(m, 5) == 0x80
    ensures Lane(m, 6) == 0 || Lane(m, 6) == 0x80
    ensures Lane(m, 7) == 0 || Lane(m, 7) == 0x80
  {
  }

  /** A flagged byte holds one bit, a clear one none. */
  lemma OnesOfMask(m: bv64)
    requires IsMask(m)
    ensures CountOnes8(Lane(m, 0)) == One(Lane(m, 0) != 0)
    ensures CountOnes8(Lane(m, 1)) == One(Lane(m, 1) != 0)
    ensures CountOnes8(Lane(m, 2)) == One(Lane(m, 2) != 0)
    ensures CountOnes8(Lane(m, 3)) == One(Lane(m, 3) != 0)
    ensures CountOnes8(Lane(m, 4)) == One(Lane(m, 4) != 0)
    ensures CountOnes8(Lane(m, 5)) == One(Lane(m, 5) != 0)
    ensures CountOnes8(Lane(m, 6)) == One(Lane(m, 6) != 0)
    ensures CountOnes8(Lane(m, 7)) == One(Lane(m, 7) != 0)
  {
    MaskLanes(m);
    assert CountOnes8(0) == 0 && CountOnes8(0x80) == 1;
  }

  function One(p: bool): nat {
    if p then 1 else 0
  }

  lemma BelowLanes(m: bv64, k: nat)
    requires k < 8
    ensures Lane(m & Below(k), 0) == if 0 < k then Lane(m, 0) else 0
    ensures Lane(m & Below(k), 1) == if 1 < k then Lane(m, 1) else 0
    ensures Lane(m & Below(k), 2) == if 2 < k then Lane(m, 2) else 0
    ensures Lane(m & Below(k), 3) == if 3 < k then Lane(m, 3) else 0
    ensures Lane(m & Below(k), 4) == if 4 < k then Lane(m, 4) else 0
    ensures Lane(m & Below(k), 5) == if 5 < k then Lane(m, 5) else 0
    ensures Lane(m & Below(k), 6) == if 6 < k then Lane(m, 6) else 0
    ensures Lane(m & Below(k), 7) == 0
  {
  }

  /** Newlines in a stretch of bytes. */
  function Newlines(s: seq<Byte>): nat {
    if s == [] then 0 else Newlines(s[..|s| - 1]) + One(IsNewline(s[|s| - 1]))
  }

  lemma NewlinesStep(s: seq<Byte>, k: nat)
    requires k < |s|
    ensures Newlines(s[..k + 1]) == Newlines(s[..k]) + One(IsNewline(s[k]))
  {
    assert s[..k + 1][..k] == s[..k];
  }

  lemma NewlinesOf8(s: seq<Byte>, k: nat)
    requires |s| == 8 && k <= 8
    ensures Newlines(s[..k]) ==
      One(0 < k && IsNewline(s[0])) + One(1 < k && IsNewline(s[1])) +
      One(2 < k && IsNewline(s[2])) + One(3 < k && IsNewline(s[3])) +
      One(4 < k && IsNewline(s[4])) + One(5 < k && IsNewline(s[5])) +
      One(6 < k && IsNewline(s[6])) + One(7 < k && IsNewline(s[7]))
  {
    if k > 0 {
      NewlinesStep(s, k - 1);
      NewlinesOf8(s, k - 1);
    }
  }

  lemma {:induction false} NewlinesSplit(s: seq<Byte>, u: seq<Byte>)
    ensures Newlines(s + u) == Newlines(s) + Newlines(u)
  {
    if u == [] {
      assert s + u == s;
    } else {
      assert (s + u)[..|s + u| - 1] == s + u[..|u| - 1];
      NewlinesSplit(s, u[..|u| - 1]);
    }
  }

  lemma BelowMask(m: bv64, k: nat)
    requires k < 8 && IsMask(m)
    ensures IsMask(m & Below(k))
  {
  }

  function NewlineMask(b: seq<Byte>, i: nat): bv64
    requires i + 8 <= |b|
  {
    SwarEq(Load8(b, i), 0x0a)
  }

  lemma NewlineLanes(b: seq<Byte>, i: nat)
    requires i + 8 <= |b|
    ensures IsMask(NewlineMask(b, i))
    ensures Lane(NewlineMask(b, i), 0) != 0 <==> IsNewline(b[i + 0])
    ensures Lane(NewlineMask(b, i), 1) != 0 <==> IsNewline(b[i + 1])
    ensures Lane(NewlineMask(b, i), 2) != 0 <==> IsNewline(b[i + 2])
    ensures Lane(NewlineMask(b, i), 3) != 0 <==> IsNewline(b[i + 3])
    ensures Lane(NewlineMask(b, i), 4) != 0 <==> IsNewline(b[i + 4])
    ensures Lane(NewlineMask(b, i), 5) != 0 <==> IsNewline(b[i + 5])
    ensures Lane(NewlineMask(b, i), 6) != 0 <==> IsNewline(b[i + 6])
    ensures Lane(NewlineMask(b, i), 7) != 0 <==> IsNewline(b[i + 7])
  {
    LoadLanes(b, i);
    EqLow(Load8(b, i), 0x0a);
    EqHigh(Load8(b, i), 0x0a);
    EqTop(Load8(b, i), 0x0a);
    Masks(Load8(b, i), 0x0a);
  }

  function Sum8(f0: bool, f1: bool, f2: bool, f3: bool, f4: bool, f5: bool, f6: bool, f7: bool): nat {
    One(f0) + One(f1) + One(f2) + One(f3) + One(f4) + One(f5) + One(f6) + One(f7)
  }

  /** How many newlines are among the first `k` of the eight bytes at `i`. */
  function Among8(b: seq<Byte>, i: nat, k: nat): nat
    requires i + 8 <= |b|
  {
    Sum8(0 < k && IsNewline(b[i + 0]), 1 < k && IsNewline(b[i + 1]),
         2 < k && IsNewline(b[i + 2]), 3 < k && IsNewline(b[i + 3]),
         4 < k && IsNewline(b[i + 4]), 5 < k && IsNewline(b[i + 5]),
         6 < k && IsNewline(b[i + 6]), 7 < k && IsNewline(b[i + 7]))
  }

  lemma MaskOnes(m: bv64, f0: bool, f1: bool, f2: bool, f3: bool, f4: bool, f5: bool, f6: bool, f7: bool)
    requires IsMask(m)
    requires Lane(m, 0) != 0 <==> f0
    requires Lane(m, 1) != 0 <==> f1
    requires Lane(m, 2) != 0 <==> f2
    requires Lane(m, 3) != 0 <==> f3
    requires Lane(m, 4) != 0 <==> f4
    requires Lane(m, 5) != 0 <==> f5
    requires Lane(m, 6) != 0 <==> f6
    requires Lane(m, 7) != 0 <==> f7
    ensures CountOnes(m) == Sum8(f0, f1, f2, f3, f4, f5, f6, f7)
  {
    OnesOfMask(m);
  }

  lemma OnesAmongAll(b: seq<Byte>, i: nat)
    requires i + 8 <= |b|
    ensures CountOnes(NewlineMask(b, i)) == Among8(b, i, 8)
  {
    NewlineLanes(b, i);
    MaskOnes(NewlineMask(b, i), IsNewline(b[i + 0]), IsNewline(b[i + 1]), IsNewline(b[i + 2]), IsNewline(b[i + 3]),
        IsNewline(b[i + 4]), IsNewline(b[i + 5]), IsNewline(b[i + 6]), IsNewline(b[i + 7]));
  }

  lemma CutLanes(b: seq<Byte>, i: nat, k: nat)
    requires i + 8 <= |b| && k < 8
    ensures IsMask(NewlineMask(b, i) & Below(k))
    ensures Lane(NewlineMask(b, i) & Below(k), 0) != 0 <==> 0 < k && IsNewline(b[i + 0])
    ensures Lane(NewlineMask(b, i) & Below(k), 1) != 0 <==> 1 < k && IsNewline(b[i + 1])
    ensures Lane(NewlineMask(b, i) & Below(k), 2) != 0 <==> 2 < k && IsNewline(b[i + 2])
    ensures Lane(NewlineMask(b, i) & Below(k), 3) != 0 <==> 3 < k && IsNewline(b[i + 3])
    ensures Lane(NewlineMask(b, i) & Below(k), 4) != 0 <==> 4 < k && IsNewline(b[i + 4])
    ensures Lane(NewlineMask(b, i) & Below(k), 5) != 0 <==> 5 < k && IsNewline(b[i + 5])
    ensures Lane(NewlineMask(b, i) & Below(k), 6) != 0 <==> 6 < k && IsNewline(b[i + 6])
    ensures Lane(NewlineMask(b, i) & Below(k), 7) == 0
  {
    NewlineLanes(b, i);
    BelowLanes(NewlineMask(b, i), k);
    BelowMask(NewlineMask(b, i), k);
  }

  lemma OnesAmongBelow(b: seq<Byte>, i: nat, k: nat)
    requires i + 8 <= |b| && k < 8
    ensures CountOnes(NewlineMask(b, i) & Below(k)) == Among8(b, i, k)
  {
    CutLanes(b, i, k);
    MaskOnes(NewlineMask(b, i) & Below(k),
             0 < k && IsNewline(b[i + 0]), 1 < k && IsNewline(b[i + 1]),
             2 < k && IsNewline(b[i + 2]), 3 < k && IsNewline(b[i + 3]),
             4 < k && IsNewline(b[i + 4]), 5 < k && IsNewline(b[i + 5]),
             6 < k && IsNewline(b[i + 6]), false);
  }

  lemma NewlinesAmong(b: seq<Byte>, i: nat, k: nat)
    requires i + 8 <= |b| && k <= 8
    ensures Newlines(b[i..i + k]) == Among8(b, i, k)
  {
    NewlinesOf8(b[i..i + 8], k);
    assert b[i..i + 8][..k] == b[i..i + k];
  }

  // ---- the scanners -----------------------------------------------------------------

  /** `r` is where a scalar loop over the bytes satisfying `p`, started at `i`, stops. */
  ghost predicate StopsAt(b: seq<Byte>, p: Byte -> bool, i: nat, r: nat) {
    && i <= r && (r <= |b| || r == i)
    && (forall j :: i <= j < r ==> p(b[j]))
    && (r < |b| ==> !p(b[r]))
  }

  /** The word at `i` is flagged exactly where `p` fails. */
  ghost predicate FlagsFailures(b: seq<Byte>, p: Byte -> bool, i: nat, m: bv64)
    requires i + 8 <= |b|
  {
    forall k :: 0 <= k < 8 ==> (Flags(m)[k] <==> !p(b[i + k]))
  }

  lemma ClearMask(m: bv64)
    ensures m == 0 ==> Flags(m) == [false, false, false, false, false, false, false, false]
  {
  }

  /** A word without flags is skipped whole; otherwise the scan stops at the first flag. */
  lemma WordStep(b: seq<Byte>, p: Byte -> bool, start: nat, i: nat, m: bv64)
    requires i + 8 <= |b| && start <= i && FlagsFailures(b, p, i, m)
    requires forall j :: start <= j < i ==> p(b[j])
    ensures m == 0 ==> forall j :: start <= j < i + 8 ==> p(b[j])
    ensures m != 0 ==> FirstFlag(m) < 8 && StopsAt(b, p, start, i + FirstFlag(m))
  {
    if m == 0 {
      ClearMask(m);
      forall j | i <= j < i + 8 ensures p(b[j]) {
        assert !Flags(m)[j - i];
      }
    } else {
      FirstFlagExact(m);
      var k := FirstFlag(m);
      assert !p(b[i + k]);
      forall j | i <= j < i + k ensures p(b[j]) {
        assert !Flags(m)[j - i];
      }
    }
  }

  predicate IsBlank(c: Byte) {
    IsWs(c) || IsNewline(c)
  }

  lemma FailuresByLane(b: seq<Byte>, p: Byte -> bool, i: nat, m: bv64)
    requires i + 8 <= |b|
    requires Lane(m, 0) != 0 <==> !p(b[i + 0])
    requires Lane(m, 1) != 0 <==> !p(b[i + 1])
    requires Lane(m, 2) != 0 <==> !p(b[i + 2])
    requires Lane(m, 3) != 0 <==> !p(b[i + 3])
    requires Lane(m, 4) != 0 <==> !p(b[i + 4])
    requires Lane(m, 5) != 0 <==> !p(b[i + 5])
    requires Lane(m, 6) != 0 <==> !p(b[i + 6])
    requires Lane(m, 7) != 0 <==> !p(b[i + 7])
    ensures FlagsFailures(b, p, i, m)
  {
    forall k | 0 <= k < 8
      ensures Flags(m)[k] <==> !p(b[i + k])
    {
    }
  }

  lemma IdentFailures(b: seq<Byte>, i: nat)
    requires i + 8 <= |b|
    ensures FlagsFailures(b, IsIdentContinue, i, NonIdent(Load8(b, i)))
  {
    var x := Load8(b, i);
    LoadLanes(b, i);
    NonIdentLow(x);
    NonIdentHigh(x);
    NonIdentTop(x);
    FailuresByLane(b, IsIdentContinue, i, NonIdent(x));
  }

  lemma WsFailures(b: seq<Byte>, i: nat)
    requires i + 8 <= |b|
    ensures FlagsFailures(b, IsBlank, i, NonWs(Load8(b, i)))
  {
    var x := Load8(b, i);
    LoadLanes(b, i);
    NonWsLow(x);
    NonWsHigh(x);
    NonWsTop(x);
    FailuresByLane(b, IsBlank, i, NonWs(x));
  }

  predicate NotNewline(c: Byte) {
    !IsNewline(c)
  }

  function InBody(quote: Byte): Byte -> bool {
    (c: Byte) => !EndsBody(quote, c)
  }

  lemma NewlineFailures(b: seq<Byte>, i: nat)
    requires i + 8 <= |b|
    ensures FlagsFailures(b, NotNewline, i, NewlineMask(b, i))
  {
    NewlineLanes(b, i);
    FailuresByLane(b, NotNewline, i, NewlineMask(b, i));
  }

  lemma OrLow(m: bv64, n: bv64, q: bv64)
    ensures Lane(m | n | q, 0) != 0 <==> Lane(m, 0) != 0 || Lane(n, 0) != 0 || Lane(q, 0) != 0
    ensures Lane(m | n | q, 1) != 0 <==> Lane(m, 1) != 0 || Lane(n, 1) != 0 || Lane(q, 1) != 0
    ensures Lane(m | n | q, 2) != 0 <==> Lane(m, 2) != 0 || Lane(n, 2) != 0 || Lane(q, 2) != 0
    ensures Lane(m | n | q, 3) != 0 <==> Lane(m, 3) != 0 || Lane(n, 3) != 0 || Lane(q, 3) != 0
  {
  }

  lemma OrHigh(m: bv64, n: bv64, q: bv64)
    ensures Lane(m | n | q, 4) != 0 <==> Lane(m, 4) != 0 || Lane(n, 4) != 0 || Lane(q, 4) != 0
    ensures Lane(m | n | q, 5) != 0 <==> Lane(m, 5) != 0 || Lane(n, 5) != 0 || Lane(q, 5) != 0
    ensures Lane(m | n | q, 6) != 0 <==> Lane(m, 6) != 0 || Lane(n, 6) != 0 || Lane(q, 6) != 0
    ensures Lane(m | n | q, 7) != 0 <==> Lane(m, 7) != 0 || Lane(n, 7) != 0 || Lane(q, 7) != 0
  {
  }

  lemma EqFailures(b: seq<Byte>, i: nat, n: Byte)
    requires i + 8 <= |b|
    ensures Lane(SwarEq(Load8(b, i), n), 0) != 0 <==> b[i + 0] == n
    ensures Lane(SwarEq(Load8(b, i), n), 1) != 0 <==> b[i + 1] == n
    ensures Lane(SwarEq(Load8(b, i), n), 2) != 0 <==> b[i + 2] == n
    ensures Lane(SwarEq(Load8(b, i), n), 3) != 0 <==> b[i + 3] == n
    ensures Lane(SwarEq(Load8(b, i), n), 4) != 0 <==> b[i + 4] == n
    ensures Lane(SwarEq(Load8(b, i), n), 5) != 0 <==> b[i + 5] == n
    ensures Lane(SwarEq(Load8(b, i), n), 6) != 0 <==> b[i + 6] == n
    ensures Lane(SwarEq(Load8(b, i), n), 7) != 0 <==> b[i + 7] == n
  {
    LoadLanes(b, i);
    EqLow(Load8(b, i), n);
    EqHigh(Load8(b, i), n);
    EqTop(Load8(b, i), n);
  }

  /** Three masks that flag single bytes, joined. */
  lemma JoinFailures(b: seq<Byte>, i: nat, quote: Byte, m: bv64, n: bv64, q: bv64)
    requires i + 8 <= |b|
    requires Lane(m, 0) != 0 <==> b[i + 0] == quote
    requires Lane(m, 1) != 0 <==> b[i + 1] == quote
    requires Lane(m, 2) != 0 <==> b[i + 2] == quote
    requires Lane(m, 3) != 0 <==> b[i + 3] == quote
    requires Lane(m, 4) != 0 <==> b[i + 4] == quote
    requires Lane(m, 5) != 0 <==> b[i + 5] == quote
    requires Lane(m, 6) != 0 <==> b[i + 6] == quote
    requires Lane(m, 7) != 0 <==> b[i + 7] == quote
    requires Lane(n, 0) != 0 <==> b[i + 0] == 0x5c
    requires Lane(n, 1) != 0 <==> b[i + 1] == 0x5c
    requires Lane(n, 2) != 0 <==> b[i + 2] == 0x5c
    requires Lane(n, 3) != 0 <==> b[i + 3] == 0x5c
    requires Lane(n, 4) != 0 <==> b[i + 4] == 0x5c
    requires Lane(n, 5) != 0 <==> b[i + 5] == 0x5c
    requires Lane(n, 6) != 0 <==> b[i + 6] == 0x5c
    requires Lane(n, 7) != 0 <==> b[i + 7] == 0x5c
    requires Lane(q, 0) != 0 <==> b[i + 0] == 0x0a
    requires Lane(q, 1) != 0 <==> b[i + 1] == 0x0a
    requires Lane(q, 2) != 0 <==> b[i + 2] == 0x0a
    requires Lane(q, 3) != 0 <==> b[i + 3] == 0x0a
    requires Lane(q, 4) != 0 <==> b[i + 4] == 0x0a
    requires Lane(q, 5) != 0 <==> b[i + 5] == 0x0a
    requires Lane(q, 6) != 0 <==> b[i + 6] == 0x0a
    requires Lane(q, 7) != 0 <==> b[i + 7] == 0x0a
    ensures FlagsFailures(b, InBody(quote), i, m | n | q)
  {
    OrLow(m, n, q);
    OrHigh(m, n, q);
    FailuresByLane(b, InBody(quote), i, m | n | q);
  }

  // One word of each scanner: which of its eight bytes stop the scan.

  method NonIdentAt(b: seq<Byte>, i: nat) returns (m: bv64)
    requires i + 8 <= |b|
    ensures FlagsFailures(b, IsIdentContinue, i, m)
  {
    IdentFailures(b, i);
    m := NonIdent(Load8(b, i));
  }

  method NonWsAt(b: seq<Byte>, i: nat) returns (m: bv64)
    requires i + 8 <= |b|
    ensures FlagsFailures(b, IsBlank, i, m)
  {
    WsFailures(b, i);
    m := NonWs(Load8(b, i));
  }

  method NewlineAt(b: seq<Byte>, i: nat) returns (m: bv64)
    requires i + 8 <= |b|
    ensures FlagsFailures(b, NotNewline, i, m)
  {
    NewlineFailures(b, i);
    m := SwarEq(Load8(b, i), 0x0a);
  }

  method EqAt(b: seq<Byte>, i: nat, n: Byte) returns (m: bv64)
    requires i + 8 <= |b|
    ensures Lane(m, 0) != 0 <==> b[i + 0] == n
    ensures Lane(m, 1) != 0 <==> b[i + 1] == n
    ensures Lane(m, 2) != 0 <==> b[i + 2] == n
    ensures Lane(m, 3) != 0 <==> b[i + 3] == n
    ensures Lane(m, 4) != 0 <==> b[i + 4] == n
    ensures Lane(m, 5) != 0 <==> b[i + 5] == n
    ensures Lane(m, 6) != 0 <==> b[i + 6] == n
    ensures Lane(m, 7) != 0 <==> b[i + 7] == n
  {
    EqFailures(b, i, n);
    m := SwarEq(Load8(b, i), n);
  }

  method BodyEndAt(b: seq<Byte>, quote: Byte, i: nat) returns (m: bv64)
    requires i + 8 <= |b|
    ensures FlagsFailures(b, InBody(quote), i, m)
  {
    var quotes := EqAt(b, i, quote);
    var escapes := EqAt(b, i, 0x5c);
    var newlines := EqAt(b, i, 0x0a);
    JoinFailures(b, i, quote, quotes, escapes, newlines);
    m := quotes | escapes | newlines;
  }

  /** Newlines of the word at `i` before byte `k`. */
  method NewlinesBefore(b: seq<Byte>, i: nat, k: nat) returns (n: nat)
    requires i + 8 <= |b| && k <= 8
    ensures n == Newlines(b[i..i + k])
  {
    NewlinesAmong(b, i, k);
    var nl := SwarEq(Load8(b, i), 0x0a);
    if k == 8 {
      OnesAmongAll(b, i);
      n := CountOnes(nl);
    } else {
      OnesAmongBelow(b, i, k);
      n := CountOnes(nl & Below(k));
    }
  }

  /** Advances past identifier bytes. */
  method ScanIdent(b: seq<Byte>, start: nat) returns (i: nat)
    ensures StopsAt(b, IsIdentContinue, start, i)
  {
    i := start;
    while i + 8 <= |b|
      invariant start <= i && (i <= |b| || i == start)
      invariant forall j :: start <= j < i ==> IsIdentContinue(b[j])
    {
      var non := NonIdentAt(b, i);
      WordStep(b, IsIdentContinue, start, i, non);
      if non == 0 {
        i := i + 8;
      } else {
        return i + FirstFlag(non);
      }
    }
    while i < |b| && IsIdentContinue(b[i])
      invariant start <= i && (i <= |b| || i == start)
      invariant forall j :: start <= j < i ==> IsIdentContinue(b[j])
    {
      i := i + 1;
    }
  }

  lemma MoreNewlines(b: seq<Byte>, start: nat, i: nat, k: nat)
    requires start <= i && i + k <= |b|
    ensures Newlines(b[start..i + k]) == Newlines(b[start..i]) + Newlines(b[i..i + k])
  {
    assert b[start..i + k] == b[start..i] + b[i..i + k];
    NewlinesSplit(b[start..i], b[i..i + k]);
  }

  /** Advances past whitespace, adding the newlines it skips to `line`. */
  method ScanWs(b: seq<Byte>, start: nat, line: nat) returns (i: nat, line': nat)
    ensures StopsAt(b, IsBlank, start, i)
    ensures line' == line + if start <= |b| then Newlines(b[start..i]) else 0
  {
    i, line' := start, line;
    while i + 8 <= |b|
      invariant start <= i && (i <= |b| || i == start)
      invariant forall j :: start <= j < i ==> IsBlank(b[j])
      invariant line' == line + if start <= |b| then Newlines(b[start..i]) else 0
    {
      var non := NonWsAt(b, i);
      WordStep(b, IsBlank, start, i, non);
      var k := if non == 0 then 8 else FirstFlag(non);
      var skipped := NewlinesBefore(b, i, k);
      MoreNewlines(b, start, i, k);
      line' := line' + skipped;
      if non == 0 {
        i := i + 8;
      } else {
        return i + k, line';
      }
    }
    while i < |b| && (IsNewline(b[i]) || IsWs(b[i]))
      invariant start <= i && (i <= |b| || i == start)
      invariant forall j :: start <= j < i ==> IsBlank(b[j])
      invariant line' == line + if start <= |b| then Newlines(b[start..i]) else 0
    {
      NextNewline(b, start, i);
      if IsNewline(b[i]) {
        line' := line' + 1;
      }
      i := i + 1;
    }
  }

  lemma OneByte(b: seq<Byte>, i: nat)
    requires i < |b|
    ensures Newlines(b[i..i + 1]) == One(IsNewline(b[i]))
  {
    assert b[i..i + 1] == [b[i]] && [b[i]][..0] == [];
  }

  lemma NextNewline(b: seq<Byte>, start: nat, i: nat)
    requires start <= i < |b|
    ensures Newlines(b[start..i + 1]) == Newlines(b[start..i]) + One(IsNewline(b[i]))
  {
    MoreNewlines(b, start, i, 1);
    OneByte(b, i);
  }

  /** Advances to the next newline, or the end of input. */
  method ScanToNewline(b: seq<Byte>, start: nat) returns (i: nat)
    ensures StopsAt(b, NotNewline, start, i)
  {
    i := start;
    while i + 8 <= |b|
      invariant start <= i && (i <= |b| || i == start)
      invariant forall j :: start <= j < i ==> NotNewline(b[j])
    {
      var nl := NewlineAt(b, i);
      WordStep(b, NotNewline, start, i, nl);
      if nl == 0 {
        i := i + 8;
      } else {
        return i + FirstFlag(nl);
      }
    }
    while i < |b| && !IsNewline(b[i])
      invariant start <= i && (i <= |b| || i == start)
      invariant forall j :: start <= j < i ==> NotNewline(b[j])
    {
      i := i + 1;
    }
  }

  /** Advances to the next byte that ends the plain body of a string. */
  method ScanStrBody(b: seq<Byte>, quote: Byte, start: nat) returns (i: nat)
    ensures StopsAt(b, InBody(quote), start, i)
  {
    i := start;
    while i + 8 <= |b|
      invariant start <= i && (i <= |b| || i == start)
      invariant forall j :: start <= j < i ==> InBody(quote)(b[j])
    {
      var stop := BodyEndAt(b, quote, i);
      WordStep(b, InBody(quote), start, i, stop);
      if stop == 0 {
        i := i + 8;
      } else {
        return i + FirstFlag(stop);
      }
    }
    while i < |b| && !EndsBody(quote, b[i])
      invariant start <= i && (i <= |b| || i == start)
      invariant forall j :: start <= j < i ==> InBody(quote)(b[j])
    {
      i := i + 1;
    }
  }

  /** A scalar loop has exactly one stopping point, so each scanner equals its loop. */
  lemma StopUnique(b: seq<Byte>, p: Byte -> bool, i: nat, q: nat, r: nat)
    requires StopsAt(b, p, i, q) && StopsAt(b, p, i, r)
    ensures q == r
  {
  }
}
