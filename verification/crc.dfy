/** CRC-32 as the header checksum computes it: half a byte at a time through a
    16-entry table (include/sub0log/wire.hpp:308-347), against the bit-by-bit
    definition of section 8 of RFC 1952.

    Machine words are written as their bits, least significant first, so a right
    shift drops the head and exclusive or is pointwise. */
module Crc {
  import opened Bytes

  type Bits = seq<bool>
  type Word = w: Bits | |w| == 32 witness False(32)

  function False(n: nat): (b: Bits)
    ensures |b| == n
  {
    seq(n, _ => false)
  }

  function Xor(a: Bits, b: Bits): (c: Bits)
    requires |a| == |b|
    ensures |c| == |a|
    ensures forall i :: 0 <= i < |c| ==> c[i] == (a[i] != b[i])
  {
    seq(|a|, i requires 0 <= i < |a| => a[i] != b[i])
  }

  function Not(a: Bits): (c: Bits)
    ensures |c| == |a|
    ensures forall i :: 0 <= i < |c| ==> c[i] == !a[i]
  {
    seq(|a|, i requires 0 <= i < |a| => !a[i])
  }

  /** Logical right shift, and widening, of a bit string. */
  function Shr(a: Bits, n: nat): (c: Bits)
    requires n <= |a|
    ensures |c| == |a|
  {
    a[n..] + False(n)
  }

  function Widen(a: Bits): (w: Word)
    requires |a| <= 32
  {
    a + False(32 - |a|)
  }

  function Value(a: Bits): nat {
    if a == [] then 0 else (if a[0] then 1 else 0) + 2 * Value(a[1..])
  }

  function BitsOf(v: nat, width: nat): (b: Bits)
    ensures |b| == width
  {
    if width == 0 then [] else [v % 2 == 1] + BitsOf(v / 2, width - 1)
  }

  function Pow2(n: nat): nat { if n == 0 then 1 else 2 * Pow2(n - 1) }

  lemma {:induction false} Pow2Sum(m: nat, n: nat)
    ensures Pow2(m + n) == Pow2(m) * Pow2(n)
    decreases n, m
  {
    if n > 0 {
      Pow2Sum(m, n - 1);
    }
  }

  lemma ValueBound(a: Bits)
    ensures Value(a) < Pow2(|a|)
  {}

  lemma {:induction false} ValueIsInjective(a: Bits, b: Bits)
    requires |a| == |b| && Value(a) == Value(b)
    ensures a == b
  {
    if a != [] {
      ValueIsInjective(a[1..], b[1..]);
      assert a == [a[0]] + a[1..] && b == [b[0]] + b[1..];
    }
  }

  lemma {:induction false} ValueOfBits(v: nat, width: nat)
    requires v < Pow2(width)
    ensures Value(BitsOf(v, width)) == v
  {
    if width != 0 {
      ValueOfBits(v / 2, width - 1);
      assert BitsOf(v, width)[1..] == BitsOf(v / 2, width - 1);
    }
  }

  // ------------------------------------------------------------- the division

  /** The reflected polynomial 0xEDB88320, one nibble of bits per hexadecimal digit. */
  function Polynomial(): Word {
    [ false, false, false, false ] + [ false, true, false, false ]    // 0 2
    + [ true, true, false, false ] + [ false, false, false, true ]    // 3 8
    + [ false, false, false, true ] + [ true, true, false, true ]     // 8 B
    + [ true, false, true, true ] + [ false, true, true, true ]       // D E
  }

  lemma {:induction false} ValueConcat(a: Bits, b: Bits)
    ensures Value(a + b) == Value(a) + Pow2(|a|) * Value(b)
    decreases |a|
  {
    if a == [] {
      assert a + b == b;
    } else {
      assert (a + b)[1..] == a[1..] + b && (a + b)[0] == a[0];
      ValueConcat(a[1..], b);
      TwiceProduct(Pow2(|a| - 1), Value(b));
    }
  }

  lemma TwiceProduct(p: nat, v: nat)
    ensures 2 * (p * v) == (2 * p) * v
  {}

  function Bit(b: bool): nat { if b then 1 else 0 }

  lemma FourBits(a: bool, b: bool, c: bool, d: bool)
    ensures Value([a, b, c, d]) == Bit(a) + 2 * Bit(b) + 4 * Bit(c) + 8 * Bit(d)
  {
    assert [d][1..] == [] && Value([d]) == Bit(d);
    assert [c, d][1..] == [d] && Value([c, d]) == Bit(c) + 2 * Bit(d);
    assert [b, c, d][1..] == [c, d];
    assert [a, b, c, d][1..] == [b, c, d];
  }

  /** Two hexadecimal digits, the low one first, before the rest. */
  lemma TwoDigits(low: Bits, high: Bits, rest: Bits)
    requires |low| == |high| == 4
    ensures Value(low + high + rest) == Value(low) + 16 * Value(high) + 256 * Value(rest)
  {
    ValueConcat(low + high, rest);
    ValueConcat(low, high);
    assert Pow2(4) == 16 && Pow2(8) == 256;
  }

  /** The bits spelt out above are those of 0xEDB88320. */
  lemma PolynomialIs()
    ensures Value(Polynomial()) == 0xEDB8_8320
  {
    var n0, n2, n3: Bits := [ false, false, false, false ], [ false, true, false, false ], [ true, true, false, false ];
    var n8, nB, nD, nE: Bits := [ false, false, false, true ], [ true, true, false, true ], [ true, false, true, true ], [ false, true, true, true ];
    FourBits(false, false, false, false);
    FourBits(false, true, false, false);
    FourBits(true, true, false, false);
    FourBits(false, false, false, true);
    FourBits(true, true, false, true);
    FourBits(true, false, true, true);
    FourBits(false, true, true, true);
    var top := nD + nE + [];
    TwoDigits(nD, nE, []);
    TwoDigits(n8, nB, top);
    TwoDigits(n3, n8, n8 + nB + top);
    TwoDigits(n0, n2, n3 + n8 + (n8 + nB + top));
    EightNibbles(n0, n2, n3, n8, n8, nB, nD, nE);
  }

  lemma EightNibbles(a: Bits, b: Bits, c: Bits, d: Bits, e: Bits, f: Bits, g: Bits, h: Bits)
    ensures a + b + c + d + e + f + g + h == a + b + (c + d + (e + f + (g + h + [])))
  {}

  /** One bit of the division. */
  function ShiftBit(c: Word): Word {
    if c[0] then Xor(Shr(c, 1), Polynomial()) else Shr(c, 1)
  }

  function ShiftBits(c: Word, n: nat): Word
    decreases n, c
  {
    if n == 0 then c else ShiftBits(ShiftBit(c), n - 1)
  }

  type Octet = b: Bits | |b| == 8 witness False(8)

  /** The register after one more byte, bit by bit. */
  function AbsorbByte(c: Word, b: Octet): Word {
    ShiftBits(Xor(c, Widen(b)), 8)
  }

  function Absorb(c: Word, data: seq<Octet>): Word
    decreases |data|
  {
    if data == [] then c else Absorb(AbsorbByte(c, data[0]), data[1..])
  }

  /** The reference: invert, absorb every byte bit by bit, invert. */
  function Reference(crc: Word, data: seq<Octet>): Word { Not(Absorb(Not(crc), data)) }

  // ---------------------------------------------------------------- the table

  lemma {:induction false} ShiftsAdd(c: Word, m: nat, n: nat)
    ensures ShiftBits(c, m + n) == ShiftBits(ShiftBits(c, m), n)
    decreases m
  {
    if m != 0 {
      ShiftsAdd(ShiftBit(c), m - 1, n);
    }
  }

  lemma BitIsLinear(x: Word, y: Word)
    ensures ShiftBit(Xor(x, y)) == Xor(ShiftBit(x), ShiftBit(y))
  {}

  lemma {:induction false} ShiftsAreLinear(x: Word, y: Word, n: nat)
    ensures ShiftBits(Xor(x, y), n) == Xor(ShiftBits(x, n), ShiftBits(y, n))
    decreases n
  {
    if n != 0 {
      BitIsLinear(x, y);
      ShiftsAreLinear(ShiftBit(x), ShiftBit(y), n - 1);
    }
  }

  /** Dividing a word whose low n bits are clear is a plain shift. */
  lemma {:induction false} ClearBitsShift(c: Word, n: nat)
    requires n <= 32 && forall i :: 0 <= i < n ==> !c[i]
    ensures ShiftBits(c, n) == Shr(c, n)
    decreases n
  {
    if n == 0 {
      assert Shr(c, 0) == c;
    } else {
      ClearBitsShift(Shr(c, 1), n - 1);
      assert Shr(Shr(c, 1), n - 1) == Shr(c, n);
    }
  }

  /** The identity behind the table: the low nibble alone decides what is folded in. */
  lemma NibbleStep(c: Word)
    ensures ShiftBits(c, 4) == Xor(Shr(c, 4), ShiftBits(Widen(c[..4]), 4))
  {
    var high: Word := False(4) + c[4..];
    assert c == Xor(high, Widen(c[..4]));
    ShiftsAreLinear(high, Widen(c[..4]), 4);
    ClearBitsShift(high, 4);
    assert Shr(high, 4) == Shr(c, 4);
  }

  ghost predicate IsNibbleTable(table: seq<Word>) {
    && |table| == 16
    && forall n :: 0 <= n < 16 ==> table[n] == ShiftBits(Widen(BitsOf(n, 4)), 4)
  }

  /** Builds the 16 remainders exactly as the table initialiser loops. */
  method BuildNibbleTable() returns (table: seq<Word>)
    ensures IsNibbleTable(table)
  {
    table := [];
    for n := 0 to 16
      invariant |table| == n
      invariant forall m :: 0 <= m < n ==> table[m] == ShiftBits(Widen(BitsOf(m, 4)), 4)
    {
      var start: Word := Widen(BitsOf(n, 4));
      var crc := start;
      for bit := 0 to 4
        invariant ShiftBits(crc, 4 - bit) == ShiftBits(start, 4)
      {
        crc := if crc[0] then Xor(Shr(crc, 1), Polynomial()) else Shr(crc, 1);
      }
      table := table + [crc];
    }
  }

  /** One table step divides by four bits. */
  method DivideNibble(c: Word, table: seq<Word>) returns (r: Word)
    requires IsNibbleTable(table)
    ensures r == ShiftBits(c, 4)
  {
    ValueBound(c[..4]);
    assert Pow2(4) == 16;
    r := Xor(Shr(c, 4), table[Value(c[..4])]);
    ValueOfBits(Value(c[..4]), 4);
    ValueIsInjective(c[..4], BitsOf(Value(c[..4]), 4));
    NibbleStep(c);
  }

  /** The nibble-table loop computes the bit-by-bit CRC for every input. */
  method Crc32(crc: Word, data: seq<Octet>, table: seq<Word>) returns (r: Word)
    requires IsNibbleTable(table)
    ensures r == Reference(crc, data)
  {
    var c: Word := Not(crc);
    for i := 0 to |data|
      invariant c == Absorb(Not(crc), data[..i])
    {
      AbsorbConcat(Not(crc), data[..i], [data[i]]);
      assert data[..i + 1] == data[..i] + [data[i]];
      ShiftsAdd(Xor(c, Widen(data[i])), 4, 4);
      c := Xor(c, Widen(data[i]));
      c := DivideNibble(c, table);
      c := DivideNibble(c, table);
    }
    assert data[..|data|] == data;
    r := Not(c);
  }

  // ------------------------------------------------------- chaining, detection

  lemma {:induction false} AbsorbConcat(c: Word, a: seq<Octet>, b: seq<Octet>)
    ensures Absorb(c, a + b) == Absorb(Absorb(c, a), b)
    decreases |a|
  {
    if a == [] {
      assert a + b == b;
    } else {
      assert (a + b)[1..] == a[1..] + b;
      AbsorbConcat(AbsorbByte(c, a[0]), a[1..], b);
    }
  }

  /** Chaining: feeding one call's result to the next is one pass over the concatenation. */
  lemma Chaining(crc: Word, a: seq<Octet>, b: seq<Octet>)
    ensures Reference(Reference(crc, a), b) == Reference(crc, a + b)
  {
    AbsorbConcat(Not(crc), a, b);
    assert Not(Not(Absorb(Not(crc), a))) == Absorb(Not(crc), a);
  }

  /** The top bit of the quotient tells which branch was taken, so a step can be undone. */
  lemma BitIsInjective(x: Word, y: Word)
    requires ShiftBit(x) == ShiftBit(y)
    ensures x == y
  {
    assert Polynomial()[31];
    assert ShiftBit(x)[31] == x[0] && ShiftBit(y)[31] == y[0];
    assert Shr(x, 1) == Shr(y, 1) by {
      if x[0] {
        assert Shr(x, 1) == Xor(ShiftBit(x), Polynomial());
        assert Shr(y, 1) == Xor(ShiftBit(y), Polynomial());
      }
    }
    forall i | 0 <= i < 32
      ensures x[i] == y[i]
    {
      if i > 0 {
        assert x[i] == Shr(x, 1)[i - 1] && y[i] == Shr(y, 1)[i - 1];
      }
    }
  }

  lemma {:induction false} ShiftsAreInjective(x: Word, y: Word, n: nat)
    requires ShiftBits(x, n) == ShiftBits(y, n)
    ensures x == y
    decreases n
  {
    if n != 0 {
      ShiftsAreInjective(ShiftBit(x), ShiftBit(y), n - 1);
      BitIsInjective(x, y);
    }
  }

  lemma XorCancels(x: Bits, y: Bits, b: Bits)
    requires |x| == |y| == |b|
    requires Xor(x, b) == Xor(y, b) || Xor(b, x) == Xor(b, y)
    ensures x == y
  {
    forall i | 0 <= i < |x|
      ensures x[i] == y[i]
    {
      assert Xor(x, b)[i] == Xor(y, b)[i] || Xor(b, x)[i] == Xor(b, y)[i];
    }
  }

  lemma {:induction false} AbsorbIsInjective(x: Word, y: Word, data: seq<Octet>)
    requires Absorb(x, data) == Absorb(y, data)
    ensures x == y
    decreases |data|
  {
    if data != [] {
      AbsorbIsInjective(AbsorbByte(x, data[0]), AbsorbByte(y, data[0]), data[1..]);
      ShiftsAreInjective(Xor(x, Widen(data[0])), Xor(y, Widen(data[0])), 8);
      XorCancels(x, y, Widen(data[0]));
    }
  }

  /** Two inputs of any length that differ in exactly one byte never share a CRC. */
  lemma OneByteAlwaysShows(crc: Word, pre: seq<Octet>, a: Octet, b: Octet, post: seq<Octet>)
    requires a != b
    ensures Reference(crc, pre + [a] + post) != Reference(crc, pre + [b] + post)
  {
    var c := Absorb(Not(crc), pre);
    var x, y := Absorb(Not(crc), pre + [a] + post), Absorb(Not(crc), pre + [b] + post);
    AbsorbConcat(Not(crc), pre + [a], post);
    AbsorbConcat(Not(crc), pre + [b], post);
    AbsorbConcat(Not(crc), pre, [a]);
    AbsorbConcat(Not(crc), pre, [b]);
    assert Absorb(c, [a]) == AbsorbByte(c, a) && Absorb(c, [b]) == AbsorbByte(c, b);
    if Not(x) == Not(y) {
      assert x == Not(Not(x)) == Not(Not(y)) == y;
      assert a == Widen(a)[..8] && b == Widen(b)[..8];
      AbsorbIsInjective(AbsorbByte(c, a), AbsorbByte(c, b), post);
      ShiftsAreInjective(Xor(c, Widen(a)), Xor(c, Widen(b)), 8);
      XorCancels(Widen(a), Widen(b), c);
    }
  }

  /** The word whose only set bit is bit n. */
  function Unit(n: nat): (w: Word)
    ensures forall i :: 0 <= i < 32 ==> w[i] == (i == n)
  {
    seq(32, i => i == n)
  }

  lemma UnitShifts()
    ensures ShiftBits(Unit(8), 8) == Unit(0)
  {
    ClearBitsShift(Unit(8), 8);
    assert Shr(Unit(8), 8) == Unit(0);
  }

  lemma LastByteDifference(c: Word, a: Octet, b: Octet)
    ensures Xor(AbsorbByte(c, a), AbsorbByte(c, b)) == ShiftBits(Xor(Widen(a), Widen(b)), 8)
  {
    ShiftsAreLinear(Xor(c, Widen(a)), Xor(c, Widen(b)), 8);
    assert Xor(Xor(c, Widen(a)), Xor(c, Widen(b))) == Xor(Widen(a), Widen(b));
  }

  /** Two inputs that differ only in their last byte are further apart than bit 0 alone: the
      remap of 0 to 1 can never make them collide. */
  lemma LastByteIsNoNearMiss(crc: Word, pre: seq<Octet>, a: Octet, b: Octet)
    ensures Xor(Reference(crc, pre + [a]), Reference(crc, pre + [b])) != Unit(0)
  {
    var c, d := Absorb(Not(crc), pre), Xor(Widen(a), Widen(b));
    AbsorbConcat(Not(crc), pre, [a]);
    AbsorbConcat(Not(crc), pre, [b]);
    assert Absorb(c, [a]) == AbsorbByte(c, a) && Absorb(c, [b]) == AbsorbByte(c, b);
    LastByteDifference(c, a, b);
    var x, y := AbsorbByte(c, a), AbsorbByte(c, b);
    assert Xor(Not(x), Not(y)) == Xor(x, y);
    assert !d[8];
    if Xor(x, y) == Unit(0) {
      UnitShifts();
      ShiftsAreInjective(d, Unit(8), 8);
    }
  }
}
