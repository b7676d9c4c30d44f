/** Single bits of the display's rows and bytes. */
module Bits {

  const ROW_MASK: bv16 := 0x1FF

  /** The bit of each of the nine columns of a row. */
  function Mask(c: nat): bv16
    requires c < 9
  {
    match c
    case 0 => 1
    case 1 => 2
    case 2 => 4
    case 3 => 8
    case 4 => 16
    case 5 => 32
    case 6 => 64
    case 7 => 128
    case _ => 256
  }

  lemma MaskIsShift(c: nat)
    requires c < 9
    ensures Mask(c) == (1 as bv16) << c
  {
    match c
    case 0 => case 1 => case 2 => case 3 => case 4 => case 5 => case 6 => case 7 => case _ =>
  }

  predicate Bit(row: bv16, c: nat)
    requires c < 9
  {
    row & Mask(c) != 0
  }

  lemma MaskDisjoint(c: nat, d: nat)
    requires c < 9 && d < 9
    ensures Mask(c) != 0 && Mask(c) & Mask(d) == if c == d then Mask(c) else 0
  {
  }

  lemma Distribute(a: bv16, b: bv16, m: bv16)
    ensures (a | b) & m == (a & m) | (b & m)
  {
  }

  lemma OrZero(a: bv16, b: bv16)
    ensures a | b == 0 <==> a == 0 && b == 0
  {
  }

  lemma SetBit(row: bv16, c: nat, d: nat)
    requires c < 9 && d < 9
    ensures Bit(row | Mask(c), d) <==> c == d || Bit(row, d)
  {
    Distribute(row, Mask(c), Mask(d));
    OrZero(row & Mask(d), Mask(c) & Mask(d));
    MaskDisjoint(c, d);
    hide Mask;
  }

  /** Set the bit of column `c` if `on`. */
  function SetIf(row: bv16, c: nat, on: bool): bv16
    requires c < 9
  {
    row | (if on then Mask(c) else 0)
  }

  /** `row & (1 << c) != 0`, as the loops test a pixel. */
  method TestBit(row: bv16, c: nat) returns (lit: bool)
    requires c < 9
    ensures lit == Bit(row, c)
  {
    MaskIsShift(c);
    lit := row & (1 << c) != 0;
  }

  /** `row |= 1 << c`, as the loops set one. */
  method WithBit(row: bv16, c: nat) returns (r: bv16)
    requires c < 9
    ensures r == SetIf(row, c, true)
  {
    MaskIsShift(c);
    r := row | (1 << c);
  }

  lemma SetIfOn(row: bv16, c: nat, d: nat)
    requires c < 9 && d < 9
    ensures Bit(SetIf(row, c, true), d) <==> c == d || Bit(row, d)
  {
    hide Bit, Mask;
    SetBit(row, c, d);
  }

  lemma SetIfOff(row: bv16, c: nat)
    requires c < 9
    ensures SetIf(row, c, false) == row
  {
    OrNothing(row);
  }

  lemma SetIfKeepsMask(row: bv16, c: nat)
    requires c < 9 && row & ROW_MASK == row
    ensures SetIf(row, c, true) & ROW_MASK == SetIf(row, c, true)
  {
    hide Mask;
    SetKeepsMask(row, c);
  }

  lemma SetIfBits(row: bv16, c: nat, on: bool, d: nat)
    requires c < 9 && d < 9
    ensures Bit(SetIf(row, c, on), d) <==> (on && c == d) || Bit(row, d)
    ensures row & ROW_MASK == row ==> SetIf(row, c, on) & ROW_MASK == SetIf(row, c, on)
  {
    hide Bit, Mask, SetIf;
    if !on {
      SetIfOff(row, c);
    } else {
      SetIfOn(row, c, d);
      if row & ROW_MASK == row {
        SetIfKeepsMask(row, c);
      }
    }
  }

  lemma OrNothing(row: bv16)
    ensures row | 0 == row
  {
  }

  lemma SetKeepsMask(row: bv16, c: nat)
    requires c < 9 && row & ROW_MASK == row
    ensures (row | Mask(c)) & ROW_MASK == row | Mask(c)
  {
  }

  lemma BitsOfZero(c: nat)
    requires c < 9
    ensures !Bit(0, c) && 0 & ROW_MASK == 0
  {
  }

  lemma MaskedBits(row: bv16, c: nat)
    requires c < 9
    ensures Bit(row & ROW_MASK, c) <==> Bit(row, c)
  {
  }

  lemma OneBit(a: bv16, b: bv16, c: nat)
    requires c < 9 && (Bit(a, c) <==> Bit(b, c))
    ensures a & Mask(c) == b & Mask(c)
  {
  }

  lemma NineBits(a: bv16, b: bv16)
    requires a & 1 == b & 1 && a & 2 == b & 2 && a & 4 == b & 4 && a & 8 == b & 8 && a & 16 == b & 16
    requires a & 32 == b & 32 && a & 64 == b & 64 && a & 128 == b & 128 && a & 256 == b & 256
    ensures a & ROW_MASK == b & ROW_MASK
  {
  }

  /** Nine columns determine a row up to its unused high bits. */
  lemma RowFromBits(a: bv16, b: bv16)
    requires forall c :: 0 <= c < 9 ==> (Bit(a, c) <==> Bit(b, c))
    ensures a & ROW_MASK == b & ROW_MASK
  {
    hide Bit;
    OneBit(a, b, 0);
    OneBit(a, b, 1);
    OneBit(a, b, 2);
    OneBit(a, b, 3);
    OneBit(a, b, 4);
    OneBit(a, b, 5);
    OneBit(a, b, 6);
    OneBit(a, b, 7);
    OneBit(a, b, 8);
    NineBits(a, b);
  }

  /** The bits of a byte. */
  function Mask8(j: nat): bv8
    requires j < 8
  {
    match j
    case 0 => 1
    case 1 => 2
    case 2 => 4
    case 3 => 8
    case 4 => 16
    case 5 => 32
    case 6 => 64
    case _ => 128
  }

  lemma Mask8IsShift(j: nat)
    requires j < 8
    ensures Mask8(j) == (1 as bv8) << j
  {
    match j
    case 0 => case 1 => case 2 => case 3 => case 4 => case 5 => case 6 => case _ =>
  }

  predicate Bit8(byte: bv8, j: nat)
    requires j < 8
  {
    byte & Mask8(j) != 0
  }

  lemma Mask8Disjoint(j: nat, d: nat)
    requires j < 8 && d < 8
    ensures Mask8(j) != 0 && Mask8(j) & Mask8(d) == if j == d then Mask8(j) else 0
  {
  }

  lemma Distribute8(a: bv8, b: bv8, m: bv8)
    ensures (a | b) & m == (a & m) | (b & m)
    ensures (a ^ b) & m == (a & m) ^ (b & m)
  {
  }

  lemma OrZero8(a: bv8, b: bv8)
    ensures a | b == 0 <==> a == 0 && b == 0
    ensures a ^ 0 == a
  {
  }

  lemma SetBit8(byte: bv8, j: nat, d: nat)
    requires j < 8 && d < 8
    ensures Bit8(byte | Mask8(j), d) <==> j == d || Bit8(byte, d)
  {
    Distribute8(byte, Mask8(j), Mask8(d));
    OrZero8(byte & Mask8(d), Mask8(j) & Mask8(d));
    Mask8Disjoint(j, d);
    hide Mask8;
  }

  /** `byte |= 1 << j`. */
  method WithBit8(byte: bv8, j: nat) returns (r: bv8)
    requires j < 8
    ensures r == byte | Mask8(j)
  {
    Mask8IsShift(j);
    r := byte | (1 << j);
  }

  lemma BitOrNot8(byte: bv8, j: nat)
    requires j < 8
    ensures byte & Mask8(j) == 0 || byte & Mask8(j) == Mask8(j)
    ensures Mask8(j) ^ Mask8(j) == 0 && 0 ^ Mask8(j) == Mask8(j)
  {
  }

  lemma FlipBit8(byte: bv8, j: nat, d: nat)
    requires j < 8 && d < 8
    ensures Bit8(byte ^ Mask8(j), d) <==> (if j == d then !Bit8(byte, d) else Bit8(byte, d))
  {
    Distribute8(byte, Mask8(j), Mask8(d));
    OrZero8(byte & Mask8(d), 0);
    Mask8Disjoint(j, d);
    BitOrNot8(byte, d);
    hide Mask8;
  }

  lemma OneBit8(a: bv8, b: bv8, j: nat)
    requires j < 8 && (Bit8(a, j) <==> Bit8(b, j))
    ensures a & Mask8(j) == b & Mask8(j)
  {
  }

  lemma EightBits(a: bv8, b: bv8)
    requires a & 1 == b & 1 && a & 2 == b & 2 && a & 4 == b & 4 && a & 8 == b & 8
    requires a & 16 == b & 16 && a & 32 == b & 32 && a & 64 == b & 64 && a & 128 == b & 128
    ensures a == b
  {
  }

  lemma ByteFromBits(a: bv8, b: bv8)
    requires forall j :: 0 <= j < 8 ==> (Bit8(a, j) <==> Bit8(b, j))
    ensures a == b
  {
    hide Bit8;
    OneBit8(a, b, 0);
    OneBit8(a, b, 1);
    OneBit8(a, b, 2);
    OneBit8(a, b, 3);
    OneBit8(a, b, 4);
    OneBit8(a, b, 5);
    OneBit8(a, b, 6);
    OneBit8(a, b, 7);
    EightBits(a, b);
  }
}
