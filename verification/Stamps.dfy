/** The stamp in front of every sector: its offset as an unsigned 64-bit word. */
module Stamps {
  import opened Arithmetic
  import opened Xorshift

  const TWO64: nat := 0x1_0000_0000_0000_0000

  /** The unsigned word made of the low bits of a number. */
  function LowBits(n: nat, bits: nat): Word {
    if bits == 0 then 0
    else if n % 2 == 1 then (LowBits(n / 2, bits - 1) << 1) | 1
    else LowBits(n / 2, bits - 1) << 1
  }

  /** A byte offset as the 64-bit word stored in front of its sector. */
  function Stamp(offset: nat): Word {
    LowBits(offset, 64)
  }

  lemma AppendOne(x: Word)
    ensures x as nat < 0x8000_0000_0000_0000 ==> ((x << 1) | 1) as nat == 2 * (x as nat) + 1
  {
  }

  lemma AppendZero(x: Word)
    ensures x as nat < 0x8000_0000_0000_0000 ==> (x << 1) as nat == 2 * (x as nat)
  {
  }

  lemma LastBit(n: nat, m: nat)
    requires m > 0
    ensures n % (2 * m) == 2 * (n / 2 % m) + n % 2
  {
    var h := n / 2;
    assert h == h / m * m + h % m;
    assert n == h / m * (2 * m) + (2 * (h % m) + n % 2);
    Remainder(n, 2 * m, h / m, 2 * (h % m) + n % 2);
  }

  lemma HighestPower()
    ensures 2 * Power2(63) == Power2(64) == TWO64
  {
    assert Power2(8) == 0x100;
    assert Power2(16) == 0x1_0000;
    assert Power2(24) == 0x100_0000;
    assert Power2(32) == 0x1_0000_0000;
    assert Power2(40) == 0x100_0000_0000;
    assert Power2(48) == 0x1_0000_0000_0000;
    assert Power2(56) == 0x100_0000_0000_0000;
  }

  lemma {:induction false} SmallPower(k: nat)
    requires k <= 63
    ensures 2 * Power2(k) <= TWO64
    decreases 63 - k
  {
    if k < 63 {
      SmallPower(k + 1);
    } else {
      HighestPower();
    }
  }

  lemma OddStep(n: nat, p: nat, x: Word, y: Word)
    requires 0 < p <= 0x8000_0000_0000_0000 && x as nat == n / 2 % p
    requires n % 2 == 1 && y == (x << 1) | 1
    ensures y as nat == n % (2 * p)
  {
    AppendOne(x);
    LastBit(n, p);
  }

  lemma EvenStep(n: nat, p: nat, x: Word, y: Word)
    requires 0 < p <= 0x8000_0000_0000_0000 && x as nat == n / 2 % p
    requires n % 2 == 0 && y == x << 1
    ensures y as nat == n % (2 * p)
  {
    AppendZero(x);
    LastBit(n, p);
  }

  lemma {:induction false} LowBitsIs(n: nat, bits: nat, y: Word)
    requires bits <= 64 && y == LowBits(n, bits)
    ensures y as nat == n % Power2(bits)
    decreases bits
  {
    if bits == 0 {
    } else {
      var x, p := LowBits(n / 2, bits - 1), Power2(bits - 1);
      LowBitsIs(n / 2, bits - 1, x);
      SmallPower(bits - 1);
      if n % 2 == 1 {
        OddStep(n, p, x, y);
      } else {
        EvenStep(n, p, x, y);
      }
    }
  }

  lemma {:induction false} LowBitsSame(a: nat, b: nat, bits: nat, x: Word, y: Word)
    requires a % Power2(bits) == b % Power2(bits) && x == LowBits(a, bits) && y == LowBits(b, bits)
    ensures x == y
    decreases bits
  {
    if bits == 0 {
    } else {
      LastBit(a, Power2(bits - 1));
      LastBit(b, Power2(bits - 1));
      LowBitsSame(a / 2, b / 2, bits - 1, LowBits(a / 2, bits - 1), LowBits(b / 2, bits - 1));
    }
  }

  /** The stamp is the offset modulo 2^64, so two offsets carry the same stamp exactly when they
      agree modulo 2^64. */
  lemma StampIs(offset: nat, other: nat)
    ensures Stamp(offset) as nat == offset % TWO64
    ensures Stamp(offset) == Stamp(other) <==> offset % TWO64 == other % TWO64
  {
    HighestPower();
    LowBitsIs(offset, 64, Stamp(offset));
    LowBitsIs(other, 64, Stamp(other));
    if offset % TWO64 == other % TWO64 {
      LowBitsSame(offset, other, 64, Stamp(offset), Stamp(other));
    }
  }
}
