/** How the mixed workload picks a request size from a 32-bit draw. */
module Weights {
  import opened Arithmetic

  const BLOCKSIZES: seq<nat> :=
    [512, 1024, 2048, 4096, 8192, 16384, 32768, 65536, 131072, 262144, 524288, 1048576, 2097152]
  const SIZES: nat := 13
  const RANDOM_BASE: nat := 4096
  const SEQUENTIAL_BASE: nat := 131072
  const UINT32_MAX: nat := 0xFFFF_FFFF

  function SizeAt(i: nat): (size: nat)
    requires i < SIZES
    ensures 512 <= size <= 2097152 && size % 512 == 0
  {
    BLOCKSIZES[i]
  }

  /** How far a size is from the base size, as a ratio of at least one. */
  function Distance(base: nat, i: nat): real
    requires base > 0 && i < SIZES
    ensures Distance(base, i) >= 1.0
  {
    assert BLOCKSIZES[i] > 0;
    if BLOCKSIZES[i] < base then base as real / BLOCKSIZES[i] as real else BLOCKSIZES[i] as real / base as real
  }

  function Weight(base: nat, i: nat): (w: real)
    requires base > 0 && i < SIZES
    ensures w > 0.0
  {
    Rarity(Distance(base, i))
  }

  function Rarity(distance: real): (w: real)
    requires distance > 0.0
    ensures w > 0.0
  {
    1.0 / (distance * distance)
  }

  function Cumulative(base: nat, lo: nat, i: nat): (c: real)
    requires base > 0 && lo <= i < SIZES
    ensures c > 0.0
  {
    if i == lo then Weight(base, i) else Weight(base, i) + Cumulative(base, lo, i - 1)
  }

  /** Draws below this choose one of the sizes lo to i. */
  function Threshold(base: nat, lo: nat, i: nat): int
    requires base > 0 && lo <= i < SIZES
  {
    Scaled(Cumulative(base, lo, i), Cumulative(base, lo, SIZES - 1))
  }

  /** A fraction of the whole draw range, cut to an integer. */
  function Scaled(part: real, whole: real): int
    requires whole > 0.0
  {
    (UINT32_MAX as real * (part / whole)).Floor
  }

  function Share(base: nat, lo: nat, i: nat): real
    requires base > 0 && lo <= i < SIZES
  {
    UINT32_MAX as real * Weight(base, i) / Cumulative(base, lo, SIZES - 1)
  }

  /** The draws that choose size i are those from Lower to Upper. */
  function Lower(base: nat, lo: nat, i: nat): int
    requires base > 0 && lo <= i < SIZES
  {
    if i == lo then 0 else Threshold(base, lo, i - 1)
  }

  function Upper(base: nat, lo: nat, i: nat): int
    requires base > 0 && lo <= i < SIZES
  {
    if i == SIZES - 1 then UINT32_MAX + 1 else Threshold(base, lo, i)
  }

  lemma QuotientOrder(a: real, b: real, t: real)
    requires 0.0 <= a <= b && t > 0.0
    ensures 0.0 <= a / t <= b / t
  {
  }

  lemma ScaledGrows(a: real, b: real, t: real)
    requires 0.0 <= a <= b && t > 0.0
    ensures 0 <= Scaled(a, t) <= Scaled(b, t)
  {
    QuotientOrder(a, b, t);
    assert 0.0 <= UINT32_MAX as real * (a / t) <= UINT32_MAX as real * (b / t);
  }

  lemma ScaledFull(t: real)
    requires t > 0.0
    ensures Scaled(t, t) == UINT32_MAX
  {
    assert t / t == 1.0;
  }

  lemma QuotientSplits(a: real, w: real, t: real)
    requires t > 0.0
    ensures UINT32_MAX as real * ((w + a) / t) == UINT32_MAX as real * (a / t) + UINT32_MAX as real * w / t
  {
    assert (w + a) / t == w / t + a / t;
    assert UINT32_MAX as real * w / t == UINT32_MAX as real * (w / t);
  }

  lemma ScaledDifference(a: real, w: real, t: real)
    requires t > 0.0
    ensures -1.0 < (Scaled(w + a, t) - Scaled(a, t)) as real - UINT32_MAX as real * w / t < 1.0
  {
    QuotientSplits(a, w, t);
  }

  lemma {:induction false} CumulativeGrows(base: nat, lo: nat, i: nat, k: nat)
    requires base > 0 && lo <= i <= k < SIZES
    ensures Cumulative(base, lo, i) <= Cumulative(base, lo, k)
  {
    if i == k {
    } else {
      CumulativeGrows(base, lo, i, k - 1);
    }
  }

  lemma ThresholdsGrow(base: nat, lo: nat, i: nat, k: nat)
    requires base > 0 && lo <= i <= k < SIZES
    ensures 0 <= Threshold(base, lo, i) <= Threshold(base, lo, k) <= UINT32_MAX
    ensures Threshold(base, lo, SIZES - 1) == UINT32_MAX
  {
    var total := Cumulative(base, lo, SIZES - 1);
    CumulativeGrows(base, lo, i, k);
    CumulativeGrows(base, lo, k, SIZES - 1);
    ScaledGrows(Cumulative(base, lo, i), Cumulative(base, lo, k), total);
    ScaledGrows(Cumulative(base, lo, k), total, total);
    ScaledFull(total);
  }

  /** The first size whose threshold is above the draw, scanning from i; the last if none is. */
  function Scan(base: nat, lo: nat, i: nat, draw: nat): (k: nat)
    requires base > 0 && lo <= i < SIZES
    ensures i <= k < SIZES
    decreases SIZES - i
  {
    if i == SIZES - 1 || draw < Threshold(base, lo, i) then i else Scan(base, lo, i + 1, draw)
  }

  lemma {:induction false} ScanFinds(base: nat, lo: nat, i: nat, draw: nat, k: nat)
    requires base > 0 && lo <= i <= k < SIZES && draw <= UINT32_MAX
    requires Lower(base, lo, i) <= draw
    ensures Scan(base, lo, i, draw) == k <==> Lower(base, lo, k) <= draw < Upper(base, lo, k)
    decreases SIZES - i
  {
    if i == SIZES - 1 {
    } else {
      ThresholdsGrow(base, lo, i, if k == i then i else k - 1);
      if draw >= Threshold(base, lo, i) {
        if k == i {
        } else {
          ScanFinds(base, lo, i + 1, draw, k);
        }
      }
    }
  }

  /** The size chosen is the one whose interval holds the draw: the intervals partition [0, 2^32). */
  lemma ChosenIff(base: nat, lo: nat, draw: nat, k: nat)
    requires base > 0 && lo <= k < SIZES && draw <= UINT32_MAX
    ensures Scan(base, lo, lo, draw) == k <==> Lower(base, lo, k) <= draw < Upper(base, lo, k)
  {
    ScanFinds(base, lo, lo, draw, k);
  }

  /** Each interval is as long as the weight of its size asks for, up to two draws. */
  lemma IntervalLength(base: nat, lo: nat, i: nat)
    requires base > 0 && lo <= i < SIZES
    ensures -2.0 < (Upper(base, lo, i) - Lower(base, lo, i)) as real - Share(base, lo, i) < 2.0
  {
    var total := Cumulative(base, lo, SIZES - 1);
    var before := if i == lo then 0.0 else Cumulative(base, lo, i - 1);
    assert Cumulative(base, lo, i) == Weight(base, i) + before;
    assert Scaled(0.0, total) == 0;
    ScaledDifference(before, Weight(base, i), total);
    ScaledFull(total);
  }

  function Gap(i: nat, j: nat): nat {
    if i < j then j - i else i - j
  }

  /** Each doubling away from 4 KB (random) or 128 KB (sequential) makes a size four times rarer. */
  lemma WeightsAreQuarters(i: nat)
    requires i < SIZES
    ensures Weight(RANDOM_BASE, i) == Quarters(Gap(i, 3))
    ensures Weight(SEQUENTIAL_BASE, i) == Quarters(Gap(i, 8))
  {
    assert RANDOM_BASE == BLOCKSIZES[3] && SEQUENTIAL_BASE == BLOCKSIZES[8];
    WeightIsQuarter(RANDOM_BASE, 3, i);
    WeightIsQuarter(SEQUENTIAL_BASE, 8, i);
  }

  lemma WeightIsQuarter(base: nat, b: nat, i: nat)
    requires b < SIZES && i < SIZES && base == BLOCKSIZES[b]
    ensures base > 0 && Weight(base, i) == Quarters(Gap(i, b))
  {
    DistanceIsPower(base, b, i);
    QuartersAreSquares(Gap(i, b));
  }

  function Quarters(n: nat): real {
    if n == 0 then 1.0 else Quarters(n - 1) / 4.0
  }

  lemma {:induction false} QuartersAreSquares(n: nat)
    ensures Power2(n) > 0 && Quarters(n) == Rarity(Power2(n) as real)
  {
    if n == 0 {
    } else {
      QuartersAreSquares(n - 1);
      RarityOfDouble(Power2(n - 1) as real);
    }
  }

  lemma RarityOfDouble(x: real)
    requires x > 0.0
    ensures Rarity(2.0 * x) == Rarity(x) / 4.0
  {
    var y := x * x;
    assert 2.0 * x * (2.0 * x) == 4.0 * y;
    InverseQuarter(y);
  }

  lemma InverseQuarter(y: real)
    requires y > 0.0
    ensures 1.0 / y / 4.0 == 1.0 / (4.0 * y)
  {
  }

  lemma RatioDoubles(a: real, b: real)
    requires b > 0.0
    ensures 2.0 * a / b == 2.0 * (a / b) && a / b == 2.0 * (a / (2.0 * b))
  {
  }

  lemma {:induction false} DistanceIsPower(base: nat, b: nat, i: nat)
    requires b < SIZES && i < SIZES && base == BLOCKSIZES[b]
    ensures base > 0 && Distance(base, i) == Power2(Gap(i, b)) as real
    decreases Gap(i, b)
  {
    if i < b {
      DistanceIsPower(base, b, i + 1);
      DistanceBelow(base, b, i);
    } else if b < i {
      DistanceIsPower(base, b, i - 1);
      DistanceAbove(base, b, i);
    }
  }

  lemma DistanceBelow(base: nat, b: nat, i: nat)
    requires i < b < SIZES && base == BLOCKSIZES[b]
    ensures Distance(base, i) == 2.0 * Distance(base, i + 1)
  {
    assert BLOCKSIZES[i + 1] == 2 * BLOCKSIZES[i];
    RatioDoubles(base as real, BLOCKSIZES[i] as real);
    assert i + 1 == b || BLOCKSIZES[i + 1] < base;
    assert BLOCKSIZES[i] < base;
  }

  lemma DistanceAbove(base: nat, b: nat, i: nat)
    requires b < i < SIZES && base == BLOCKSIZES[b]
    ensures Distance(base, i) == 2.0 * Distance(base, i - 1)
  {
    assert BLOCKSIZES[i] == 2 * BLOCKSIZES[i - 1];
    RatioDoubles(BLOCKSIZES[i - 1] as real, base as real);
    assert BLOCKSIZES[i] > BLOCKSIZES[i - 1] >= base;
  }

  lemma {:induction false} QuartersRange(n: nat)
    requires n <= 9
    ensures 1.0 / 262144.0 <= Quarters(9) <= Quarters(n) <= 1.0
    decreases 9 - n
  {
    if n == 9 {
      assert Quarters(3) == 1.0 / 64.0;
      assert Quarters(6) == 1.0 / 4096.0;
    } else {
      QuartersRange(n + 1);
    }
  }

  lemma WeightRange(base: nat, i: nat)
    requires (base == RANDOM_BASE || base == SEQUENTIAL_BASE) && i < SIZES
    ensures 1.0 / 262144.0 <= Weight(base, i) <= 1.0
  {
    WeightsAreQuarters(i);
    QuartersRange(Gap(i, 3));
    QuartersRange(Gap(i, 8));
  }

  lemma {:induction false} CumulativeBound(base: nat, lo: nat, i: nat)
    requires (base == RANDOM_BASE || base == SEQUENTIAL_BASE) && lo <= i < SIZES
    ensures Cumulative(base, lo, i) <= (i - lo + 1) as real
  {
    WeightRange(base, i);
    if i == lo {
    } else {
      CumulativeBound(base, lo, i - 1);
    }
  }

  lemma QuotientAtLeast(a: real, b: real)
    requires b > 0.0 && a >= 2.0 * b
    ensures a / b >= 2.0
  {
  }

  /** Every size, however rare, is chosen by some draw. */
  lemma SizeCanBeDrawn(base: nat, lo: nat, i: nat)
    requires (base == RANDOM_BASE || base == SEQUENTIAL_BASE) && lo <= i < SIZES
    ensures 0 <= Lower(base, lo, i) < Upper(base, lo, i) <= UINT32_MAX + 1
  {
    WeightRange(base, i);
    CumulativeBound(base, lo, SIZES - 1);
    QuotientAtLeast(UINT32_MAX as real * Weight(base, i), Cumulative(base, lo, SIZES - 1));
    IntervalLength(base, lo, i);
    ThresholdsGrow(base, lo, i, i);
    if i > lo {
      ThresholdsGrow(base, lo, i - 1, i);
    }
  }
}
