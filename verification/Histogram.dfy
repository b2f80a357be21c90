/** The log-linear latency histogram: 64 buckets of width one, then in each level 64 buckets
    twice as wide as in the level before. */
module Histogram {
  import opened Arithmetic

  const LEVELS := 17
  const BUCKETS := 1152

  function Count(levels: nat): nat {
    64 * (levels + 1)
  }

  /** Where bucket k begins. */
  function Low(k: nat): nat {
    if k < 64 then k else (64 + k % 64) * Power2(k / 64 - 1)
  }

  /** Buckets are half-open and lie end to end; the last one has no upper end. */
  predicate InBucket(levels: nat, k: nat, x: nat) {
    k < Count(levels) && Low(k) <= x && (k + 1 == Count(levels) || x < Low(k + 1))
  }

  lemma LowGrows(k: nat)
    ensures Low(k) < Low(k + 1)
    ensures k >= 64 ==> Low(k + 1) == Low(k) + Power2(k / 64 - 1)
  {
    if k >= 64 {
      var p := Power2(k / 64 - 1);
      if k % 64 == 63 {
        assert (k + 1) / 64 == k / 64 + 1 && Power2(k / 64) == 2 * p;
      } else {
        assert (64 + (k + 1) % 64) * p == (64 + k % 64) * p + p;
      }
    }
  }

  lemma {:induction false} LowMonotone(k: nat, l: nat)
    requires k <= l
    ensures Low(k) <= Low(l)
    decreases l - k
  {
    if k == l {
    } else {
      LowMonotone(k, l - 1);
      LowGrows(l - 1);
    }
  }

  /** A larger latency is never in an earlier bucket; in particular buckets do not overlap. */
  lemma BucketsInOrder(levels: nat, k: nat, l: nat, x: nat, y: nat)
    requires InBucket(levels, k, x) && InBucket(levels, l, y) && x <= y
    ensures k <= l
  {
    if l < k {
      LowMonotone(l + 1, k);
    }
  }

  /** The bucket of a latency: the last of those from k on that begins at or below it. */
  function BucketFrom(levels: nat, x: nat, k: nat): (b: nat)
    requires k < Count(levels) && Low(k) <= x
    ensures InBucket(levels, b, x)
    decreases Count(levels) - k
  {
    if k + 1 == Count(levels) || x < Low(k + 1) then k else BucketFrom(levels, x, k + 1)
  }

  function Bucket(levels: nat, x: nat): (b: nat)
    ensures InBucket(levels, b, x)
  {
    BucketFrom(levels, x, 0)
  }

  /** The bucket is determined by where it lies. */
  lemma BucketIs(levels: nat, k: nat, x: nat)
    requires InBucket(levels, k, x)
    ensures Bucket(levels, x) == k
  {
    BucketsInOrder(levels, k, Bucket(levels, x), x, x);
    BucketsInOrder(levels, Bucket(levels, x), k, x, x);
  }

  lemma BucketMonotone(levels: nat, x: nat, y: nat)
    requires x <= y
    ensures Bucket(levels, x) <= Bucket(levels, y) < Count(levels)
  {
    BucketsInOrder(levels, Bucket(levels, x), Bucket(levels, y), x, y);
  }

  /** The narrow levels hold one latency per bucket. */
  lemma SmallBucket(levels: nat, x: nat)
    requires levels >= 2 && x < 128
    ensures InBucket(levels, x, x)
  {
    assert Power2(1) == 2 * Power2(0) && Power2(0) == 1;
  }

  /** A shift to the right by i. */
  function ShiftRight(x: nat, i: nat): nat {
    if i == 0 then x else ShiftRight(x, i - 1) / 2
  }

  lemma {:induction false} ShiftIsQuotient(x: nat, i: nat)
    ensures ShiftRight(x, i) == x / Power2(i)
  {
    if i == 0 {
    } else {
      ShiftIsQuotient(x, i - 1);
      HalfQuotient(x, Power2(i - 1));
    }
  }

  lemma ShiftBounds(x: nat, i: nat)
    ensures ShiftRight(x, i) * Power2(i) <= x < (ShiftRight(x, i) + 1) * Power2(i)
  {
    ShiftIsQuotient(x, i);
    QuotientBounds(x, Power2(i));
  }

  /** The buckets of level i begin at the multiples of its width from 64 times on. */
  lemma LevelStarts(i: nat, y: nat)
    requires i > 0 && 64 <= y <= 128
    ensures Low(64 * i + y - 64) == y * Power2(i - 1)
  {
    var k := 64 * i + y - 64;
    if y < 128 {
      assert k / 64 == i && k % 64 == y - 64;
    } else {
      assert k / 64 == i + 1 && k % 64 == 0;
    }
  }

  lemma LevelEnds(i: nat, y: nat, x: nat)
    requires i > 0 && 64 <= y < 128 && y == ShiftRight(x, i - 1)
    ensures Low(64 * i + y - 64) <= x < Low(64 * i + y - 63)
  {
    ShiftBounds(x, i - 1);
    LevelStarts(i, y);
    LevelStarts(i, y + 1);
  }

  /** Level i holds the latencies whose quotient by its width is 64 up to 127. */
  lemma LevelBucket(levels: nat, i: nat, x: nat, y: nat)
    requires 1 <= i <= levels && 64 <= y < 128 && y == ShiftRight(x, i - 1)
    ensures InBucket(levels, 64 * i + y % 64, x)
  {
    LevelEnds(i, y, x);
    assert y % 64 == y - 64;
  }

  lemma LastBucket(levels: nat, x: nat)
    requires levels >= 1 && ShiftRight(x, levels) >= 64
    ensures InBucket(levels, 64 * levels + 63, x)
  {
    ShiftBounds(x, levels);
    TimesMonotone(64, ShiftRight(x, levels), Power2(levels));
    LowGrows(64 * levels + 63);
    LevelStarts(levels + 1, 64);
  }

  /** The shifting loop finds the bucket without looking at any other. */
  method IndexForLatency(levels: nat, latency: nat) returns (k: nat)
    requires levels >= 2
    ensures k == Bucket(levels, latency)
  {
    var i, tmp := 0, latency;
    while tmp >= 64 && i < levels
      invariant i <= levels && tmp == ShiftRight(latency, i)
      invariant i > 0 ==> ShiftRight(latency, i - 1) >= 64
      decreases levels - i
    {
      tmp := tmp / 2;
      i := i + 1;
    }
    if i < 2 {
      k := latency;
      SmallBucket(levels, latency);
    } else if tmp >= 64 {
      k := i * 64 + 63;
      LastBucket(levels, latency);
    } else {
      k := i * 64 + ShiftRight(latency, i - 1) % 64;
      LevelBucket(levels, i, latency, ShiftRight(latency, i - 1));
    }
    BucketIs(levels, k, latency);
  }

  /* ---- The way back ---- */

  /** The latency that stands for bucket idx: its middle, rounded down; beyond the last bucket,
      the last one's. */
  function LatencyAt(levels: nat, idx: nat): nat {
    var i := if idx / 64 > levels then levels else idx / 64;
    var j := if idx / 64 > levels then 63 else idx % 64;
    if i == 0 then j
    else if i == 1 then 64 * Power2(i - 1) + j
    else 64 * Power2(i - 1) + (j * Power2(i - 1) + Power2(i - 2) - 1)
  }

  /** The other version, between the ends of the bucket. */
  function AverageAt(levels: nat, idx: nat): nat {
    var i := if idx / 64 > levels then levels else idx / 64;
    var j := if idx / 64 > levels then 63 else idx % 64;
    var low := if i == 0 then j else 64 * Power2(i - 1) + (if i > 1 then j * Power2(i - 1) else j);
    var high := if i == 0 then low + 1 else low + Power2(i - 1);
    (high + low) / 2
  }

  /** The bucket that an index stands for. */
  function Clamp(levels: nat, idx: nat): nat {
    if idx < Count(levels) then idx else Count(levels) - 1
  }

  /** Both versions stay in the bucket. */
  lemma RoundTrip(levels: nat, idx: nat)
    requires levels >= 1
    ensures Bucket(levels, LatencyAt(levels, idx)) == Bucket(levels, AverageAt(levels, idx)) == Clamp(levels, idx)
  {
    var k := Clamp(levels, idx);
    MiddleOf(levels, idx);
    LowGrows(k);
    BucketIs(levels, k, LatencyAt(levels, idx));
    BucketIs(levels, k, AverageAt(levels, idx));
  }

  /** The width of a bucket. */
  function Width(k: nat): nat {
    if k < 64 then 1 else Power2(k / 64 - 1)
  }

  lemma MiddleOf(levels: nat, idx: nat)
    requires levels >= 1
    ensures var k := Clamp(levels, idx);
      && LatencyAt(levels, idx) == Low(k) + (if k < 128 then 0 else Width(k) / 2 - 1)
      && AverageAt(levels, idx) == Low(k) + Width(k) / 2
  {
    var k := Clamp(levels, idx);
    var i, j := k / 64, k % 64;
    assert idx / 64 > levels ==> i == levels && j == 63;
    if i > 0 {
      assert Low(k) == 64 * Power2(i - 1) + j * Power2(i - 1);
    }
    if i > 1 {
      assert Power2(i - 1) == 2 * Power2(i - 2);
    } else {
      assert Power2(0) == 1;
    }
  }

  function Apart(a: nat, b: nat): nat {
    if a < b then b - a else a - b
  }

  /** A bucket is at most 1/64 of any latency in it wide. */
  lemma WidthIsSmall(k: nat)
    ensures k >= 64 ==> 64 * Width(k) <= Low(k)
    ensures Low(k + 1) == Low(k) + Width(k)
  {
    LowGrows(k);
    if k >= 64 {
      assert (64 + k % 64) * Power2(k / 64 - 1) == 64 * Power2(k / 64 - 1) + k % 64 * Power2(k / 64 - 1);
    }
  }

  /** Below the open end of the last bucket both versions are within 1/128 of the latency. */
  lemma WithinOneIn128(levels: nat, x: nat)
    requires levels >= 1 && x < Low(Count(levels))
    ensures 128 * Apart(LatencyAt(levels, Bucket(levels, x)), x) <= x
    ensures 128 * Apart(AverageAt(levels, Bucket(levels, x)), x) <= x
  {
    var k := Bucket(levels, x);
    MiddleOf(levels, k);
    InsideIsClose(k, x, AverageAt(levels, k));
    InsideIsClose(k, x, LatencyAt(levels, k));
  }

  /** Any latency of a bucket is close to the two middles. */
  lemma InsideIsClose(k: nat, x: nat, v: nat)
    requires Low(k) <= x < Low(k + 1)
    requires v == Low(k) + Width(k) / 2 || v == Low(k) + (if k < 128 then 0 else Width(k) / 2 - 1)
    ensures 128 * Apart(v, x) <= x
  {
    WidthIsSmall(k);
    WidthParity(k);
    CloseToMiddle(k, Low(k), Width(k), x, v);
  }

  lemma WidthParity(k: nat)
    ensures k < 128 ==> Width(k) == 1
    ensures k >= 128 ==> Width(k) % 2 == 0
  {
    if k >= 128 {
      assert Width(k) == 2 * Power2(k / 64 - 2);
    } else {
      assert Power2(0) == 1;
    }
  }

  lemma CloseToMiddle(k: nat, low: nat, width: nat, x: nat, v: nat)
    requires low <= x < low + width && (k < 128 ==> width == 1)
    requires k >= 128 ==> width % 2 == 0 && 64 * width <= low
    requires v == low + width / 2 || v == low + (if k < 128 then 0 else width / 2 - 1)
    ensures 128 * Apart(v, x) <= x
  {
  }

  /** The exact ranges of latencies that the histogram returns with an error of at most 1/128. */
  lemma WithinOneIn128Iff(levels: nat, x: nat)
    requires levels >= 1
    ensures 128 * Apart(LatencyAt(levels, Bucket(levels, x)), x) <= x
      <==> 127 * x <= 128 * LatencyAt(levels, Count(levels) - 1)
    ensures 128 * Apart(AverageAt(levels, Bucket(levels, x)), x) <= x
      <==> 127 * x <= 128 * AverageAt(levels, Count(levels) - 1)
  {
    var last := Count(levels) - 1;
    MiddleOf(levels, last);
    LastWidth(levels);
    if x < Low(Count(levels)) {
      WithinOneIn128(levels, x);
      if x >= Low(last) {
        BucketIs(levels, last, x);
      }
    } else {
      LowGrows(last);
      BucketIs(levels, last, x);
    }
  }

  lemma LastWidth(levels: nat)
    requires levels >= 1
    ensures var last := Count(levels) - 1;
      64 * Width(last) <= Low(last) && Low(Count(levels)) == Low(last) + Width(last)
  {
    WidthIsSmall(Count(levels) - 1);
  }

  lemma LastWidths()
    ensures Power2(16) == 0x1_0000 && Power2(17) == 0x2_0000
  {
    assert Power2(4) == 16 && Power2(8) == 0x100 && Power2(12) == 0x1000;
  }

  /** The table in use: 17 levels, 1152 buckets, the last one open from 2^23 on. */
  lemma SeventeenLevels(x: nat)
    ensures Bucket(LEVELS, x) < BUCKETS == Count(LEVELS)
    ensures Low(BUCKETS) == 0x80_0000
  {
    LastWidths();
  }

  lemma LastLatencies()
    ensures LatencyAt(LEVELS, BUCKETS - 1) == 8355839 && AverageAt(LEVELS, BUCKETS - 1) == 8355840
  {
    LastWidths();
    MiddleOf(LEVELS, BUCKETS - 1);
  }

  /** It is exact to 1/128 up to 8421633, or 8421634 for the other version, and no further. */
  lemma SeventeenRange(x: nat)
    ensures 128 * Apart(LatencyAt(LEVELS, Bucket(LEVELS, x)), x) <= x <==> x <= 8421633
    ensures 128 * Apart(AverageAt(LEVELS, Bucket(LEVELS, x)), x) <= x <==> x <= 8421634
  {
    LastLatencies();
    WithinOneIn128Iff(LEVELS, x);
  }
}
