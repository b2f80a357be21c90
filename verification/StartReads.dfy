/** Which files have their first block read at random by the mixed workload. A draw that is a
    multiple of 32 makes a sequential request, so where every number of blocks is a multiple of 32
    block 0 is never drawn. */
module StartReads {
  import opened Arithmetic
  import opened Weights
  import opened MixedGenerator
  import opened MixedAlarms

  /** 32 requests of the largest size. */
  const PERIOD: nat := 0x400_0000

  /** How often a size goes into the period. */
  function PerPeriod(j: nat): nat
    requires j < SIZES
  {
    PERIOD / SizeAt(j)
  }

  lemma PerPeriodIs(j: nat)
    requires j < SIZES
    ensures PerPeriod(j) * SizeAt(j) == PERIOD && PerPeriod(j) % 32 == 0
  {
  }

  lemma RestInBlocks(f: nat, s: nat, t: nat, c: nat, rest: nat, k: nat)
    requires s > 0 && f == c * t * s + rest && k == rest / s
    ensures f / s == c * t + k
  {
    assert rest == k * s + rest % s;
    assert (c * t + k) * s == c * t * s + k * s;
    Remainder(f, s, c * t + k, rest % s);
  }

  lemma Regrouped(c: nat, t: nat, s: nat, p: nat)
    requires t * s == p
    ensures c * p == c * t * s
  {
  }

  /** The number of blocks of one size, by whole periods and what is left. */
  lemma BlocksOf(f: nat, j: nat, c: nat, rest: nat)
    requires j < SIZES && f == c * PERIOD + rest
    ensures f / SizeAt(j) == c * PerPeriod(j) + rest / SizeAt(j) && c * PerPeriod(j) % 32 == 0
  {
    PerPeriodIs(j);
    MultipleTimes(PerPeriod(j), c, 32);
    Regrouped(c, PerPeriod(j), SizeAt(j), PERIOD);
    RestInBlocks(f, SizeAt(j), PerPeriod(j), c, rest, rest / SizeAt(j));
  }

  lemma InPeriods(f: nat)
    ensures f == f / PERIOD * PERIOD + f % PERIOD
  {
  }

  lemma SumOfMultiples(a: nat, b: nat)
    requires a % 32 == 0 && b < 32
    ensures (a + b) % 32 == b
  {
  }

  /** Every number of blocks is a multiple of 32. */
  ghost predicate AllByThirtyTwo(lo: nat, f: nat) {
    forall k | lo <= k < SIZES :: f / SizeAt(k) % 32 == 0
  }

  /** If every number of blocks is a multiple of 32, less than the smallest size is left over. */
  lemma {:induction false} LittleLeft(f: nat, j: nat)
    requires j < SIZES && AllByThirtyTwo(j, f)
    ensures f % PERIOD < SizeAt(j)
    decreases SIZES - j
  {
    InPeriods(f);
    BlocksOf(f, j, f / PERIOD, f % PERIOD);
    var left := f % PERIOD / SizeAt(j);
    if j == SIZES - 1 {
      FewLeft(f % PERIOD, SizeAt(j), left, 32);
    } else {
      LittleLeft(f, j + 1);
      assert SizeAt(j + 1) == 2 * SizeAt(j);
      FewLeft(f % PERIOD, SizeAt(j), left, 2);
    }
    SumOfMultiples(f / PERIOD * PerPeriod(j), left);
  }

  lemma FewLeft(rest: nat, s: nat, left: nat, n: nat)
    requires s > 0 && left == rest / s && rest < n * s
    ensures left < n && (left == 0 ==> rest < s)
  {
    NextMultiple(rest, left, n, s);
  }

  /** A multiple of q at or after b. */
  lemma MultipleAfter(b: nat, q: nat) returns (e: nat)
    requires q > 0
    ensures e < q && (b + e) % q == 0 && (b + e + q) % q == 0
  {
    var k := b / q;
    e := if b % q == 0 then 0 else q - b % q;
    assert b == k * q + b % q && (k + 1) * q == k * q + q && (k + 2) * q == k * q + q + q;
    var l := if b % q == 0 then k else k + 1;
    Remainder(b + e, q, l, 0);
    Remainder(b + e + q, q, l + 1, 0);
  }

  lemma Halves(high: nat, low: nat)
    requires low < TWO32
    ensures (high * TWO32 + low) % TWO32 == low && (high * TWO32 + low) / TWO32 == high
  {
    Remainder(high * TWO32 + low, TWO32, high, low);
  }

  /** A draw with these halves makes a random read of size j. */
  lemma RandomRead(lo: nat, j: nat, high: nat, low: nat, draw: nat)
    requires lo <= j < SIZES && high <= UINT32_MAX && Lower(RANDOM_BASE, lo, j) <= high < Upper(RANDOM_BASE, lo, j)
    requires low < 0x8000_0000 && low % 32 != 0 && draw % TWO32 == low && draw / TWO32 == high
    ensures var c := Choose(draw); !c.write && !c.sequential && Pick(lo, draw) == j
  {
    ChosenIff(RANDOM_BASE, lo, high, j);
  }

  lemma OffBy(e: nat, q: nat)
    requires q % 32 != 0 && e % 32 == 0
    ensures (e + q) % 32 != 0
  {
  }

  /** Where a number of blocks is not a multiple of 32, some draw reads block 0. */
  lemma DrawOfStart(lo: nat, f: nat, j: nat, q: nat)
    requires lo <= j < SIZES && MAX_IO_SIZE <= f && q == f / SizeAt(j) && q % 32 != 0 && q < 0x4000_0000
    ensures CanReadStart(lo, f)
  {
    SizeCanBeDrawn(RANDOM_BASE, lo, j);
    var high: nat := Lower(RANDOM_BASE, lo, j);
    var e := MultipleAfter(high * TWO32, q);
    if e % 32 == 0 {
      OffBy(e, q);
    }
    var low := if e % 32 != 0 then e else e + q;
    var draw := high * TWO32 + low;
    Halves(high, low);
    RandomRead(lo, j, high, low, draw);
    assert ReadsStart(lo, f, draw);
  }

  lemma SmallerNumber(f: nat, s: nat, t: nat, k: nat, l: nat)
    requires 0 < s <= t && k == f / s && l == f / t
    ensures l <= k
  {
    QuotientIs(f, s, k);
    QuotientIs(f, t, l);
    BetweenQuotients(f, s, t, k, l);
  }

  lemma BetweenQuotients(f: nat, s: nat, t: nat, k: nat, l: nat)
    requires s <= t && f < (k + 1) * s && l * t <= f
    ensures l <= k
  {
    TimesMonotone(s, t, l);
    assert l * s <= l * t;
    CancelFactor(l, k + 1, s);
  }

  lemma MultipleOfMultiple(a: nat, q: int)
    requires q > 0 && q % 32 == 0 && a % q == 0
    ensures a % 32 == 0
  {
    MultipleTimes(q, a / q, 32);
    assert a == a / q * q;
  }

  lemma LowFive(draw: nat)
    ensures draw % TWO32 % 32 == draw % 32
  {
  }

  lemma WholePeriods(f: nat, j: nat, q: int)
    requires j < SIZES && MAX_IO_SIZE <= f && f % PERIOD < SizeAt(j) && q == f / SizeAt(j)
    ensures q > 0 && q % 32 == 0
  {
    InPeriods(f);
    BlocksOf(f, j, f / PERIOD, f % PERIOD);
  }

  lemma MultipleIsSequential(draw: nat, q: int)
    requires q > 0 && q % 32 == 0 && draw % q == 0
    ensures Choose(draw).sequential
  {
    MultipleOfMultiple(draw, q);
    LowFive(draw);
  }

  lemma NoReadOfStart(lo: nat, f: nat, draw: nat, j: nat, q: int)
    requires lo < SIZES && MAX_IO_SIZE <= f && f % PERIOD < SizeAt(lo) && j == Pick(lo, draw) && q == f / SizeAt(j)
    ensures !ReadsStart(lo, f, draw)
  {
    SizesGrow(lo, j);
    WholePeriods(f, j, q);
    if ReadsStart(lo, f, draw) {
      MultipleIsSequential(draw, q);
    }
  }

  lemma NoDrawOfStart(lo: nat, f: nat, draw: nat)
    requires lo < SIZES && MAX_IO_SIZE <= f && f % PERIOD < SizeAt(lo)
    ensures !ReadsStart(lo, f, draw)
  {
    NoReadOfStart(lo, f, draw, Pick(lo, draw), f / SizeAt(Pick(lo, draw)));
  }

  lemma StartNotRead(lo: nat, f: nat)
    requires lo < SIZES && MAX_IO_SIZE <= f && f % PERIOD < SizeAt(lo)
    ensures !CanReadStart(lo, f)
  {
    forall draw: nat
      ensures !ReadsStart(lo, f, draw)
    {
      NoDrawOfStart(lo, f, draw);
    }
  }

  lemma StartRead(lo: nat, f: nat, j: nat)
    requires lo <= j < SIZES && MAX_IO_SIZE <= f && f / SizeAt(lo) < 0x4000_0000 && f / SizeAt(j) % 32 != 0
    ensures CanReadStart(lo, f)
  {
    SizesGrow(lo, j);
    SmallerNumber(f, SizeAt(lo), SizeAt(j), f / SizeAt(lo), f / SizeAt(j));
    DrawOfStart(lo, f, j, f / SizeAt(j));
  }

  /** For files of fewer than 2^30 smallest blocks: the first block can be read at random exactly
      when at least the smallest size is left over whole periods. */
  lemma CanReadStartIff(lo: nat, f: nat)
    requires lo < SIZES && MAX_IO_SIZE <= f && f / SizeAt(lo) < 0x4000_0000
    ensures CanReadStart(lo, f) <==> f % PERIOD >= SizeAt(lo)
  {
    if f % PERIOD < SizeAt(lo) {
      StartNotRead(lo, f);
    } else if AllByThirtyTwo(lo, f) {
      LittleLeft(f, lo);
    } else {
      var j :| lo <= j < SIZES && f / SizeAt(j) % 32 != 0;
      StartRead(lo, f, j);
    }
  }
}
