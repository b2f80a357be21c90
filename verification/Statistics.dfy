/** What the statistics of a set of requests are: totals, extremes, mean and squared deviations,
    how they change with one more sample or another set, and ranks. Floating point is modelled by
    exact reals. */
module Statistics {
  import opened Arithmetic
  import opened Histogram

  datatype Sample = Sample(latency: nat, bytes: nat)

  function Latency(): Sample -> nat {
    (x: Sample) => x.latency
  }

  function Bytes(): Sample -> nat {
    (x: Sample) => x.bytes
  }

  /** One for a sample of this bucket. */
  function InOne(bucket: nat): Sample -> nat {
    (x: Sample) => if Bucket(LEVELS, x.latency) == bucket then 1 else 0
  }

  /** One for a sample of the buckets below. */
  function InBelow(bucket: nat): Sample -> nat {
    (x: Sample) => if Bucket(LEVELS, x.latency) < bucket then 1 else 0
  }

  /** One for a sample with a latency below. */
  function Faster(latency: nat): Sample -> nat {
    (x: Sample) => if x.latency < latency then 1 else 0
  }

  function Total(xs: seq<Sample>, f: Sample -> nat): nat {
    if xs == [] then 0 else Total(xs[..|xs| - 1], f) + f(xs[|xs| - 1])
  }

  lemma TotalSnoc(xs: seq<Sample>, x: Sample, f: Sample -> nat)
    ensures Total(xs + [x], f) == Total(xs, f) + f(x)
  {
    assert (xs + [x])[..|xs + [x]| - 1] == xs;
  }

  lemma {:induction false} TotalConcat(xs: seq<Sample>, ys: seq<Sample>, f: Sample -> nat)
    ensures Total(xs + ys, f) == Total(xs, f) + Total(ys, f)
  {
    if ys == [] {
      assert xs + ys == xs;
    } else {
      var zs, y := ys[..|ys| - 1], ys[|ys| - 1];
      assert xs + ys == xs + zs + [y];
      TotalSnoc(xs + zs, y, f);
      TotalConcat(xs, zs, f);
    }
  }

  lemma {:induction false} TotalLe(xs: seq<Sample>, f: Sample -> nat, g: Sample -> nat)
    requires forall x: Sample :: f(x) <= g(x)
    ensures Total(xs, f) <= Total(xs, g)
  {
    if xs == [] {
    } else {
      TotalLe(xs[..|xs| - 1], f, g);
    }
  }

  lemma {:induction false} TotalSum(xs: seq<Sample>, f: Sample -> nat, g: Sample -> nat, h: Sample -> nat)
    requires forall x: Sample :: h(x) == f(x) + g(x)
    ensures Total(xs, h) == Total(xs, f) + Total(xs, g)
  {
    if xs == [] {
    } else {
      TotalSum(xs[..|xs| - 1], f, g, h);
    }
  }

  lemma {:induction false} TotalConstant(xs: seq<Sample>, f: Sample -> nat, c: nat)
    requires forall x: Sample :: f(x) == c
    ensures Total(xs, f) == |xs| * c
  {
    if xs == [] {
    } else {
      TotalConstant(xs[..|xs| - 1], f, c);
    }
  }

  /** The fastest and the slowest sample. */
  ghost predicate Extremes(xs: seq<Sample>, lo: nat, hi: nat) {
    && (forall i | 0 <= i < |xs| :: lo <= xs[i].latency <= hi)
    && (exists i :: 0 <= i < |xs| && xs[i].latency == lo)
    && (exists i :: 0 <= i < |xs| && xs[i].latency == hi)
  }

  lemma ExtremesConcat(xs: seq<Sample>, ys: seq<Sample>, la: nat, ha: nat, lb: nat, hb: nat)
    requires Extremes(xs, la, ha) && Extremes(ys, lb, hb)
    ensures Extremes(xs + ys, Min(la, lb), Max(ha, hb))
  {
    var i :| 0 <= i < |xs| && xs[i].latency == la;
    var j :| 0 <= j < |xs| && xs[j].latency == ha;
    var k :| 0 <= k < |ys| && ys[k].latency == lb;
    var l :| 0 <= l < |ys| && ys[l].latency == hb;
    var zs := xs + ys;
    assert zs[i].latency == la && zs[j].latency == ha;
    assert zs[|xs| + k].latency == lb && zs[|xs| + l].latency == hb;
  }

  lemma ExtremesSnoc(xs: seq<Sample>, x: Sample, lo: nat, hi: nat)
    ensures Extremes([x], x.latency, x.latency)
    ensures Extremes(xs, lo, hi) ==> Extremes(xs + [x], Min(lo, x.latency), Max(hi, x.latency))
  {
    assert [x][0].latency == x.latency;
    if Extremes(xs, lo, hi) {
      ExtremesConcat(xs, [x], lo, hi, x.latency, x.latency);
    }
  }

  /** The first n entries count the samples of their buckets. */
  ghost predicate Tabulated(table: seq<nat>, xs: seq<Sample>, n: nat) {
    n <= |table| && forall k: nat | k < n :: table[k] == Total(xs, InOne(k))
  }

  lemma TabulatedConcat(table: seq<nat>, ta: seq<nat>, xs: seq<Sample>, tb: seq<nat>, ys: seq<Sample>)
    requires Tabulated(ta, xs, BUCKETS) && Tabulated(tb, ys, BUCKETS)
    requires |table| == BUCKETS && forall k | 0 <= k < BUCKETS :: table[k] == ta[k] + tb[k]
    ensures Tabulated(table, xs + ys, BUCKETS)
  {
    forall k: nat | k < BUCKETS
      ensures table[k] == Total(xs + ys, InOne(k))
    {
      TotalConcat(xs, ys, InOne(k));
    }
  }

  /** The running sum of the table. */
  lemma SumBelow(table: seq<nat>, xs: seq<Sample>, k: nat)
    requires Tabulated(table, xs, BUCKETS) && k < BUCKETS
    ensures Total(xs, InBelow(k + 1)) == Total(xs, InBelow(k)) + table[k]
  {
    TotalSum(xs, InBelow(k), InOne(k), InBelow(k + 1));
  }

  lemma NoneBelow(xs: seq<Sample>)
    ensures Total(xs, InBelow(0)) == 0
  {
    TotalConstant(xs, InBelow(0), 0);
  }

  lemma {:induction false} AllBelow(xs: seq<Sample>)
    ensures Total(xs, InBelow(BUCKETS)) == |xs|
  {
    if xs == [] {
    } else {
      AllBelow(xs[..|xs| - 1]);
      SeventeenLevels(xs[|xs| - 1].latency);
    }
  }

  lemma TabulatedSnoc(table: seq<nat>, xs: seq<Sample>, x: Sample)
    requires Tabulated(table, xs, BUCKETS) && Bucket(LEVELS, x.latency) < BUCKETS
    ensures var k := Bucket(LEVELS, x.latency); Tabulated(table[k := table[k] + 1], xs + [x], BUCKETS)
  {
    forall k: nat | k < BUCKETS
      ensures Total(xs + [x], InOne(k)) == Total(xs, InOne(k)) + InOne(k)(x)
    {
      TotalSnoc(xs, x, InOne(k));
    }
  }

  /* ---- Mean and variance ---- */

  /** The sum of squared deviations from c. */
  function Deviations(xs: seq<Sample>, c: real): real {
    if xs == [] then 0.0
    else
      var d := xs[|xs| - 1].latency as real - c;
      Deviations(xs[..|xs| - 1], c) + d * d
  }

  /** The sum of the deviations from c, with their signs. */
  function Residue(xs: seq<Sample>, c: real): real {
    if xs == [] then 0.0 else Residue(xs[..|xs| - 1], c) + (xs[|xs| - 1].latency as real - c)
  }

  /** The mean is where the deviations cancel out. */
  ghost predicate IsMean(xs: seq<Sample>, mean: real) {
    Residue(xs, mean) == 0.0
  }

  lemma {:induction false} ResidueIs(xs: seq<Sample>, c: real)
    ensures Residue(xs, c) == Total(xs, Latency()) as real - |xs| as real * c
  {
    if xs == [] {
    } else {
      ResidueIs(xs[..|xs| - 1], c);
      ResidueAlgebra(|xs| - 1, c, Total(xs[..|xs| - 1], Latency()), xs[|xs| - 1].latency);
    }
  }

  lemma ResidueAlgebra(n: nat, c: real, total: nat, v: nat)
    ensures total as real - n as real * c + (v as real - c) == (total + v) as real - (n + 1) as real * c
  {
  }

  /** As computed: the total divided by the number. */
  lemma MeanIsQuotient(xs: seq<Sample>, mean: real)
    requires xs != []
    ensures IsMean(xs, mean) <==> mean == Total(xs, Latency()) as real / |xs| as real
  {
    ResidueIs(xs, mean);
    QuotientOfReals(Total(xs, Latency()) as real, |xs| as real, mean);
  }

  lemma QuotientOfReals(a: real, n: real, q: real)
    requires n > 0.0
    ensures a - n * q == 0.0 <==> q == a / n
  {
    assert n * (a / n) == a;
    ZeroFactor(n, q - a / n);
  }

  lemma ZeroFactor(n: real, x: real)
    requires n > 0.0
    ensures n * x == 0.0 <==> x == 0.0
  {
  }

  lemma DeviationsSnoc(xs: seq<Sample>, x: Sample, c: real)
    ensures Deviations(xs + [x], c) == Deviations(xs, c) + (x.latency as real - c) * (x.latency as real - c)
  {
    assert (xs + [x])[..|xs + [x]| - 1] == xs;
  }

  lemma {:induction false} DeviationsConcat(xs: seq<Sample>, ys: seq<Sample>, c: real)
    ensures Deviations(xs + ys, c) == Deviations(xs, c) + Deviations(ys, c)
  {
    if ys == [] {
      assert xs + ys == xs;
    } else {
      var zs, y := ys[..|ys| - 1], ys[|ys| - 1];
      assert xs + ys == xs + zs + [y];
      DeviationsSnoc(xs + zs, y, c);
      DeviationsConcat(xs, zs, c);
    }
  }

  lemma ResidueSnoc(xs: seq<Sample>, x: Sample, c: real)
    ensures Residue(xs + [x], c) == Residue(xs, c) + (x.latency as real - c)
  {
    assert (xs + [x])[..|xs + [x]| - 1] == xs;
  }

  /** The mean, and the squared deviations from it. */
  ghost predicate Moments(xs: seq<Sample>, mean: real, m2: real) {
    IsMean(xs, mean) && m2 == Deviations(xs, mean)
  }

  /** How many, of how many bytes, how long altogether. */
  ghost predicate Sums(xs: seq<Sample>, n: nat, bytes: nat, latency: nat) {
    n == |xs| && bytes == Total(xs, Bytes()) && latency == Total(xs, Latency())
  }

  lemma OneSample(x: Sample)
    ensures Moments([x], x.latency as real, 0.0)
  {
    assert [] + [x] == [x];
    DeviationsSnoc([], x, x.latency as real);
    ResidueSnoc([], x, x.latency as real);
  }

  /** The deviations around c in terms of those around m. */
  function MovedTo(deviations: real, n: real, residue: real, e: real): real {
    deviations + (2.0 * e * residue + n * (e * e))
  }

  lemma MovedSnoc(deviations: real, n: real, residue: real, d: real, e: real)
    ensures MovedTo(deviations, n, residue, e) + (d + e) * (d + e)
      == MovedTo(deviations + d * d, n + 1.0, residue + d, e)
  {
    assert (d + e) * (d + e) == d * d + 2.0 * e * d + e * e;
    assert 2.0 * e * (residue + d) == 2.0 * e * residue + 2.0 * e * d;
    assert (n + 1.0) * (e * e) == n * (e * e) + e * e;
  }

  lemma MovedOneMore(before: real, after: real, total: real, total': real, a: real, b: real, residue: real,
                     residue': real, d: real, e: real, g: real)
    requires b == a + 1.0 && g == d + e
    requires after == before + d * d && residue' == residue + d && total' == total + g * g
    requires total == MovedTo(before, a, residue, e)
    ensures total' == MovedTo(after, b, residue', e)
  {
    MovedSnoc(before, a, residue, d, e);
  }

  lemma SnocFacts(xs: seq<Sample>, x: Sample, c: real, before: real, after: real, residue: real, residue': real,
                  d: real)
    requires before == Deviations(xs, c) && after == Deviations(xs + [x], c)
    requires residue == Residue(xs, c) && residue' == Residue(xs + [x], c) && d == x.latency as real - c
    ensures after == before + d * d && residue' == residue + d
  {
    DeviationsSnoc(xs, x, c);
    ResidueSnoc(xs, x, c);
  }

  lemma {:induction false} DeviationsMoved(xs: seq<Sample>, n: nat, m: real, c: real)
    requires n == |xs|
    ensures Deviations(xs, c) == MovedTo(Deviations(xs, m), n as real, Residue(xs, m), m - c)
  {
    if n == 0 {
    } else {
      var ys, x := xs[..n - 1], xs[n - 1];
      assert ys + [x] == xs;
      DeviationsMoved(ys, n - 1, m, c);
      var v := x.latency as real;
      SnocFacts(ys, x, m, Deviations(ys, m), Deviations(xs, m), Residue(ys, m), Residue(xs, m), v - m);
      SnocFacts(ys, x, c, Deviations(ys, c), Deviations(xs, c), Residue(ys, c), Residue(xs, c), v - c);
      MovedOneMore(Deviations(ys, m), Deviations(xs, m), Deviations(ys, c), Deviations(xs, c),
                   (n - 1) as real, n as real, Residue(ys, m), Residue(xs, m), v - m, m - c, v - c);
    }
  }

  /** Around the mean the cross term vanishes. */
  lemma DeviationsFromMean(xs: seq<Sample>, n: nat, m: real, c: real)
    requires n == |xs| && IsMean(xs, m)
    ensures Deviations(xs, c) == Deviations(xs, m) + n as real * ((m - c) * (m - c))
  {
    DeviationsMoved(xs, n, m, c);
  }

  lemma {:induction false} ResidueConcat(xs: seq<Sample>, ys: seq<Sample>, c: real)
    ensures Residue(xs + ys, c) == Residue(xs, c) + Residue(ys, c)
  {
    if ys == [] {
      assert xs + ys == xs;
    } else {
      assert xs + ys == xs + ys[..|ys| - 1] + [ys[|ys| - 1]];
      ResidueSnoc(xs + ys[..|ys| - 1], ys[|ys| - 1], c);
      ResidueConcat(xs, ys[..|ys| - 1], c);
    }
  }

  lemma ResidueMoved(xs: seq<Sample>, n: nat, m: real, c: real)
    requires n == |xs|
    ensures Residue(xs, c) == Residue(xs, m) + n as real * (m - c)
  {
    ResidueIs(xs, m);
    ResidueIs(xs, c);
    assert n as real * (m - c) == n as real * m - n as real * c;
  }

  /** The update of the mean, for the n-th sample. */
  lemma MeanStep(xs: seq<Sample>, x: Sample, n: nat, m: real, m': real)
    requires n == |xs| + 1 && IsMean(xs, m) && m' == m + (x.latency as real - m) / n as real
    ensures IsMean(xs + [x], m')
  {
    ResidueSnoc(xs, x, m');
    ResidueMoved(xs, n - 1, m, m');
    StepAlgebra(n - 1, m, x.latency as real, m');
  }

  lemma StepAlgebra(n: nat, m: real, v: real, m': real)
    requires m' == m + (v - m) / (n + 1) as real
    ensures n as real * (m - m') + (v - m') == 0.0
  {
    var q := (v - m) / (n + 1) as real;
    assert (n + 1) as real * q == v - m;
    assert (n + 1) as real * q == n as real * q + q;
    assert m - m' == -q;
    assert n as real * (-q) == -(n as real * q);
  }

  lemma WelfordAlgebra(n: real, v: real, m: real, m': real)
    requires n * (m - m') + (v - m') == 0.0
    ensures n * ((m - m') * (m - m')) + (v - m') * (v - m') == (v - m) * (v - m')
  {
    var d, e := v - m, m - m';
    assert v - m' == d + e;
    assert n * (e * e) == n * e * e == -(d + e) * e;
    assert -(d + e) * e + (d + e) * (d + e) == d * (d + e);
  }

  lemma MeansLinked(xs: seq<Sample>, x: Sample, n: nat, m: real, m': real)
    requires n == |xs| && IsMean(xs, m) && IsMean(xs + [x], m')
    ensures n as real * (m - m') + (x.latency as real - m') == 0.0
  {
    ResidueSnoc(xs, x, m');
    ResidueMoved(xs, n, m, m');
  }

  lemma WelfordTerms(xs: seq<Sample>, x: Sample, n: nat, m: real, m': real)
    requires n == |xs| && IsMean(xs, m) && IsMean(xs + [x], m')
    ensures n as real * ((m - m') * (m - m')) + (x.latency as real - m') * (x.latency as real - m')
      == (x.latency as real - m) * (x.latency as real - m')
  {
    MeansLinked(xs, x, n, m, m');
    WelfordAlgebra(n as real, x.latency as real, m, m');
  }

  /** Welford's update of the squared deviations. */
  lemma WelfordStep(xs: seq<Sample>, x: Sample, n: nat, m: real, m': real)
    requires n == |xs| && IsMean(xs, m) && IsMean(xs + [x], m')
    ensures Deviations(xs + [x], m') == Deviations(xs, m) + (x.latency as real - m) * (x.latency as real - m')
  {
    DeviationsSnoc(xs, x, m');
    DeviationsFromMean(xs, n, m, m');
    WelfordTerms(xs, x, n, m, m');
  }

  lemma UpdateTerms(v: real, m: real, delta: real, n: nat, m': real, m2: real, m2': real)
    requires delta == v - m && n > 0
    requires m' == m + delta / n as real && m2' == m2 + delta * (v - m')
    ensures m' == m + (v - m) / n as real && m2' == m2 + (v - m) * (v - m')
  {
  }

  /** The two updates as they are made for the n-th sample. */
  lemma MomentsStep(xs: seq<Sample>, x: Sample, n: nat, m: real, m2: real, delta: real, m': real, m2': real)
    requires n == |xs| + 1 && Moments(xs, m, m2) && delta == x.latency as real - m
    requires m' == m + delta / n as real && m2' == m2 + delta * (x.latency as real - m')
    ensures Moments(xs + [x], m', m2')
  {
    UpdateTerms(x.latency as real, m, delta, n, m', m2, m2');
    MeanStep(xs, x, n, m, m');
    WelfordStep(xs, x, n - 1, m, m');
  }

  /* ---- Two sets together ---- */

  function WeightedMean(na: nat, ma: real, nb: nat, mb: real): real
    requires na + nb > 0
  {
    (na as real * ma + nb as real * mb) / (na + nb) as real
  }

  /** The mean of both sets is where the two means balance. */
  lemma MeanBalances(xs: seq<Sample>, ys: seq<Sample>, na: nat, ma: real, nb: nat, mb: real, n: nat, m: real)
    requires na == |xs| && nb == |ys| && n == na + nb && IsMean(xs, ma) && IsMean(ys, mb)
    ensures IsMean(xs + ys, m) <==> n as real * m == na as real * ma + nb as real * mb
  {
    ResidueTogether(xs, ys, na, ma, nb, mb, m);
    BalanceAlgebra(na, ma, nb, mb, n, m, Residue(xs + ys, m));
  }

  lemma ResidueTogether(xs: seq<Sample>, ys: seq<Sample>, na: nat, ma: real, nb: nat, mb: real, m: real)
    requires na == |xs| && nb == |ys| && IsMean(xs, ma) && IsMean(ys, mb)
    ensures Residue(xs + ys, m) == na as real * (ma - m) + nb as real * (mb - m)
  {
    ResidueConcat(xs, ys, m);
    ResidueMoved(xs, na, ma, m);
    ResidueMoved(ys, nb, mb, m);
  }

  lemma BalanceAlgebra(na: nat, ma: real, nb: nat, mb: real, n: nat, m: real, r: real)
    requires n == na + nb && r == na as real * (ma - m) + nb as real * (mb - m)
    ensures r == 0.0 <==> n as real * m == na as real * ma + nb as real * mb
  {
    assert n as real == na as real + nb as real;
    assert n as real * m == na as real * m + nb as real * m;
  }

  lemma MeanConcat(xs: seq<Sample>, ys: seq<Sample>, na: nat, ma: real, nb: nat, mb: real)
    requires na == |xs| && nb == |ys| && na + nb > 0 && IsMean(xs, ma) && IsMean(ys, mb)
    ensures IsMean(xs + ys, WeightedMean(na, ma, nb, mb))
  {
    MeanBalances(xs, ys, na, ma, nb, mb, na + nb, WeightedMean(na, ma, nb, mb));
  }

  function CombinedVariance(na: real, ma: real, va: real, nb: real, mb: real, vb: real, m: real): real
    requires na + nb > 0.0
  {
    (na * (va + (ma - m) * (ma - m)) + nb * (vb + (mb - m) * (mb - m))) / (na + nb)
  }

  /** How far the two means are apart, as part of the squared deviations. */
  lemma Between(na: real, ma: real, nb: real, mb: real, n: real, m: real, between: real)
    requires n == na + nb > 0.0 && n * m == na * ma + nb * mb && between == Spread(na, ma, nb, mb, m)
    ensures n * between == na * nb * ((ma - mb) * (ma - mb))
  {
    var d, e, f := ma - mb, ma - m, mb - m;
    assert n * e == nb * d && n * f == -(na * d) by {
      assert n * e == n * ma - n * m && n * f == n * mb - n * m;
      assert n * ma == na * ma + nb * ma && n * mb == na * mb + nb * mb;
      assert nb * d == nb * ma - nb * mb && na * d == na * ma - na * mb;
    }
    assert e - f == d;
    BetweenAlgebra(na, nb, n, d, e, f);
  }

  lemma BetweenAlgebra(na: real, nb: real, n: real, d: real, e: real, f: real)
    requires n * e == nb * d && n * f == -(na * d) && e - f == d
    ensures n * (na * (e * e) + nb * (f * f)) == na * nb * (d * d)
  {
    assert n * (na * (e * e)) == na * ((n * e) * e);
    assert n * (nb * (f * f)) == nb * ((n * f) * f);
    assert na * ((nb * d) * e) == na * nb * (d * e);
    assert nb * (-(na * d) * f) == -(na * nb * (d * f));
    assert na * nb * (d * e) - na * nb * (d * f) == na * nb * (d * (e - f)) by {
      assert d * (e - f) == d * e - d * f;
    }
    assert n * (na * (e * e) + nb * (f * f)) == n * (na * (e * e)) + n * (nb * (f * f));
  }

  /** The sample variance as the counter computes it: zero while there is one sample only. */
  function SampleVariance(deviations: real, n: nat): real {
    if n <= 1 then 0.0 else deviations / (n as real - 1.0)
  }

  lemma OneDeviation(xs: seq<Sample>, m: real)
    requires |xs| == 1 && IsMean(xs, m)
    ensures Deviations(xs, m) == 0.0
  {
    assert xs == [] + [xs[0]];
    ResidueSnoc([], xs[0], m);
    OneSample(xs[0]);
  }

  lemma VarianceTimes(xs: seq<Sample>, m: real, n: nat, v: real)
    requires n == |xs| > 0 && IsMean(xs, m) && v == SampleVariance(Deviations(xs, m), n)
    ensures (n as real - 1.0) * v == Deviations(xs, m)
  {
    if n == 1 {
      OneDeviation(xs, m);
    }
  }

  /** The combined figure equals the sample variance of all samples together exactly when the means
      are apart by just the right amount; in general it does not. */
  lemma CombinedVarianceIff(xs: seq<Sample>, ys: seq<Sample>, na: nat, ma: real, va: real, nb: nat, mb: real, vb: real,
                            n: nat, m: real, v: real)
    requires na == |xs| > 0 && nb == |ys| > 0 && n == na + nb
    requires IsMean(xs, ma) && va == SampleVariance(Deviations(xs, ma), na)
    requires IsMean(ys, mb) && vb == SampleVariance(Deviations(ys, mb), nb)
    requires IsMean(xs + ys, m) && v == SampleVariance(Deviations(xs + ys, m), n)
    ensures CombinedVariance(na as real, ma, va, nb as real, mb, vb, m) == v <==>
      na as real * nb as real * ((ma - mb) * (ma - mb)) == n as real * (nb as real * va + na as real * vb)
  {
    VarianceFacts(xs, ys, na, ma, va, nb, mb, vb, n, m, v, Deviations(xs, ma), Deviations(ys, mb),
                  Deviations(xs + ys, m), Spread(na as real, ma, nb as real, mb, m));
    FromDeviations(na, ma, va, Deviations(xs, ma), nb, mb, vb, Deviations(ys, mb), n, m, v, Deviations(xs + ys, m),
                   CombinedVariance(na as real, ma, va, nb as real, mb, vb, m),
                   Spread(na as real, ma, nb as real, mb, m));
  }

  lemma VarianceFacts(xs: seq<Sample>, ys: seq<Sample>, na: nat, ma: real, va: real, nb: nat, mb: real, vb: real,
                      n: nat, m: real, v: real, da: real, db: real, d: real, between: real)
    requires na == |xs| > 0 && nb == |ys| > 0 && n == na + nb
    requires IsMean(xs, ma) && da == Deviations(xs, ma) && va == SampleVariance(da, na)
    requires IsMean(ys, mb) && db == Deviations(ys, mb) && vb == SampleVariance(db, nb)
    requires IsMean(xs + ys, m) && d == Deviations(xs + ys, m) && v == SampleVariance(d, n)
    requires between == Spread(na as real, ma, nb as real, mb, m)
    ensures n as real * m == na as real * ma + nb as real * mb && d == da + db + between
    ensures (na as real - 1.0) * va == da && (nb as real - 1.0) * vb == db && (n as real - 1.0) * v == d
  {
    MeanBalances(xs, ys, na, ma, nb, mb, n, m);
    DeviationsTogether(xs, ys, na, ma, nb, mb, m);
    VarianceTimes(xs, ma, na, va);
    VarianceTimes(ys, mb, nb, vb);
    VarianceTimes(xs + ys, m, n, v);
  }

  lemma FromDeviations(na: nat, ma: real, va: real, da: real, nb: nat, mb: real, vb: real, db: real,
                       n: nat, m: real, v: real, d: real, c: real, between: real)
    requires na > 0 && nb > 0 && n == na + nb && n as real * m == na as real * ma + nb as real * mb
    requires (na as real - 1.0) * va == da && (nb as real - 1.0) * vb == db && (n as real - 1.0) * v == d
    requires c == CombinedVariance(na as real, ma, va, nb as real, mb, vb, m)
    requires between == Spread(na as real, ma, nb as real, mb, m) && d == da + db + between
    ensures c == v <==>
      na as real * nb as real * ((ma - mb) * (ma - mb)) == n as real * (nb as real * va + na as real * vb)
  {
    FromReals(na, ma, va, da, nb, mb, vb, db, n, m, v, d, c, between, na as real, nb as real, n as real);
  }

  lemma FromReals(na: nat, ma: real, va: real, da: real, nb: nat, mb: real, vb: real, db: real,
                  n: nat, m: real, v: real, d: real, c: real, between: real, a: real, b: real, w: real)
    requires na > 0 && nb > 0 && n == na + nb && a == na as real && b == nb as real && w == n as real
    requires (a - 1.0) * va == da && (b - 1.0) * vb == db && (w - 1.0) * v == d && w * m == a * ma + b * mb
    requires c == CombinedVariance(a, ma, va, b, mb, vb, m)
    requires between == Spread(a, ma, b, mb, m) && d == da + db + between
    ensures c == v <==> a * b * ((ma - mb) * (ma - mb)) == w * (b * va + a * vb)
  {
    CombinedVarianceNumbers(a, ma, va, da, b, mb, vb, db, w, m, v, d, c, between);
  }

  function Spread(na: real, ma: real, nb: real, mb: real, m: real): real {
    na * ((ma - m) * (ma - m)) + nb * ((mb - m) * (mb - m))
  }

  lemma CombinedVarianceNumbers(na: real, ma: real, va: real, da: real, nb: real, mb: real, vb: real, db: real,
                                n: real, m: real, v: real, d: real, c: real, between: real)
    requires n == na + nb > 1.0 && n * m == na * ma + nb * mb
    requires c == CombinedVariance(na, ma, va, nb, mb, vb, m) && between == Spread(na, ma, nb, mb, m)
    requires (na - 1.0) * va == da && (nb - 1.0) * vb == db && (n - 1.0) * v == d && d == da + db + between
    ensures c == v <==> na * nb * ((ma - mb) * (ma - mb)) == n * (nb * va + na * vb)
  {
    Between(na, ma, nb, mb, n, m, between);
    CombinedIs(na, ma, va, nb, mb, vb, n, m, c, between);
    VarianceAlgebra(na, va, nb, vb, n, between, c, v, na * nb * ((ma - mb) * (ma - mb)));
  }

  lemma DeviationsTogether(xs: seq<Sample>, ys: seq<Sample>, na: nat, ma: real, nb: nat, mb: real, m: real)
    requires na == |xs| && nb == |ys| && IsMean(xs, ma) && IsMean(ys, mb)
    ensures Deviations(xs + ys, m) == Deviations(xs, ma) + Deviations(ys, mb)
      + Spread(na as real, ma, nb as real, mb, m)
  {
    DeviationsConcat(xs, ys, m);
    DeviationsFromMean(xs, na, ma, m);
    DeviationsFromMean(ys, nb, mb, m);
  }

  lemma CombinedIs(na: real, ma: real, va: real, nb: real, mb: real, vb: real, n: real, m: real,
                   c: real, between: real)
    requires n == na + nb > 0.0
    requires c == CombinedVariance(na, ma, va, nb, mb, vb, m) && between == Spread(na, ma, nb, mb, m)
    ensures n * c == na * va + nb * vb + between
  {
    var e, f := (ma - m) * (ma - m), (mb - m) * (mb - m);
    assert na * (va + e) == na * va + na * e && nb * (vb + f) == nb * vb + nb * f;
  }

  lemma VarianceAlgebra(na: real, va: real, nb: real, vb: real, n: real, between: real, c: real, v: real, apart: real)
    requires n == na + nb > 1.0 && n * c == na * va + nb * vb + between
    requires (n - 1.0) * v == (na - 1.0) * va + (nb - 1.0) * vb + between
    requires n * between == apart
    ensures c == v <==> apart == n * (nb * va + na * vb)
  {
    assert n * v == na * va + nb * vb + between - va - vb + v by {
      assert n * v == (n - 1.0) * v + v;
      assert (na - 1.0) * va == na * va - va && (nb - 1.0) * vb == nb * vb - vb;
    }
    assert n * (c - v) == va + vb - v;
    ZeroFactor(n, c - v);
    assert (n - 1.0) * (va + vb) == n * va + n * vb - (va + vb);
    assert n * va == na * va + nb * va && n * vb == na * vb + nb * vb;
    assert (n - 1.0) * (va + vb - v) == nb * va + na * vb - between;
    ZeroFactor(n - 1.0, va + vb - v);
    assert n * (nb * va + na * vb - between) == n * (nb * va + na * vb) - apart;
    ZeroFactor(n, nb * va + na * vb - between);
  }

  /** Two samples at a distance of one from the mean. */
  lemma TwoSamples(a: Sample, b: Sample)
    requires a.latency == 0 && b.latency == 2
    ensures Residue([a, b], 1.0) == 0.0 && Deviations([a, b], 1.0) == 2.0
  {
    assert [a, b] == [a] + [b] && [a] == [] + [a];
    ResidueSnoc([], a, 1.0);
    ResidueSnoc([a], b, 1.0);
    DeviationsSnoc([], a, 1.0);
    DeviationsSnoc([a], b, 1.0);
  }

  lemma FourSamples(xs: seq<Sample>)
    requires Residue(xs, 1.0) == 0.0 && Deviations(xs, 1.0) == 2.0
    ensures Residue(xs + xs, 1.0) == 0.0 && Deviations(xs + xs, 1.0) == 4.0
  {
    ResidueConcat(xs, xs, 1.0);
    DeviationsConcat(xs, xs, 1.0);
  }

  lemma OffFigures()
    ensures SampleVariance(2.0, 2) == 2.0 && SampleVariance(4.0, 4) == 4.0 / 3.0
    ensures CombinedVariance(2.0, 1.0, 2.0, 2.0, 1.0, 2.0, 1.0) == 2.0
  {
  }

  /** For instance for the latencies 0 and 2 and once more 0 and 2: two means of 1, two variances
      of 2 and a combined figure of 2, but 4/3 for all four samples. */
  lemma CombinedVarianceIsOff()
    ensures var xs := [Sample(0, 0), Sample(2, 0)];
      && IsMean(xs, 1.0) && SampleVariance(Deviations(xs, 1.0), 2) == 2.0
      && IsMean(xs + xs, 1.0) && SampleVariance(Deviations(xs + xs, 1.0), 4) == 4.0 / 3.0
      && CombinedVariance(2.0, 1.0, 2.0, 2.0, 1.0, 2.0, 1.0) == 2.0
  {
    TwoSamples(Sample(0, 0), Sample(2, 0));
    FourSamples([Sample(0, 0), Sample(2, 0)]);
    OffFigures();
  }

  /* ---- Ranks ---- */

  /** y is the r-th smallest latency: fewer than r are below it and at least r are not above it. */
  ghost predicate Ranked(xs: seq<Sample>, r: nat, y: nat) {
    Total(xs, Faster(y)) < r <= Total(xs, Faster(y + 1))
  }

  lemma {:induction false} SlowerThanAll(xs: seq<Sample>) returns (m: nat)
    ensures forall k: nat :: k >= m ==> Total(xs, Faster(k)) == |xs|
  {
    m := 0;
    if xs == [] {
    } else {
      var x := xs[|xs| - 1];
      var l := SlowerThanAll(xs[..|xs| - 1]);
      m := l + x.latency + 1;
    }
  }

  lemma {:induction false} RankedFrom(xs: seq<Sample>, r: nat, from: nat, m: nat) returns (y: nat)
    requires Total(xs, Faster(from)) < r <= Total(xs, Faster(m)) && from < m
    ensures Ranked(xs, r, y)
    decreases m - from
  {
    if r <= Total(xs, Faster(from + 1)) {
      y := from;
    } else {
      y := RankedFrom(xs, r, from + 1, m);
    }
  }

  /** Every rank from 1 to the number of samples is some latency's. */
  lemma RankedExists(xs: seq<Sample>, r: nat) returns (y: nat)
    requires 1 <= r <= |xs|
    ensures Ranked(xs, r, y)
  {
    var m := SlowerThanAll(xs);
    TotalConstant(xs, Faster(0), 0);
    assert Total(xs, Faster(m)) == |xs|;
    y := RankedFrom(xs, r, 0, m);
  }

  /** What a percentile asks for: the smallest count that is p percent of n or more. */
  function Rank(p: real, n: nat): int {
    -((-(p * n as real / 100.0)).Floor)
  }

  lemma RankRange(p: real, n: nat)
    requires n > 0
    ensures Rank(p, n) >= 1 <==> p > 0.0
    ensures Rank(p, n) <= n <==> p <= 100.0
  {
    Percent(p, n as real, p * n as real / 100.0);
    RankIs(p, n, p * n as real / 100.0);
    CeilingRange(Rank(p, n), n, p * n as real / 100.0);
  }

  lemma Percent(p: real, n: real, x: real)
    requires n > 0.0 && x == p * n / 100.0
    ensures (x > 0.0 <==> p > 0.0) && (x <= n <==> p <= 100.0)
  {
    Comparison(p, 0.0, n);
    Comparison(100.0, p, n);
  }

  lemma RankIs(p: real, n: nat, x: real)
    requires x == p * n as real / 100.0
    ensures Rank(p, n) as real >= x > Rank(p, n) as real - 1.0
  {
  }

  lemma CeilingRange(r: int, n: nat, x: real)
    requires r as real >= x > r as real - 1.0
    ensures (r >= 1 <==> x > 0.0) && (r <= n <==> x <= n as real)
  {
  }

  /** The comparison of the percentile loop. */
  lemma ReachesRank(accumulated: nat, n: nat, p: real)
    requires n > 0
    ensures 100.0 * accumulated as real / n as real >= p <==> accumulated >= Rank(p, n)
  {
    var q := 100.0 * accumulated as real / n as real;
    assert q * n as real == 100.0 * accumulated as real;
    var x := p * n as real / 100.0;
    assert Rank(p, n) as real >= x > Rank(p, n) as real - 1.0;
    Comparison(q, p, n as real);
    assert q >= p <==> accumulated as real >= x;
  }

  lemma Comparison(a: real, b: real, n: real)
    requires n > 0.0
    ensures a >= b <==> a * n >= b * n
  {
  }

  /** The buckets before that of the r-th smallest latency hold fewer than r samples, those up to
      and including it at least r. */
  lemma RankInBuckets(xs: seq<Sample>, r: nat, y: nat)
    requires Ranked(xs, r, y)
    ensures Total(xs, InBelow(Bucket(LEVELS, y))) < r <= Total(xs, InBelow(Bucket(LEVELS, y) + 1))
  {
    FewerBefore(xs, y);
    EnoughUpTo(xs, y);
  }

  lemma FewerBefore(xs: seq<Sample>, y: nat)
    ensures Total(xs, InBelow(Bucket(LEVELS, y))) <= Total(xs, Faster(y))
  {
    forall x: Sample
      ensures InBelow(Bucket(LEVELS, y))(x) <= Faster(y)(x)
    {
      EarlierIsFaster(x.latency, y);
    }
    TotalLe(xs, InBelow(Bucket(LEVELS, y)), Faster(y));
  }

  lemma EnoughUpTo(xs: seq<Sample>, y: nat)
    ensures Total(xs, Faster(y + 1)) <= Total(xs, InBelow(Bucket(LEVELS, y) + 1))
  {
    var f, g := Faster(y + 1), InBelow(Bucket(LEVELS, y) + 1);
    forall x: Sample
      ensures f(x) <= g(x)
    {
      EarlierIsFaster(x.latency, y);
    }
    TotalLe(xs, f, g);
  }

  lemma EarlierIsFaster(x: nat, y: nat)
    ensures Bucket(LEVELS, x) < Bucket(LEVELS, y) ==> x < y
    ensures x < y + 1 ==> Bucket(LEVELS, x) < Bucket(LEVELS, y) + 1
  {
    BucketMonotone(LEVELS, if x <= y then x else y, if x <= y then y else x);
  }

  lemma BelowGrows(xs: seq<Sample>, k: nat, l: nat)
    requires k <= l
    ensures Total(xs, InBelow(k)) <= Total(xs, InBelow(l))
  {
    TotalLe(xs, InBelow(k), InBelow(l));
  }

  /** Where the running count first reaches r is the bucket of the r-th smallest latency. */
  lemma FirstToReach(xs: seq<Sample>, r: nat, y: nat, k: nat)
    requires Ranked(xs, r, y)
    requires Total(xs, InBelow(k)) < r <= Total(xs, InBelow(k + 1))
    ensures k == Bucket(LEVELS, y)
  {
    RankInBuckets(xs, r, y);
    if k < Bucket(LEVELS, y) {
      BelowGrows(xs, k + 1, Bucket(LEVELS, y));
    } else if Bucket(LEVELS, y) < k {
      BelowGrows(xs, Bucket(LEVELS, y) + 1, k);
    }
  }
}
