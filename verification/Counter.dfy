/** The request counter: fed one request at a time, finished, merged with another, and asked for
    latency percentiles. */
module Counter {
  import opened Arithmetic
  import opened Histogram
  import opened Statistics

  class RequestCounter {
    var requests: nat
    var bytes: nat
    var totalLatency: nat
    var minLatency: nat
    var maxLatency: nat
    var meanLatency: real
    var m2Latency: real
    var varianceLatency: real
    const histogram: array<nat>

    /** The requests counted so far. */
    ghost var samples: seq<Sample>

    /** Everything but the variance is that of the samples. */
    ghost predicate Counted()
      reads this, histogram
    {
      && Sums(samples, requests, bytes, totalLatency)
      && (samples != [] ==> Extremes(samples, minLatency, maxLatency))
      && IsMean(samples, meanLatency)
      && histogram.Length == BUCKETS && Tabulated(histogram[..], samples, BUCKETS)
    }

    /** The running sum of squared deviations is up to date as well. */
    ghost predicate Running()
      reads this, histogram
    {
      Counted() && Moments(samples, meanLatency, m2Latency) && varianceLatency == 0.0
    }

    constructor ()
      ensures Running() && samples == [] && fresh(histogram)
    {
      requests, bytes, totalLatency, minLatency, maxLatency := 0, 0, 0, 0, 0;
      meanLatency, m2Latency, varianceLatency := 0.0, 0.0, 0.0;
      histogram := new nat[BUCKETS](_ => 0);
      samples := [];
    }

    /** A counter like another, with a histogram of its own. */
    constructor Copy(a: RequestCounter)
      requires a.Counted()
      ensures fresh(histogram) && Counted() && samples == a.samples
      ensures meanLatency == a.meanLatency && m2Latency == a.m2Latency && varianceLatency == a.varianceLatency
    {
      requests, bytes, totalLatency := a.requests, a.bytes, a.totalLatency;
      minLatency, maxLatency := a.minLatency, a.maxLatency;
      meanLatency, m2Latency, varianceLatency := a.meanLatency, a.m2Latency, a.varianceLatency;
      histogram := new nat[BUCKETS];
      samples := a.samples;
      new;
      CopyTable(a.histogram, histogram);
    }

    /** Two non-empty counters in one. */
    constructor Merged(a: RequestCounter, b: RequestCounter)
      requires a.Counted() && b.Counted() && a.requests > 0 && b.requests > 0
      ensures fresh(histogram) && Counted() && samples == a.samples + b.samples
      ensures varianceLatency == CombinedVariance(a.requests as real, a.meanLatency, a.varianceLatency,
                                                  b.requests as real, b.meanLatency, b.varianceLatency, meanLatency)
      ensures m2Latency == 0.0
    {
      var mean := WeightedMean(a.requests, a.meanLatency, b.requests, b.meanLatency);
      totalLatency := a.totalLatency + b.totalLatency;
      bytes := a.bytes + b.bytes;
      requests := a.requests + b.requests;
      minLatency := if a.minLatency < b.minLatency then a.minLatency else b.minLatency;
      maxLatency := if a.maxLatency > b.maxLatency then a.maxLatency else b.maxLatency;
      meanLatency, m2Latency := mean, 0.0;
      varianceLatency := CombinedVariance(a.requests as real, a.meanLatency, a.varianceLatency,
                                          b.requests as real, b.meanLatency, b.varianceLatency, mean);
      histogram := new nat[BUCKETS];
      samples := a.samples + b.samples;
      new;
      AddTables(a.histogram, b.histogram, histogram);
      TabulatedConcat(histogram[..], a.histogram[..], a.samples, b.histogram[..], b.samples);
      MergedFigures(a, b);
    }

    method AddLatency(x: Sample)
      requires histogram.Length == BUCKETS && Tabulated(histogram[..], samples, BUCKETS)
      modifies histogram
      ensures Tabulated(histogram[..], samples + [x], BUCKETS)
    {
      SeventeenLevels(x.latency);
      var bucket := IndexForLatency(LEVELS, x.latency);
      TabulatedSnoc(histogram[..], samples, x);
      histogram[bucket] := histogram[bucket] + 1;
    }

    /** One more request. */
    method AddRequest(x: Sample)
      requires Running()
      modifies this, histogram
      ensures Running() && samples == old(samples) + [x]
    {
      ghost var ys := samples + [x];
      AddLatency(x);
      Accumulate(x, ys);
    }

    /** All but the histogram. */
    method Accumulate(x: Sample, ghost ys: seq<Sample>)
      requires ys == samples + [x]
      requires Sums(samples, requests, bytes, totalLatency) && Moments(samples, meanLatency, m2Latency)
      requires samples != [] ==> Extremes(samples, minLatency, maxLatency)
      requires varianceLatency == 0.0
      requires histogram.Length == BUCKETS && Tabulated(histogram[..], ys, BUCKETS)
      modifies this
      ensures Running() && samples == ys
    {
      Update(x, ys);
      samples := ys;
    }

    /** Count, totals, extremes and moments. */
    method Update(x: Sample, ghost ys: seq<Sample>)
      requires ys == samples + [x]
      requires Sums(samples, requests, bytes, totalLatency) && Moments(samples, meanLatency, m2Latency)
      requires samples != [] ==> Extremes(samples, minLatency, maxLatency)
      modifies this`requests, this`minLatency, this`maxLatency, this`meanLatency, this`m2Latency
      modifies this`bytes, this`totalLatency
      ensures Sums(ys, requests, bytes, totalLatency)
      ensures Moments(ys, meanLatency, m2Latency) && Extremes(ys, minLatency, maxLatency)
    {
      requests := requests + 1;
      if requests == 1 {
        First(x);
      } else {
        Later(x);
      }
    }

    method First(x: Sample)
      requires samples == [] && requests == 1 && Moments(samples, meanLatency, m2Latency)
      modifies this`minLatency, this`maxLatency, this`meanLatency, this`bytes, this`totalLatency
      ensures Sums(samples + [x], requests, bytes, totalLatency)
      ensures Moments(samples + [x], meanLatency, m2Latency) && Extremes(samples + [x], minLatency, maxLatency)
    {
      minLatency, maxLatency := x.latency, x.latency;
      meanLatency := x.latency as real;
      totalLatency := x.latency;
      bytes := x.bytes;
      assert samples + [x] == [x];
      OneSample(x);
      ExtremesSnoc([], x, 0, 0);
    }

    method Later(x: Sample)
      requires samples != [] && requests > 0 && Sums(samples, requests - 1, bytes, totalLatency)
      requires Moments(samples, meanLatency, m2Latency) && Extremes(samples, minLatency, maxLatency)
      modifies this`minLatency, this`maxLatency, this`meanLatency, this`m2Latency, this`bytes, this`totalLatency
      ensures Sums(samples + [x], requests, bytes, totalLatency)
      ensures Moments(samples + [x], meanLatency, m2Latency) && Extremes(samples + [x], minLatency, maxLatency)
    {
      UpdateMoments(x);
      UpdateExtremes(x);
      TotalSnoc(samples, x, Bytes());
      TotalSnoc(samples, x, Latency());
      bytes := bytes + x.bytes;
      totalLatency := totalLatency + x.latency;
    }

    /** The running mean and squared deviations. */
    method UpdateMoments(x: Sample)
      requires requests == |samples| + 1 && Moments(samples, meanLatency, m2Latency)
      modifies this`meanLatency, this`m2Latency
      ensures Moments(samples + [x], meanLatency, m2Latency)
    {
      ghost var mean, m2 := meanLatency, m2Latency;
      var delta := x.latency as real - meanLatency;
      meanLatency := meanLatency + delta / requests as real;
      m2Latency := m2Latency + delta * (x.latency as real - meanLatency);
      MomentsStep(samples, x, requests, mean, m2, delta, meanLatency, m2Latency);
    }

    method UpdateExtremes(x: Sample)
      requires samples != [] && Extremes(samples, minLatency, maxLatency)
      modifies this`minLatency, this`maxLatency
      ensures Extremes(samples + [x], minLatency, maxLatency)
    {
      ExtremesSnoc(samples, x, minLatency, maxLatency);
      if x.latency < minLatency {
        minLatency := x.latency;
      }
      if x.latency > maxLatency {
        maxLatency := x.latency;
      }
    }

    /** The sample variance, and the mean once more from the total. */
    method Finish()
      requires Running()
      modifies this`meanLatency, this`varianceLatency
      ensures Counted() && meanLatency == old(meanLatency)
      ensures varianceLatency == SampleVariance(Deviations(samples, meanLatency), requests)
    {
      if requests > 1 {
        varianceLatency := m2Latency / (requests as real - 1.0);
        MeanIsQuotient(samples, meanLatency);
        meanLatency := totalLatency as real / requests as real;
      }
    }

    method CountAll() returns (total: nat)
      requires Counted()
      ensures total == requests
    {
      total := 0;
      var i := 0;
      NoneBelow(samples);
      while i < BUCKETS
        invariant i <= BUCKETS && total == Total(samples, InBelow(i))
      {
        SumBelow(histogram[..], samples, i);
        total := total + histogram[i];
        i := i + 1;
      }
      AllBelow(samples);
    }

    /** The first bucket at which the running count reaches p percent, or the end. */
    method FirstBucket(p: real, total: nat) returns (i: nat)
      requires Counted() && total == requests
      ensures i <= BUCKETS && (total == 0 ==> i == BUCKETS)
      ensures i < BUCKETS ==> Total(samples, InBelow(i + 1)) >= Rank(p, total)
      ensures i == 0 || total == 0 || Total(samples, InBelow(i)) < Rank(p, total)
    {
      var accumulated := 0;
      i := 0;
      NoneBelow(samples);
      while i < BUCKETS
        invariant i <= BUCKETS && accumulated == Total(samples, InBelow(i))
        invariant i == 0 || total == 0 || accumulated < Rank(p, total)
      {
        SumBelow(histogram[..], samples, i);
        accumulated := accumulated + histogram[i];
        if total > 0 {
          ReachesRank(accumulated, total, p);
          if 100.0 * accumulated as real / total as real >= p {
            break;
          }
        }
        i := i + 1;
      }
    }

    /** The latency that stands for the bucket in which the running count reaches p percent: that
        of the sample of that rank, and for an impossible percentage the first or the last one. */
    method Percentile(p: real) returns (latency: nat)
      requires Counted()
      ensures samples == [] || p > 100.0 ==> latency == AverageAt(LEVELS, BUCKETS)
      ensures samples != [] && p <= 0.0 ==> latency == AverageAt(LEVELS, 0)
      ensures samples != [] && 0.0 < p <= 100.0 ==> StandsForRank(samples, Rank(p, requests), latency)
    {
      var total := CountAll();
      var i := FirstBucket(p, total);
      latency := AverageAt(LEVELS, i);
      if samples != [] {
        PercentileIsRanked(samples, p, total, i);
      }
    }
  }

  /** The loop of the bin computed in line: as IndexForLatency, but with other bounds. */
  function InlineLevel(tmp: nat, i: nat): (level: nat)
    decreases tmp
  {
    if tmp > 64 && i < 18 then InlineLevel(tmp / 2, i + 1) else i
  }

  /** The bin computed in line, where the mask applies to the whole sum. */
  function InlineBin(latency: nat): nat {
    var i := InlineLevel(latency, 0);
    (i * 64 + ShiftRight(latency, if i < 1 then i else i - 1)) % 64
  }

  /** It is the latency's bucket only where buckets hold one latency each and fit under the mask,
      which is why this counter uses the histogram's own function. */
  lemma InlineBinIff(latency: nat)
    ensures InlineBin(latency) == Bucket(LEVELS, latency) <==> latency < 64
  {
    SmallBucket(LEVELS, if latency < 64 then latency else 64);
    BucketIs(LEVELS, if latency < 64 then latency else 64, if latency < 64 then latency else 64);
    if latency >= 64 {
      BucketMonotone(LEVELS, 64, latency);
    }
  }

  /** In the same bucket as the r-th smallest latency, and so within 1/128 of it. */
  ghost predicate StandsForRank(xs: seq<Sample>, r: int, latency: nat) {
    1 <= r <= |xs| && forall y: nat | Ranked(xs, r, y) ::
      && Bucket(LEVELS, latency) == Bucket(LEVELS, y)
      && (y < 0x80_0000 ==> 128 * Apart(latency, y) <= y)
  }

  lemma PercentileIsRanked(xs: seq<Sample>, p: real, n: nat, i: nat)
    requires n == |xs| > 0 && i <= BUCKETS
    requires i < BUCKETS ==> Total(xs, InBelow(i + 1)) >= Rank(p, n)
    requires i == 0 || Total(xs, InBelow(i)) < Rank(p, n)
    ensures p > 100.0 ==> i == BUCKETS
    ensures p <= 0.0 ==> i == 0
    ensures 0.0 < p <= 100.0 ==> StandsForRank(xs, Rank(p, n), AverageAt(LEVELS, i))
  {
    RankRange(p, n);
    AllBelow(xs);
    NoneBelow(xs);
    if i < BUCKETS {
      BelowGrows(xs, i + 1, BUCKETS);
    }
    if 0.0 < p <= 100.0 {
      StandsFor(xs, Rank(p, n), i);
    }
  }

  /** The bucket where the running count first reaches r stands for the r-th smallest latency. */
  lemma StandsFor(xs: seq<Sample>, r: nat, k: nat)
    requires 1 <= r <= |xs| && k < BUCKETS && Total(xs, InBelow(k)) < r <= Total(xs, InBelow(k + 1))
    ensures StandsForRank(xs, r, AverageAt(LEVELS, k))
  {
    SeventeenLevels(0);
    RoundTrip(LEVELS, k);
    forall y: nat | Ranked(xs, r, y)
      ensures Bucket(LEVELS, y) == k
      ensures y < 0x80_0000 ==> 128 * Apart(AverageAt(LEVELS, k), y) <= y
    {
      FirstToReach(xs, r, y, k);
      if y < 0x80_0000 {
        WithinOneIn128(LEVELS, y);
      }
    }
  }

  method CopyTable(a: array<nat>, into: array<nat>)
    requires a.Length == into.Length && into != a
    modifies into
    ensures into[..] == a[..]
  {
    var i := 0;
    while i < a.Length
      invariant i <= a.Length && forall k | 0 <= k < i :: into[k] == a[k]
    {
      into[i] := a[i];
      i := i + 1;
    }
  }

  /** Entry by entry. */
  method AddTables(a: array<nat>, b: array<nat>, into: array<nat>)
    requires a.Length == b.Length == into.Length == BUCKETS && into != a && into != b
    modifies into
    ensures forall k | 0 <= k < BUCKETS :: into[k] == a[k] + b[k]
  {
    var i := 0;
    while i < BUCKETS
      invariant i <= BUCKETS && forall k | 0 <= k < i :: into[k] == a[k] + b[k]
    {
      into[i] := a[i] + b[i];
      i := i + 1;
    }
  }

  /** What the figures of two counters make together. */
  lemma MergedFigures(a: RequestCounter, b: RequestCounter)
    requires a.Counted() && b.Counted() && a.requests > 0 && b.requests > 0
    ensures Sums(a.samples + b.samples, a.requests + b.requests, a.bytes + b.bytes, a.totalLatency + b.totalLatency)
    ensures Extremes(a.samples + b.samples, Min(a.minLatency, b.minLatency), Max(a.maxLatency, b.maxLatency))
    ensures IsMean(a.samples + b.samples, WeightedMean(a.requests, a.meanLatency, b.requests, b.meanLatency))
  {
    TotalConcat(a.samples, b.samples, Bytes());
    TotalConcat(a.samples, b.samples, Latency());
    ExtremesConcat(a.samples, b.samples, a.minLatency, a.maxLatency, b.minLatency, b.maxLatency);
    MeanConcat(a.samples, b.samples, a.requests, a.meanLatency, b.requests, b.meanLatency);
  }

  /** The counter of the requests of both. */
  method Combine(a: RequestCounter, b: RequestCounter) returns (rv: RequestCounter)
    requires a.Counted() && b.Counted()
    ensures fresh(rv) && fresh(rv.histogram) && rv.Counted() && rv.samples == a.samples + b.samples
    ensures a.requests > 0 && b.requests > 0 ==>
      rv.varianceLatency == CombinedVariance(a.requests as real, a.meanLatency, a.varianceLatency,
                                             b.requests as real, b.meanLatency, b.varianceLatency, rv.meanLatency)
    ensures a.requests > 0 && b.requests > 0 ==> rv.m2Latency == 0.0
    ensures a.requests == 0 || b.requests == 0 ==>
      var c := if a.requests > 0 then a else b;
      rv.meanLatency == c.meanLatency && rv.m2Latency == c.m2Latency && rv.varianceLatency == c.varianceLatency
  {
    if a.requests > 0 && b.requests > 0 {
      rv := new RequestCounter.Merged(a, b);
    } else if a.requests > 0 {
      rv := new RequestCounter.Copy(a);
      assert a.samples + b.samples == a.samples;
    } else {
      rv := new RequestCounter.Copy(b);
      assert a.samples + b.samples == b.samples;
    }
  }

  /** What a counter shows is determined by its samples: one fed with two streams in turn and the
      combination of two fed with one stream each cannot be told apart, but for the variance. */
  lemma SameSamples(a: RequestCounter, b: RequestCounter)
    requires a.Counted() && b.Counted() && a.samples == b.samples && a.samples != []
    ensures a.requests == b.requests && a.bytes == b.bytes && a.totalLatency == b.totalLatency
    ensures a.minLatency == b.minLatency && a.maxLatency == b.maxLatency && a.meanLatency == b.meanLatency
    ensures a.histogram[..] == b.histogram[..]
  {
    MeanIsQuotient(a.samples, a.meanLatency);
    MeanIsQuotient(b.samples, b.meanLatency);
  }
}
