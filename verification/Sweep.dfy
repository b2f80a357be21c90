/** The sweep over request sizes and queue depths, for any measured throughputs. */
module Sweep {
  import opened Arithmetic
  import opened Buffers
  import opened Protocol
  import MixedGenerator

  /** How many throughputs the decision to stop looks at. */
  const MIN_TESTS := 3

  /** A worker's part in a sweep. */
  datatype Workload = Workload(depths: seq<nat>, sizes: seq<nat>, mixed: bool, bufsize: nat) {
    function MaxIoSize(size: nat): nat {
      if mixed then MixedGenerator.MAX_IO_SIZE else size
    }
  }

  type Workers = seq<Option<Workload>>

  /** A request that fits into the share makes the queue's own assertion hold. */
  lemma GuardIsEnough(bufsize: nat, depth: nat, pageSize: nat, maxIoSize: nat)
    requires depth > 0 && pageSize > 0
    ensures 0 < maxIoSize <= Share(bufsize, depth, pageSize) ==> bufsize / depth >= pageSize
  {
    if bufsize / depth < pageSize {
      Remainder(bufsize / depth, pageSize, 0, bufsize / depth);
    }
  }

  ghost predicate DepthsArePositive(workers: Workers) {
    forall w, d | 0 <= w < |workers| && workers[w].Some? && 0 <= d < |workers[w].value.depths| ::
      workers[w].value.depths[d] > 0
  }

  /** Worker w can take part in the test with size index r and depth index d. */
  ghost predicate Ready(w: Workload, r: nat, d: nat, pageSize: nat)
    requires pageSize > 0
  {
    && d < |w.depths| && r < |w.sizes| && w.depths[d] > 0
    && w.MaxIoSize(w.sizes[r]) <= Share(w.bufsize, w.depths[d], pageSize)
  }

  /** The test can be run: there are active workers and all of them can take part. */
  ghost predicate Runnable(workers: Workers, r: nat, d: nat, pageSize: nat)
    requires pageSize > 0
  {
    && (exists w :: 0 <= w < |workers| && workers[w].Some?)
    && forall w | 0 <= w < |workers| && workers[w].Some? :: Ready(workers[w].value, r, d, pageSize)
  }

  /** Requests of up to maxIoSize bytes, rounded up to whole pages, fit into the buffer as often as the
      queue is deep. */
  lemma FitsShareIff(bufsize: nat, depth: nat, pageSize: nat, maxIoSize: nat, pages: nat)
    requires depth > 0 && pageSize > 0 && pages == (maxIoSize + pageSize - 1) / pageSize
    ensures maxIoSize <= Share(bufsize, depth, pageSize) <==> pages * pageSize * depth <= bufsize
  {
    ShareIsLargest(bufsize, depth, pageSize, pages);
    QuotientBounds(maxIoSize + pageSize - 1, pageSize);
    Whole(bufsize / depth, pageSize);
    PagesFit(maxIoSize, pageSize, pages, bufsize / depth / pageSize, Share(bufsize, depth, pageSize));
  }

  lemma PagesFit(size: nat, pageSize: nat, pages: nat, whole: nat, share: nat)
    requires pageSize > 0 && share == whole * pageSize
    requires pages * pageSize <= size + pageSize - 1 < (pages + 1) * pageSize
    ensures size <= share <==> pages * pageSize <= share
  {
    assert (pages + 1) * pageSize == pages * pageSize + pageSize;
    if pages <= whole {
      TimesMonotone(pages, whole, pageSize);
    } else {
      TimesMonotone(whole + 1, pages, pageSize);
      assert (whole + 1) * pageSize == whole * pageSize + pageSize;
    }
  }

  /** So a worker can take part exactly when it has this depth and this size, and its largest
      requests, in whole pages, fit into its buffer as often as the depth says. */
  lemma ReadyIff(w: Workload, r: nat, d: nat, pageSize: nat)
    requires pageSize > 0
    ensures Ready(w, r, d, pageSize) <==>
      && r < |w.sizes| && d < |w.depths| && w.depths[d] > 0
      && var largest := if w.mixed then 2097152 else w.sizes[r];
         (largest + pageSize - 1) / pageSize * pageSize * w.depths[d] <= w.bufsize
  {
    if r < |w.sizes| && d < |w.depths| && w.depths[d] > 0 {
      var largest := w.MaxIoSize(w.sizes[r]);
      FitsShareIff(w.bufsize, w.depths[d], pageSize, largest, (largest + pageSize - 1) / pageSize);
    }
  }

  /** All active workers have a size with this index. */
  ghost predicate HasSize(workers: Workers, r: nat) {
    && (exists w :: 0 <= w < |workers| && workers[w].Some?)
    && forall w | 0 <= w < |workers| && workers[w].Some? :: r < |workers[w].value.sizes|
  }

  /** The first active worker, or the end. */
  function FirstActive(workers: Workers): (f: nat)
    ensures f <= |workers| && (f < |workers| ==> workers[f].Some?)
    ensures forall w | 0 <= w < f :: workers[w].None?
  {
    if workers == [] then 0
    else if workers[0].Some? then 0
    else 1 + FirstActive(workers[1..])
  }

  /** The checks before a test. They stop the depths, the sizes, or nothing. */
  method Check(workers: Workers, r: nat, d: nat, pageSize: nat, stopSizes: bool)
    returns (stopDepths: bool, stopSizes': bool)
    requires pageSize > 0 && DepthsArePositive(workers)
    ensures !stopDepths && !stopSizes' <==> !stopSizes && Runnable(workers, r, d, pageSize)
    ensures stopSizes' && !stopSizes ==> !HasSize(workers, r)
    ensures var f := FirstActive(workers);
      && (f == |workers| || d >= |workers[f].value.depths| ==> stopDepths)
      && (f == |workers| || r >= |workers[f].value.sizes| ==> stopSizes')
    ensures stopSizes ==> stopSizes'
  {
    stopDepths, stopSizes' := false, stopSizes;
    var active := false;
    var w := 0;
    while w < |workers|
      invariant w <= |workers| && (stopSizes ==> stopSizes')
      invariant active <==> exists v :: 0 <= v < w && workers[v].Some?
      invariant !stopDepths && !stopSizes' <==>
        !stopSizes && forall v | 0 <= v < w && workers[v].Some? :: Ready(workers[v].value, r, d, pageSize)
      invariant stopSizes' && !stopSizes ==> !HasSize(workers, r)
      invariant active ==> FirstActive(workers) < w
      invariant var f := FirstActive(workers); f < w ==>
        (d >= |workers[f].value.depths| ==> stopDepths) && (r >= |workers[f].value.sizes| ==> stopSizes')
    {
      if workers[w].Some? {
        var workload := workers[w].value;
        active := true;
        if d >= |workload.depths| {
          stopDepths := true;
        }
        if r >= |workload.sizes| {
          stopSizes' := true;
        }
        if stopDepths || stopSizes' {
          break;
        }
        if workload.MaxIoSize(workload.sizes[r]) > Share(workload.bufsize, workload.depths[d], pageSize) {
          stopDepths := true;
        }
      }
      w := w + 1;
    }
    if !active {
      stopDepths, stopSizes' := true, true;
    }
  }

  /** From the fourth throughput on: the latest is no more than the mean of the last three. */
  predicate Flat(xs: seq<real>) {
    var n := |xs|;
    n > MIN_TESTS && xs[n - 1] <= (xs[n - 1] + xs[n - 2] + xs[n - 3]) / 3.0
  }

  /** The circular array holds the last three of xs. */
  ghost predicate Window(window: seq<real>, xs: seq<real>) {
    |window| == MIN_TESTS && forall k | 0 <= k < |xs| && |xs| - MIN_TESTS <= k :: window[k % MIN_TESTS] == xs[k]
  }

  lemma WindowStep(window: seq<real>, xs: seq<real>, x: real)
    requires Window(window, xs)
    ensures Window(window[|xs| % MIN_TESTS := x], xs + [x])
  {
    var next, ys := window[|xs| % MIN_TESTS := x], xs + [x];
    forall k | 0 <= k < |ys| && |ys| - MIN_TESTS <= k
      ensures next[k % MIN_TESTS] == ys[k]
    {
      if k < |xs| {
        assert k % MIN_TESTS != |xs| % MIN_TESTS;
      }
    }
  }

  /** The sum of the array is that of the last three, in whatever order it holds them. */
  lemma WindowSum(window: seq<real>, xs: seq<real>)
    requires Window(window, xs) && |xs| >= MIN_TESTS
    ensures window[0] + window[1] + window[2] == xs[|xs| - 1] + xs[|xs| - 2] + xs[|xs| - 3]
  {
    var n := |xs|;
    assert window[(n - 1) % 3] == xs[n - 1] && window[(n - 2) % 3] == xs[n - 2] && window[(n - 3) % 3] == xs[n - 3];
    assert n % 3 == 0 || n % 3 == 1 || n % 3 == 2;
  }

  /** The mean of the circular array. */
  method Average(window: array<real>, ghost xs: seq<real>) returns (average: real)
    requires Window(window[..], xs) && |xs| >= MIN_TESTS
    ensures average == (xs[|xs| - 1] + xs[|xs| - 2] + xs[|xs| - 3]) / 3.0
  {
    WindowSum(window[..], xs);
    average := 0.0;
    var i := 0;
    while i < MIN_TESTS
      invariant i <= MIN_TESTS
      invariant average == if i == 0 then 0.0 else if i == 1 then window[0]
        else if i == 2 then window[0] + window[1] else window[0] + window[1] + window[2]
    {
      average := average + window[i];
      i := i + 1;
    }
    average := average / 3.0;
  }

  ghost predicate Between(xs: seq<real>, lo: real, hi: real) {
    && (forall k | 0 <= k < |xs| :: lo <= xs[k] <= hi)
    && (exists k :: 0 <= k < |xs| && xs[k] == lo) && (exists k :: 0 <= k < |xs| && xs[k] == hi)
  }

  /** Whether the depths end after these throughputs. */
  ghost predicate DepthsEnd(workers: Workers, r: nat, pageSize: nat, auto: bool, xs: seq<real>)
    requires pageSize > 0
  {
    !Runnable(workers, r, |xs|, pageSize) || (auto && Flat(xs))
  }

  /** The throughputs of one size: a test for each depth in turn, up to the first end. */
  ghost predicate DepthsRun(workers: Workers, r: nat, pageSize: nat, auto: bool, xs: seq<real>)
    requires pageSize > 0
  {
    DepthsEnd(workers, r, pageSize, auto, xs) && NoEndBefore(workers, r, pageSize, auto, xs)
  }

  function DepthBound(workers: Workers): nat {
    var f := FirstActive(workers);
    if f < |workers| then |workers[f].value.depths| else 0
  }

  function SizeBound(workers: Workers): nat {
    var f := FirstActive(workers);
    if f < |workers| then |workers[f].value.sizes| else 0
  }

  /** No shorter run ends. */
  ghost predicate NoEndBefore(workers: Workers, r: nat, pageSize: nat, auto: bool, xs: seq<real>)
    requires pageSize > 0
  {
    forall n | 0 <= n < |xs| :: !DepthsEnd(workers, r, pageSize, auto, xs[..n])
  }

  lemma NoEndYet(workers: Workers, r: nat, pageSize: nat, auto: bool, xs: seq<real>, x: real)
    requires pageSize > 0 && NoEndBefore(workers, r, pageSize, auto, xs) && !DepthsEnd(workers, r, pageSize, auto, xs)
    ensures NoEndBefore(workers, r, pageSize, auto, xs + [x])
  {
    var ys := xs + [x];
    assert forall n | 0 <= n < |xs| :: ys[..n] == xs[..n];
    assert ys[..|xs|] == xs;
  }

  /** One test: some throughput is measured and recorded, and may end the depths. */
  method Test(window: array<real>, d: nat, auto: bool, lo: real, hi: real, xs: seq<real>)
    returns (stop: bool, lo': real, hi': real, ys: seq<real>)
    requires d == |xs| && Window(window[..], xs) && (xs != [] ==> Between(xs, lo, hi))
    modifies window
    ensures Window(window[..], ys) && |ys| == d + 1 && ys[..d] == xs
    ensures Between(ys, lo', hi') && (stop <==> auto && Flat(ys))
  {
    var throughput: real := *;
    WindowStep(window[..], xs, throughput);
    window[d % MIN_TESTS] := throughput;
    ExtremesGrow(xs, throughput, lo, hi);
    ys := xs + [throughput];
    stop, lo', hi' := false, lo, hi;
    if d == 0 {
      lo', hi' := throughput, throughput;
    } else {
      if throughput < lo {
        lo' := throughput;
      }
      if throughput > hi {
        hi' := throughput;
      }
    }
    if d >= MIN_TESTS {
      var average := Average(window, ys);
      if throughput <= average {
        stop := stop || auto;
      }
    }
  }

  /** What holds after d depths of one size. */
  ghost predicate SweepingDepths(workers: Workers, r: nat, pageSize: nat, auto: bool, d: nat,
                                 stop: bool, stopSizes: bool, lo: real, hi: real, xs: seq<real>)
    requires pageSize > 0
  {
    && (stopSizes ==> !HasSize(workers, r)) && (d > 0 && r >= SizeBound(workers) ==> stopSizes)
    && (stop ==> d > 0) && (stop || d <= DepthBound(workers))
    && (stop || stopSizes || |xs| == d) && (xs != [] ==> Between(xs, lo, hi))
    && (if stop || stopSizes then DepthsEnd(workers, r, pageSize, auto, xs) else !(auto && Flat(xs)))
    && NoEndBefore(workers, r, pageSize, auto, xs)
  }

  /** One turn of the loop over depths: the checks and, if they let it start, the test. */
  method NextDepth(workers: Workers, r: nat, pageSize: nat, auto: bool, d: nat, window: array<real>,
                   stopSizes: bool, lo: real, hi: real, xs: seq<real>)
    returns (stop: bool, stopSizes': bool, lo': real, hi': real, xs': seq<real>)
    requires pageSize > 0 && DepthsArePositive(workers) && Window(window[..], xs)
    requires SweepingDepths(workers, r, pageSize, auto, d, false, stopSizes, lo, hi, xs)
    modifies window
    ensures SweepingDepths(workers, r, pageSize, auto, d + 1, stop, stopSizes', lo', hi', xs')
    ensures Window(window[..], xs') && (stop || d < DepthBound(workers))
  {
    lo', hi', xs' := lo, hi, xs;
    stop, stopSizes' := Check(workers, r, d, pageSize, stopSizes);
    if !stop && !stopSizes' {
      stop, lo', hi', xs' := Test(window, d, auto, lo, hi, xs);
      NoEndYet(workers, r, pageSize, auto, xs, xs'[d]);
      assert xs' == xs + [xs'[d]];
    }
  }

  /** All depths for one size; without any test the extremes stay unset. */
  method SweepDepths(workers: Workers, r: nat, pageSize: nat, auto: bool)
    returns (stopSizes: bool, lo: real, hi: real, xs: seq<real>)
    requires pageSize > 0 && DepthsArePositive(workers)
    ensures DepthsRun(workers, r, pageSize, auto, xs)
    ensures xs != [] ==> Between(xs, lo, hi)
    ensures stopSizes ==> !HasSize(workers, r)
    ensures r >= SizeBound(workers) ==> stopSizes
  {
    var window := new real[MIN_TESTS](_ => 0.0);
    stopSizes, xs := false, [];
    lo, hi := *, *;
    var stop, d := false, 0;
    while !stop
      invariant SweepingDepths(workers, r, pageSize, auto, d, stop, stopSizes, lo, hi, xs)
      invariant Window(window[..], xs)
      decreases DepthBound(workers) - d + if stop then 0 else 1
    {
      stop, stopSizes, lo, hi, xs := NextDepth(workers, r, pageSize, auto, d, window, stopSizes, lo, hi, xs);
      d := d + 1;
    }
  }

  lemma ExtremesGrow(xs: seq<real>, x: real, lo: real, hi: real)
    requires xs != [] ==> Between(xs, lo, hi)
    ensures xs == [] ==> Between(xs + [x], x, x)
    ensures xs != [] ==> Between(xs + [x], if x < lo then x else lo, if x > hi then x else hi)
  {
    var ys := xs + [x];
    assert ys[|xs|] == x;
    if xs != [] {
      var i :| 0 <= i < |xs| && xs[i] == lo;
      var j :| 0 <= j < |xs| && xs[j] == hi;
      assert ys[i] == lo && ys[j] == hi;
    }
  }

  /** A sweep: the throughputs of each size and their extremes. */
  datatype Sweep = Sweep(runs: seq<seq<real>>, lows: seq<real>, highs: seq<real>)

  /** The extremes of the sizes so far ask for an end. */
  ghost predicate SizesFlat(auto: bool, s: Sweep, n: nat)
    requires n <= |s.lows| && n <= |s.highs|
  {
    auto && Flat(s.lows[..n]) && Flat(s.highs[..n])
  }

  /** What a sweep is while it goes on: one run per size, none of them after an end. */
  ghost predicate Sweeping(workers: Workers, pageSize: nat, autoDepth: bool, autoSize: bool, s: Sweep)
    requires pageSize > 0
  {
    && |s.lows| == |s.highs| == |s.runs|
    && (forall r | 0 <= r < |s.runs| :: DepthsRun(workers, r, pageSize, autoDepth, s.runs[r]))
    && (forall r | 0 <= r < |s.runs| && s.runs[r] != [] :: Between(s.runs[r], s.lows[r], s.highs[r]))
    && (forall n | 0 < n < |s.runs| :: !SizesFlat(autoSize, s, n))
  }

  /** A sweep that is over: the workers ran out of sizes, or the throughputs have stopped growing. */
  ghost predicate Swept(workers: Workers, pageSize: nat, autoDepth: bool, autoSize: bool, s: Sweep)
    requires pageSize > 0
  {
    && Sweeping(workers, pageSize, autoDepth, autoSize, s) && |s.runs| > 0
    && (!HasSize(workers, |s.runs| - 1) || SizesFlat(autoSize, s, |s.runs|))
  }

  function Extended(s: Sweep, xs: seq<real>, lo: real, hi: real): Sweep {
    Sweep(s.runs + [xs], s.lows + [lo], s.highs + [hi])
  }

  lemma SweepingStep(workers: Workers, pageSize: nat, autoDepth: bool, autoSize: bool, s: Sweep,
                     xs: seq<real>, lo: real, hi: real)
    requires pageSize > 0 && Sweeping(workers, pageSize, autoDepth, autoSize, s)
    requires s.runs == [] || !SizesFlat(autoSize, s, |s.runs|)
    requires DepthsRun(workers, |s.runs|, pageSize, autoDepth, xs) && (xs != [] ==> Between(xs, lo, hi))
    ensures Sweeping(workers, pageSize, autoDepth, autoSize, Extended(s, xs, lo, hi))
  {
    var t := Extended(s, xs, lo, hi);
    forall n | 0 < n < |t.runs|
      ensures !SizesFlat(autoSize, t, n)
    {
      assert t.lows[..n] == s.lows[..n] && t.highs[..n] == s.highs[..n];
      assert SizesFlat(autoSize, t, n) == SizesFlat(autoSize, s, n);
    }
  }

  /** The decision after a size. */
  method SizeTested(lows: array<real>, highs: array<real>, r: nat, auto: bool, lo: real, hi: real, ghost s: Sweep)
    returns (stop: bool)
    requires lows != highs && |s.lows| == |s.highs| == r && Window(lows[..], s.lows) && Window(highs[..], s.highs)
    modifies lows, highs
    ensures Window(lows[..], s.lows + [lo]) && Window(highs[..], s.highs + [hi])
    ensures stop <==> auto && Flat(s.lows + [lo]) && Flat(s.highs + [hi])
  {
    WindowStep(lows[..], s.lows, lo);
    WindowStep(highs[..], s.highs, hi);
    lows[r % MIN_TESTS] := lo;
    highs[r % MIN_TESTS] := hi;
    stop := false;
    if r >= MIN_TESTS {
      var averageLow := Average(lows, s.lows + [lo]);
      var averageHigh := Average(highs, s.highs + [hi]);
      if lo <= averageLow && hi <= averageHigh {
        stop := stop || auto;
      }
    }
  }

  /** What holds after r sizes. */
  ghost predicate SweepingSizes(workers: Workers, pageSize: nat, autoDepth: bool, autoSize: bool, r: nat,
                                stop: bool, s: Sweep)
    requires pageSize > 0
  {
    && Sweeping(workers, pageSize, autoDepth, autoSize, s) && |s.runs| == r
    && (stop ==> r > 0 && (!HasSize(workers, r - 1) || SizesFlat(autoSize, s, r)))
    && (!stop ==> r <= SizeBound(workers) && (r > 0 ==> !SizesFlat(autoSize, s, r)))
  }

  lemma SizesStep(workers: Workers, pageSize: nat, autoDepth: bool, autoSize: bool, r: nat, s: Sweep,
                  xs: seq<real>, lo: real, hi: real, ended: bool, flat: bool)
    requires pageSize > 0 && SweepingSizes(workers, pageSize, autoDepth, autoSize, r, false, s)
    requires DepthsRun(workers, r, pageSize, autoDepth, xs) && (xs != [] ==> Between(xs, lo, hi))
    requires (ended ==> !HasSize(workers, r)) && (r >= SizeBound(workers) ==> ended)
    requires flat <==> autoSize && Flat(s.lows + [lo]) && Flat(s.highs + [hi])
    ensures SweepingSizes(workers, pageSize, autoDepth, autoSize, r + 1, ended || flat, Extended(s, xs, lo, hi))
  {
    SweepingStep(workers, pageSize, autoDepth, autoSize, s, xs, lo, hi);
    var t := Extended(s, xs, lo, hi);
    assert t.lows[..r + 1] == s.lows + [lo] && t.highs[..r + 1] == s.highs + [hi];
  }

  /** One turn of the loop over sizes: all its depths and the decision. */
  method NextSize(workers: Workers, pageSize: nat, autoDepth: bool, autoSize: bool, r: nat,
                  lows: array<real>, highs: array<real>, s: Sweep)
    returns (stop: bool, t: Sweep)
    requires pageSize > 0 && DepthsArePositive(workers)
    requires SweepingSizes(workers, pageSize, autoDepth, autoSize, r, false, s)
    requires lows != highs && Window(lows[..], s.lows) && Window(highs[..], s.highs)
    modifies lows, highs
    ensures SweepingSizes(workers, pageSize, autoDepth, autoSize, r + 1, stop, t)
    ensures Window(lows[..], t.lows) && Window(highs[..], t.highs)
  {
    var ended, lo, hi, xs := SweepDepths(workers, r, pageSize, autoDepth);
    var flat := SizeTested(lows, highs, r, autoSize, lo, hi, s);
    SizesStep(workers, pageSize, autoDepth, autoSize, r, s, xs, lo, hi, ended, flat);
    stop, t := ended || flat, Extended(s, xs, lo, hi);
  }

  lemma SweepStarts(workers: Workers, pageSize: nat, autoDepth: bool, autoSize: bool, s: Sweep)
    requires pageSize > 0 && s == Sweep([], [], [])
    ensures SweepingSizes(workers, pageSize, autoDepth, autoSize, 0, false, s)
  {
  }

  lemma SweepEnds(workers: Workers, pageSize: nat, autoDepth: bool, autoSize: bool, r: nat, s: Sweep)
    requires pageSize > 0 && SweepingSizes(workers, pageSize, autoDepth, autoSize, r, true, s)
    ensures Swept(workers, pageSize, autoDepth, autoSize, s)
  {
  }

  /** The whole sweep ends, whatever is measured. */
  method RunTests(workers: Workers, pageSize: nat, autoDepth: bool, autoSize: bool) returns (s: Sweep)
    requires pageSize > 0 && DepthsArePositive(workers)
    ensures Swept(workers, pageSize, autoDepth, autoSize, s)
  {
    var lows, highs := new real[MIN_TESTS](_ => 0.0), new real[MIN_TESTS](_ => 0.0);
    s := Sweep([], [], []);
    var stop, r := false, 0;
    SweepStarts(workers, pageSize, autoDepth, autoSize, s);
    while !stop
      invariant SweepingSizes(workers, pageSize, autoDepth, autoSize, r, stop, s)
      invariant Window(lows[..], s.lows) && Window(highs[..], s.highs)
      decreases !stop, SizeBound(workers) - r
    {
      stop, s := NextSize(workers, pageSize, autoDepth, autoSize, r, lows, highs, s);
      r := r + 1;
    }
    SweepEnds(workers, pageSize, autoDepth, autoSize, r, s);
  }

  /** Every test that is started has its indices in range for every active worker, and its
      requests fit into the share of the buffer that its queue will give each slot. */
  lemma TestsAreRunnable(workers: Workers, pageSize: nat, autoDepth: bool, autoSize: bool, s: Sweep, r: nat, d: nat)
    requires pageSize > 0 && Sweeping(workers, pageSize, autoDepth, autoSize, s)
    requires r < |s.runs| && d < |s.runs[r]|
    ensures Runnable(workers, r, d, pageSize)
  {
    assert !DepthsEnd(workers, r, pageSize, autoDepth, s.runs[r][..d]);
  }

  lemma SizesRunOut(workers: Workers, r: nat, q: nat)
    requires !HasSize(workers, r) && r <= q
    ensures !HasSize(workers, q)
  {
  }

  /** Without automatic ends the tests are exactly these: for each size all depths from the first,
      as long as every active worker can take part. */
  lemma TestsAreAll(workers: Workers, pageSize: nat, s: Sweep, r: nat, d: nat)
    requires pageSize > 0 && Swept(workers, pageSize, false, false, s)
    ensures r < |s.runs| && d < |s.runs[r]| <==> forall e | 0 <= e <= d :: Runnable(workers, r, e, pageSize)
  {
    if r < |s.runs| && d < |s.runs[r]| {
      forall e | 0 <= e <= d
        ensures Runnable(workers, r, e, pageSize)
      {
        TestsAreRunnable(workers, pageSize, false, false, s, r, e);
      }
    } else if r < |s.runs| {
      assert DepthsEnd(workers, r, pageSize, false, s.runs[r]);
    } else {
      SizesRunOut(workers, |s.runs| - 1, r);
      if Runnable(workers, r, 0, pageSize) {
        assert forall w | 0 <= w < |workers| && workers[w].Some? :: Ready(workers[w].value, r, 0, pageSize);
        assert HasSize(workers, r);
      }
    }
  }

  /* ---- What the automatic ends mean for throughputs ---- */

  /** The n-th figure is above the mean of the two before it. */
  predicate Rises(xs: seq<real>, n: nat)
    requires 2 <= n < |xs|
  {
    2.0 * xs[n] > xs[n - 1] + xs[n - 2]
  }

  /** With automatic depths the tests of one size go on exactly as long as the next depth can be
      run and, from the fourth on, the latest throughput is above the mean of the two before it. */
  lemma AutomaticDepths(workers: Workers, r: nat, pageSize: nat, xs: seq<real>)
    requires pageSize > 0
    ensures DepthsRun(workers, r, pageSize, true, xs) <==>
      && (forall d | 0 <= d < |xs| :: Runnable(workers, r, d, pageSize))
      && (forall n | 3 <= n < |xs| - 1 :: Rises(xs, n))
      && (Runnable(workers, r, |xs|, pageSize) ==> |xs| > 3 && !Rises(xs, |xs| - 1))
  {
    FlatMeans(xs);
    forall n | 0 <= n < |xs|
      ensures DepthsEnd(workers, r, pageSize, true, xs[..n]) <==>
        !Runnable(workers, r, n, pageSize) || (n > 3 && !Rises(xs, n - 1))
    {
      FlatMeans(xs[..n]);
    }
    if DepthsRun(workers, r, pageSize, true, xs) {
      forall n | 3 <= n < |xs| - 1
        ensures Rises(xs, n)
      {
        assert !DepthsEnd(workers, r, pageSize, true, xs[..n + 1]);
      }
    }
  }

  lemma FlatMeans(xs: seq<real>)
    ensures Flat(xs) <==> |xs| > 3 && !Rises(xs, |xs| - 1)
  {
  }

  lemma FlatPart(xs: seq<real>, n: nat)
    requires 3 <= n < |xs|
    ensures Flat(xs[..n + 1]) <==> !Rises(xs, n)
  {
    FlatMeans(xs[..n + 1]);
  }

  ghost predicate Growing(xs: seq<real>) {
    forall n | 0 < n < |xs| :: xs[n - 1] < xs[n]
  }

  ghost predicate NeverGrowing(xs: seq<real>) {
    forall n | 0 < n < |xs| :: xs[n] <= xs[n - 1]
  }

  /** While throughput grows with the depth, every depth that can be run is tested. */
  lemma GrowingDepths(workers: Workers, r: nat, pageSize: nat, auto: bool, xs: seq<real>, d: nat)
    requires pageSize > 0 && DepthsRun(workers, r, pageSize, auto, xs) && Growing(xs)
    ensures d < |xs| <==> forall e | 0 <= e <= d :: Runnable(workers, r, e, pageSize)
  {
    FlatMeans(xs);
    forall e | 0 <= e < |xs|
      ensures Runnable(workers, r, e, pageSize)
    {
      assert !DepthsEnd(workers, r, pageSize, auto, xs[..e]);
    }
  }

  /** If it never grows, the automatic end comes after the fourth depth. */
  lemma FlatDepths(workers: Workers, r: nat, pageSize: nat, xs: seq<real>)
    requires pageSize > 0 && DepthsRun(workers, r, pageSize, true, xs) && NeverGrowing(xs)
    ensures |xs| <= MIN_TESTS + 1
  {
    if |xs| > MIN_TESTS + 1 {
      assert !DepthsEnd(workers, r, pageSize, true, xs[..MIN_TESTS + 1]);
      FlatMeans(xs[..MIN_TESTS + 1]);
    }
  }

  /** While the lowest or the highest throughput grows with the size, every size is tested. */
  lemma GrowingSizes(workers: Workers, pageSize: nat, autoDepth: bool, autoSize: bool, s: Sweep)
    requires pageSize > 0 && Swept(workers, pageSize, autoDepth, autoSize, s)
    requires Growing(s.lows) || Growing(s.highs)
    ensures !HasSize(workers, |s.runs| - 1)
  {
    assert s.lows[..|s.runs|] == s.lows && s.highs[..|s.runs|] == s.highs;
    FlatMeans(s.lows);
    FlatMeans(s.highs);
  }

  /** If neither ever grows, the automatic end comes after the fourth size. */
  lemma FlatSizes(workers: Workers, pageSize: nat, autoDepth: bool, s: Sweep)
    requires pageSize > 0 && Swept(workers, pageSize, autoDepth, true, s)
    requires NeverGrowing(s.lows) && NeverGrowing(s.highs)
    ensures |s.runs| <= MIN_TESTS + 1
  {
    if |s.runs| > MIN_TESTS + 1 {
      assert !SizesFlat(true, s, MIN_TESTS + 1);
      FlatMeans(s.lows[..MIN_TESTS + 1]);
      FlatMeans(s.highs[..MIN_TESTS + 1]);
    }
  }

  /** With automatic sizes the sweep goes on exactly as long as there is a size and, from the
      fourth on, the lowest or the highest throughput is above the mean of the two before it. */
  lemma AutomaticSizes(workers: Workers, pageSize: nat, autoDepth: bool, s: Sweep)
    requires pageSize > 0 && Swept(workers, pageSize, autoDepth, true, s)
    ensures forall n | 3 <= n < |s.runs| - 1 :: Rises(s.lows, n) || Rises(s.highs, n)
    ensures HasSize(workers, |s.runs| - 1) ==>
      |s.runs| > 3 && !Rises(s.lows, |s.runs| - 1) && !Rises(s.highs, |s.runs| - 1)
  {
    hide Flat, Rises, DepthsRun, Between;
    forall n | 3 <= n < |s.runs| - 1
      ensures Rises(s.lows, n) || Rises(s.highs, n)
    {
      assert !SizesFlat(true, s, n + 1);
      FlatPart(s.lows, n);
      FlatPart(s.highs, n);
    }
    assert s.lows[..|s.runs|] == s.lows && s.highs[..|s.runs|] == s.highs;
    FlatMeans(s.lows);
    FlatMeans(s.highs);
  }
}
