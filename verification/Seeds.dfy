/** What a worker's seed makes of its workload. Random and mixed workloads draw once a request, and
    the buffer of a write with random data is filled from the same seed. */
module Seeds {
  import opened Xorshift
  import opened Protocol
  import opened Buffers
  import opened Weights
  import opened RandomGenerator
  import opened MixedGenerator

  /** The seed after these requests, with a draw before each of them or without. */
  function SeedAlong(draws: bool, random: bool, seed: Word, log: seq<Request>): Word {
    if log == [] then seed
    else
      var x := SeedAlong(draws, random, seed, log[..|log| - 1]);
      SeedAfter(random, if draws then Step(x) else x, log[|log| - 1])
  }

  lemma SeedAlongSnoc(draws: bool, random: bool, seed: Word, log: seq<Request>, r: Request)
    ensures SeedAlong(draws, random, seed, log + [r])
      == SeedAfter(random, var x := SeedAlong(draws, random, seed, log); if draws then Step(x) else x, r)
  {
    assert (log + [r])[..|log + [r]| - 1] == log;
  }

  /** Each request is the one that the next draw of the seed chooses. */
  ghost predicate IsRandomOnSeed(write: bool, size: nat, f: nat, random: bool, seed: Word, log: seq<Request>)
    requires 0 < size <= f
  {
    forall n | 0 <= n < |log| ::
      log[n] == RandomRequest(write, size, f, Step(SeedAlong(true, random, seed, log[..n])) as nat)
  }

  /** These requests of a random workload, and the seed after them. */
  ghost predicate RandomAt(write: bool, size: nat, f: nat, random: bool, seed: Word, log: seq<Request>, current: Word)
    requires 0 < size <= f
  {
    IsRandomOnSeed(write, size, f, random, seed, log) && current == SeedAlong(true, random, seed, log)
  }

  /** After them the next draw makes this request. */
  ghost predicate RandomNext(write: bool, size: nat, f: nat, random: bool, seed: Word, log: seq<Request>,
                             x: Word, r: Request, drawn: Word)
    requires 0 < size <= f
  {
    && RandomAt(write, size, f, random, seed, log, x) && drawn == Step(x)
    && r == RandomRequest(write, size, f, drawn as nat)
  }

  lemma RandomOneMore(write: bool, size: nat, f: nat, random: bool, seed: Word, log: seq<Request>,
                      x: Word, r: Request, drawn: Word)
    requires 0 < size <= f && RandomNext(write, size, f, random, seed, log, x, r, drawn)
    ensures RandomAt(write, size, f, random, seed, log + [r], SeedAfter(random, drawn, r))
  {
    SeedAlongSnoc(true, random, seed, log, r);
    forall n | 0 <= n < |log + [r]|
      ensures (log + [r])[n]
        == RandomRequest(write, size, f, Step(SeedAlong(true, random, seed, (log + [r])[..n])) as nat)
    {
      assert (log + [r])[..n] == log[..n];
      if n == |log| {
        assert log[..n] == log;
      }
    }
  }

  /** The draws of the first n requests of the mixed workload, and the seed after them. Each draw is
      the next seed; a write fills its buffer before the next request is made. */
  function SeededDraws(lo: nat, f: nat, random: bool, seed: Word, n: nat): (seq<nat>, Word)
    requires lo < SIZES && MAX_IO_SIZE <= f
  {
    if n == 0 then ([], seed)
    else
      var (draws, x) := SeededDraws(lo, f, random, seed, n - 1);
      var d := Step(x);
      (draws + [d as nat], SeedAfter(random, d, MixedRequest(MixedRun(lo, f, draws).1, lo, f, d as nat).0))
  }

  /** The first requests of the mixed workload on this seed. */
  ghost predicate IsSeeded(lo: nat, f: nat, random: bool, seed: Word, log: seq<Request>)
    requires lo < SIZES && MAX_IO_SIZE <= f
  {
    log == MixedRun(lo, f, SeededDraws(lo, f, random, seed, |log|).0).0
  }

  lemma {:induction false} DrawsOfSeed(lo: nat, f: nat, random: bool, seed: Word, n: nat)
    requires lo < SIZES && MAX_IO_SIZE <= f
    ensures var draws := SeededDraws(lo, f, random, seed, n).0; |draws| == n && AreDraws(draws)
  {
    if n == 0 {
    } else {
      DrawsOfSeed(lo, f, random, seed, n - 1);
    }
  }

  /** What a seed makes, some sequence of draws makes. */
  lemma SeededIsMixed(lo: nat, f: nat, random: bool, seed: Word, log: seq<Request>)
    requires lo < SIZES && MAX_IO_SIZE <= f && IsSeeded(lo, f, random, seed, log)
    ensures IsMixed(lo, f, log)
  {
    DrawsOfSeed(lo, f, random, seed, |log|);
  }

  /** These requests of a mixed workload, the draws they were made of, and the seed after them. */
  ghost predicate MixedAt(lo: nat, f: nat, random: bool, seed: Word, log: seq<Request>, draws: seq<nat>, current: Word)
    requires lo < SIZES && MAX_IO_SIZE <= f
  {
    IsSeeded(lo, f, random, seed, log) && (draws, current) == SeededDraws(lo, f, random, seed, |log|)
  }

  /** After them the next draw makes this request. */
  ghost predicate MixedNext(lo: nat, f: nat, random: bool, seed: Word, log: seq<Request>, draws: seq<nat>, x: Word,
                            r: Request, drawn: Word)
    requires lo < SIZES && MAX_IO_SIZE <= f
  {
    && MixedAt(lo, f, random, seed, log, draws, x) && drawn == Step(x)
    && r == MixedRequest(MixedRun(lo, f, draws).1, lo, f, drawn as nat).0
  }

  lemma MixedOneMore(lo: nat, f: nat, random: bool, seed: Word, log: seq<Request>, draws: seq<nat>, x: Word,
                     r: Request, drawn: Word)
    requires lo < SIZES && MAX_IO_SIZE <= f && MixedNext(lo, f, random, seed, log, draws, x, r, drawn)
    ensures MixedAt(lo, f, random, seed, log + [r], draws + [drawn as nat], SeedAfter(random, drawn, r))
  {
    hide MixedRun, MixedRequest, Step;
    MixedRunSnoc(lo, f, draws, drawn as nat);
  }

  /** A request made of the walks as the run left them. */
  lemma MixedDrawn(lo: nat, f: nat, random: bool, seed: Word, log: seq<Request>, draws: seq<nat>, walks: Walks,
                   x: Word, r: Request, drawn: Word)
    requires lo < SIZES && MAX_IO_SIZE <= f && MixedAt(lo, f, random, seed, log, draws, x)
    requires (log, walks) == MixedRun(lo, f, draws) && drawn == Step(x)
    requires r == MixedRequest(walks, lo, f, drawn as nat).0
    ensures MixedNext(lo, f, random, seed, log, draws, x, r, drawn)
    ensures draws + [drawn as nat] == SeededDraws(lo, f, random, seed, |log| + 1).0
  {
  }

  /** For instance: random reads of 4 KB on 8 MB from the seed of a new worker begin with the blocks
      1456 and 1435. */
  lemma FirstRandomReads(random: bool, log: seq<Request>)
    requires |log| == 2 && IsRandomOnSeed(false, 4096, 8388608, random, FIRST_SEED, log)
    ensures log == [Request(4096 * 1456, 4096, false), Request(4096 * 1435, 4096, false)]
  {
    FirstDraws();
    assert log[..0] == [];
    assert log[..1][..0] == [] && log[..1] == [log[0]];
    assert SeedAlong(true, random, FIRST_SEED, []) == FIRST_SEED;
  }
}
