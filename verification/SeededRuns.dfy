/** The mixed workload as one worker makes it from one seed, where no draw is free any more. On a
    file of one block of the largest size the condition for a false alarm is exact for each seed. */
module SeededRuns {
  import opened Xorshift
  import opened Pattern
  import opened Protocol
  import opened Integrity
  import opened Weights
  import opened MixedGenerator
  import opened MixedAlarms
  import opened Seeds
  import opened OneBlock

  /** No run of the mixed workload on this seed raises an alarm. */
  ghost predicate SeededNeverAlarms(total: nat, lo: nat, seed: Word, m: Medium)
    requires lo < SIZES && MAX_IO_SIZE <= SECTOR * |m.disk|
  {
    forall limit: nat, now: nat, es: seq<Event> ::
      var t := Outcome(Start(total, limit, now, m), es);
      t.Some? && IsSeeded(lo, SECTOR * |m.disk|, m.random, seed, t.value.log) ==> !t.value.medium.alarm
  }

  /** Damage that is out of reach for all sequences of draws is out of reach for every seed. */
  lemma SeededQuiet(total: nat, lo: nat, seed: Word, m: Medium)
    requires MediumOk(m) && !m.alarm && lo < SIZES && MAX_IO_SIZE <= SECTOR * |m.disk|
    requires total <= 1 || OutOfReach(lo, m)
    ensures SeededNeverAlarms(total, lo, seed, m)
  {
    forall limit: nat, now: nat, es: seq<Event> |
      Outcome(Start(total, limit, now, m), es).Some?
      && IsSeeded(lo, SECTOR * |m.disk|, m.random, seed, Outcome(Start(total, limit, now, m), es).value.log)
      ensures !Outcome(Start(total, limit, now, m), es).value.medium.alarm
    {
      var t := Outcome(Start(total, limit, now, m), es).value;
      SeededIsMixed(lo, SECTOR * |m.disk|, m.random, seed, t.log);
      MixedQuiet(total, lo, limit, now, m, es, t);
    }
  }

  /* ---- A file of one block ---- */

  const LARGEST: nat := SIZES - 1

  lemma OneBlockRequest(w: Walks, draw: nat)
    requires WalksOk(w, MAX_IO_SIZE)
    ensures MixedRequest(w, LARGEST, MAX_IO_SIZE, draw).0 == Request(0, MAX_IO_SIZE, Choose(draw).write)
  {
    assert SizeAt(Pick(LARGEST, draw)) == MAX_IO_SIZE;
  }

  /** The seed before request n. */
  function SeedBefore(random: bool, seed: Word, n: nat): Word {
    if n == 0 then seed
    else
      var d := Step(SeedBefore(random, seed, n - 1));
      if Choose(d as nat).write then SeedAt(random, d, MAX_IO_SIZE / SECTOR) else d
  }

  /** Whether request n writes. */
  function Writes(random: bool, seed: Word): nat -> bool {
    (n: nat) => Choose(Step(SeedBefore(random, seed, n)) as nat).write
  }

  /** The next request of a seed, on its next draw d. */
  lemma NextOfSeed(random: bool, seed: Word, n: nat, draws: seq<nat>, x: Word, d: Word)
    requires SeededDraws(LARGEST, MAX_IO_SIZE, random, seed, n) == (draws, x) && d == Step(x)
    ensures var write := Choose(d as nat).write;
      && SeededDraws(LARGEST, MAX_IO_SIZE, random, seed, n + 1)
        == (draws + [d as nat], if write then SeedAt(random, d, MAX_IO_SIZE / SECTOR) else d)
      && MixedRun(LARGEST, MAX_IO_SIZE, draws + [d as nat]).0
        == MixedRun(LARGEST, MAX_IO_SIZE, draws).0 + [Request(0, MAX_IO_SIZE, write)]
  {
    MixedRunFits(LARGEST, MAX_IO_SIZE / SECTOR, draws);
    OneBlockRequest(MixedRun(LARGEST, MAX_IO_SIZE, draws).1, d as nat);
    MixedRunSnoc(LARGEST, MAX_IO_SIZE, draws, d as nat);
  }

  lemma OneMoreInOrder(rs: seq<Request>, m: Medium, writes: nat -> bool, r: Request)
    requires InOrder(rs, m, writes) && r == Block(m, writes(|rs|))
    ensures InOrder(rs + [r], m, writes)
  {
  }

  lemma NextSeedBefore(random: bool, seed: Word, n: nat, x: Word, d: Word, write: bool, next: Word)
    requires x == SeedBefore(random, seed, n) && d == Step(x) && write == Choose(d as nat).write
    requires next == if write then SeedAt(random, d, MAX_IO_SIZE / SECTOR) else d
    ensures next == SeedBefore(random, seed, n + 1) && Writes(random, seed)(n) == write
  {
  }

  /** x and rs are the seed and the requests after n requests of this seed. */
  ghost predicate AfterSeed(m: Medium, x: Word, rs: seq<Request>, before: Word, n: nat, writes: nat -> bool) {
    x == before && |rs| == n && InOrder(rs, m, writes)
  }

  lemma {:induction false} SeededOrder(m: Medium, seed: Word, n: nat, writes: nat -> bool)
    requires SECTOR * |m.disk| == MAX_IO_SIZE && writes == Writes(m.random, seed)
    ensures var (draws, x) := SeededDraws(LARGEST, MAX_IO_SIZE, m.random, seed, n);
      AfterSeed(m, x, MixedRun(LARGEST, MAX_IO_SIZE, draws).0, SeedBefore(m.random, seed, n), n, writes)
  {
    if n == 0 {
    } else {
      SeededOrder(m, seed, n - 1, writes);
      var (draws, x) := SeededDraws(LARGEST, MAX_IO_SIZE, m.random, seed, n - 1);
      SeededMore(m, seed, n - 1, writes, draws, x, Step(x), Choose(Step(x) as nat).write);
    }
  }

  lemma SeededMore(m: Medium, seed: Word, n: nat, writes: nat -> bool, draws: seq<nat>, x: Word, d: Word, write: bool)
    requires SECTOR * |m.disk| == MAX_IO_SIZE && writes == Writes(m.random, seed)
    requires SeededDraws(LARGEST, MAX_IO_SIZE, m.random, seed, n) == (draws, x)
    requires AfterSeed(m, x, MixedRun(LARGEST, MAX_IO_SIZE, draws).0, SeedBefore(m.random, seed, n), n, writes)
    requires d == Step(x) && write == Choose(d as nat).write
    ensures var (draws', x') := SeededDraws(LARGEST, MAX_IO_SIZE, m.random, seed, n + 1);
      AfterSeed(m, x', MixedRun(LARGEST, MAX_IO_SIZE, draws').0, SeedBefore(m.random, seed, n + 1), n + 1, writes)
  {
    NextOfSeed(m.random, seed, n, draws, x, d);
    NextSeedBefore(m.random, seed, n, x, d, write, SeededDraws(LARGEST, MAX_IO_SIZE, m.random, seed, n + 1).1);
    OneMoreInOrder(MixedRun(LARGEST, MAX_IO_SIZE, draws).0, m, writes, Block(m, write));
  }

  /** On such a file the runs of a seed are those with its reads and writes in their order. */
  lemma SeededIsInOrder(m: Medium, seed: Word, log: seq<Request>)
    requires SECTOR * |m.disk| == MAX_IO_SIZE
    ensures IsSeeded(LARGEST, MAX_IO_SIZE, m.random, seed, log) <==> InOrder(log, m, Writes(m.random, seed))
  {
    SeededOrder(m, seed, |log|, Writes(m.random, seed));
  }

  /** The condition for one seed: an alarm takes two slots, damage, a watermark still at the start,
      and a seed whose draws let a read and a write overlap. */
  lemma SeededQuietIff(total: nat, seed: Word, m: Medium)
    requires MediumOk(m) && !m.alarm && SECTOR * |m.disk| == MAX_IO_SIZE
    ensures SeededNeverAlarms(total, LARGEST, seed, m) <==>
      total <= 1 || GoodBelow(m, |m.disk|) || m.watermark > 0 || !Overlaps(total, Writes(m.random, seed))
  {
    OneBlockQuietIff(total, m, Writes(m.random, seed));
    forall limit: nat, now: nat, es: seq<Event> | Outcome(Start(total, limit, now, m), es).Some?
      ensures var log := Outcome(Start(total, limit, now, m), es).value.log;
        IsSeeded(LARGEST, MAX_IO_SIZE, m.random, seed, log) <==> InOrder(log, m, Writes(m.random, seed))
    {
      SeededIsInOrder(m, seed, Outcome(Start(total, limit, now, m), es).value.log);
    }
  }

  /** Two slots are enough if the first two requests of a seed differ in direction. */
  lemma FirstTwoOverlap(total: nat, seed: Word, m: Medium)
    requires MediumOk(m) && !m.alarm && SECTOR * |m.disk| == MAX_IO_SIZE
    requires total >= 2 && m.watermark == 0 && !GoodBelow(m, |m.disk|)
    requires Writes(m.random, seed)(0) != Writes(m.random, seed)(1)
    ensures !SeededNeverAlarms(total, LARGEST, seed, m)
  {
    assert TurnsAt(Writes(m.random, seed), 1);
    SeededQuietIff(total, seed, m);
  }

  lemma FirstChoices()
    ensures Choose(8748534153485358512).write && !Choose(3040900993826735515).write
  {
  }

  /** The program's own seed is one of them: with constant data, a mixed test that is the first to
      draw begins with a write and a read. */
  lemma FirstSeedAlarms(total: nat, m: Medium)
    requires MediumOk(m) && !m.alarm && SECTOR * |m.disk| == MAX_IO_SIZE && !m.random
    requires total >= 2 && m.watermark == 0 && !GoodBelow(m, |m.disk|)
    ensures !SeededNeverAlarms(total, LARGEST, FIRST_SEED, m)
  {
    FirstDraws();
    FirstChoices();
    assert SeedBefore(false, FIRST_SEED, 0) == FIRST_SEED;
    assert SeedBefore(false, FIRST_SEED, 1) == 8748534153485358512;
    FirstTwoOverlap(total, FIRST_SEED, m);
  }
}
