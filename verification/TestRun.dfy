/** A test: the worker thread from the creation of its queue to the end of the run. */
module TestRun {
  import opened Arithmetic
  import opened Xorshift
  import opened Buffers
  import opened Pattern
  import opened Protocol
  import opened Integrity
  import opened Worker
  import opened Generator
  import Accounting
  import Alarms
  import Latency
  import Limits
  import MixedAlarms
  import Queue
  import SeededRuns
  import WorkerLoop

  /** A file and a workload that fit together, with a buffer that holds the workload's requests. */
  ghost predicate Testable(worker: IoWorker, gen: RequestGenerator, depth: nat, pageSize: nat)
    reads worker, gen.Objects(), gen.Arrays()
  {
    && MediumOk(worker.AsMedium()) && !worker.alarm && worker.filesize == SECTOR * |worker.disk|
    && gen.Valid(worker) && gen.Issued() == []
    && depth > 0 && pageSize > 0 && pageSize % SECTOR == 0
    && WORD_BYTES * worker.buf.Length / depth >= pageSize
    && gen.MaxIoSize() <= Share(WORD_BYTES * worker.buf.Length, depth, pageSize)
  }

  lemma AnyRun(total: nat, limit: nat, now: nat, m: Medium, es: seq<Event>, t: State, size: nat)
    requires MediumOk(m) && Outcome(Start(total, limit, now, m), es) == Some(t)
    requires Limits.AtMost(t.log, size)
    ensures MediumOk(t.medium) && t.submitted <= limit + size
    ensures t.flights == map[] ==> t.submitted == t.readTally.bytes + t.writeTally.bytes
  {
    SoundStart(total, limit, now, m);
    SoundAlways(Start(total, limit, now, m), es, t);
    Limits.OverrunBounded(Start(total, limit, now, m), es, t, size);
    Accounting.WorkIsConserved(total, limit, now, m, es, t);
  }

  /** All requests are of one size and in one direction. */
  predicate Uniform(log: seq<Request>, size: nat, write: bool) {
    forall n | 0 <= n < |log| :: log[n].size == size && log[n].write == write
  }

  lemma UniformRun(total: nat, limit: nat, now: nat, m: Medium, es: seq<Event>, t: State, size: nat, write: bool)
    requires MediumOk(m) && !m.alarm && Outcome(Start(total, limit, now, m), es) == Some(t)
    requires Uniform(t.log, size, write)
    ensures !t.medium.alarm && (total * size <= limit ==> t.submitted <= limit)
    ensures t.submitted == |t.log| * size && t.limit == limit
  {
    Alarms.NoFalseAlarm(total, limit, now, m, es, t);
    SoundStart(total, limit, now, m);
    Limits.FreshStart(total, limit, now, m, size);
    Limits.FreshAlways(Start(total, limit, now, m), es, t, size);
    SoundAlways(Start(total, limit, now, m), es, t);
  }

  /** The loop has made a request in every turn, unless an alarm or the limit ended it. */
  ghost predicate Kept(t: State, turns: nat, size: nat) {
    && |t.log| <= turns && (t.open && !t.medium.alarm ==> |t.log| == turns)
    && (!t.open ==> |t.log| < turns && t.submitted + size > t.limit)
  }

  lemma CountBelow(n: nat, limit: nat, size: nat, q: nat)
    requires size > 0 && q == limit / size
    ensures n * size <= limit <==> n <= q
    ensures n * size + size > limit <==> q <= n
  {
    QuotientIs(limit, size, q);
    assert n * size + size == (n + 1) * size;
    if n <= q {
      TimesMonotone(n, q, size);
    } else {
      TimesMonotone(q + 1, n, size);
    }
    if q <= n {
      TimesMonotone(q + 1, n + 1, size);
    } else {
      TimesMonotone(n + 1, q, size);
    }
  }

  /** How many requests of one size a test makes: one a turn, up to as many as the limit holds; with
      a full queue inside the limit exactly as many. */
  predicate MadeInTurns(n: nat, turns: nat, total: nat, limit: nat, size: nat) {
    size > 0 ==>
      && Min(turns, limit / size) <= n <= turns
      && (total * size <= limit ==> n == Min(turns, limit / size))
  }

  lemma CountInTurns(n: nat, turns: nat, total: nat, limit: nat, size: nat, submitted: nat)
    requires n <= turns && submitted == n * size && (n < turns ==> submitted + size > limit)
    requires total * size <= limit ==> submitted <= limit
    ensures MadeInTurns(n, turns, total, limit, size)
  {
    if size > 0 {
      CountBelow(n, limit, size, limit / size);
    }
  }

  lemma UniformCount(total: nat, limit: nat, now: nat, m: Medium, es: seq<Event>, t: State, size: nat, write: bool,
                     turns: nat)
    requires MediumOk(m) && !m.alarm && Outcome(Start(total, limit, now, m), es) == Some(t)
    requires Uniform(t.log, size, write) && Kept(t, turns, size)
    ensures MadeInTurns(|t.log|, turns, total, limit, size)
  {
    hide MadeInTurns;
    UniformRun(total, limit, now, m, es, t, size, write);
    CountInTurns(|t.log|, turns, total, limit, size, t.submitted);
  }

  /** No run of this workload on a file like this can raise an alarm. */
  ghost predicate Harmless(gen: RequestGenerator, total: nat, m: Medium)
    requires gen.Suits(SECTOR * |m.disk|)
  {
    !gen.OfMixed? || total <= 1 || MixedAlarms.OutOfReach(gen.mixed.lo, m)
  }

  /** The mixed workload on this seed cannot. */
  ghost predicate HarmlessSeed(gen: RequestGenerator, total: nat, seed: Word, m: Medium)
    requires gen.Suits(SECTOR * |m.disk|)
  {
    gen.OfMixed? && SeededRuns.SeededNeverAlarms(total, gen.mixed.lo, seed, m)
  }

  lemma HarmlessSeedIsQuiet(gen: RequestGenerator, total: nat, seed: Word, limit: nat, now: nat, m: Medium,
                            es: seq<Event>, t: State, current: Word)
    requires Outcome(Start(total, limit, now, m), es) == Some(t) && gen.Suits(SECTOR * |m.disk|)
    requires gen.OnSeed(SECTOR * |m.disk|, m.random, seed, t.log, current) && HarmlessSeed(gen, total, seed, m)
    ensures !t.medium.alarm
  {
    assert Outcome(Start(total, limit, now, m), es).Some?;
  }

  /** In particular on a file that is intact from end to end. */
  lemma IntactIsHarmless(gen: RequestGenerator, total: nat, m: Medium)
    requires gen.Suits(SECTOR * |m.disk|) && GoodBelow(m, |m.disk|)
    ensures Harmless(gen, total, m)
  {
  }

  lemma UniformKeeps(total: nat, limit: nat, now: nat, m: Medium, es: seq<Event>, t: State, size: nat, write: bool)
    requires MediumOk(m) && !m.alarm && Outcome(Start(total, limit, now, m), es) == Some(t)
    requires Uniform(t.log, size, write)
    ensures MediumOk(t.medium) && t.submitted <= limit + size && !t.medium.alarm
    ensures t.flights == map[] ==> t.submitted == t.readTally.bytes + t.writeTally.bytes
    ensures total * size <= limit ==> t.submitted <= limit
  {
    AnyRun(total, limit, now, m, es, t, size);
    UniformRun(total, limit, now, m, es, t, size, write);
  }

  lemma AsksUniform(gen: RequestGenerator, sectors: nat, log: seq<Request>) returns (write: bool)
    requires !gen.OfMixed? && gen.Suits(SECTOR * sectors) && gen.Asks(SECTOR * sectors, log)
    ensures Uniform(log, gen.MaxIoSize(), write)
  {
    gen.AskedSizes(sectors, log);
    write := if gen.OfSequential? then gen.sequential.write else gen.random.write;
  }

  lemma HarmlessIsQuiet(gen: RequestGenerator, total: nat, limit: nat, now: nat, m: Medium, es: seq<Event>, t: State)
    requires MediumOk(m) && !m.alarm && Outcome(Start(total, limit, now, m), es) == Some(t)
    requires gen.OfMixed? && gen.Suits(SECTOR * |m.disk|) && gen.Asks(SECTOR * |m.disk|, t.log)
    requires Harmless(gen, total, m)
    ensures !t.medium.alarm
  {
    MixedAlarms.MixedQuiet(total, gen.mixed.lo, limit, now, m, es, t);
  }

  lemma MixedKeeps(gen: RequestGenerator, total: nat, limit: nat, now: nat, m: Medium, es: seq<Event>, t: State)
    requires MediumOk(m) && !m.alarm && Outcome(Start(total, limit, now, m), es) == Some(t)
    requires gen.OfMixed? && gen.Suits(SECTOR * |m.disk|) && gen.Asks(SECTOR * |m.disk|, t.log)
    ensures MediumOk(t.medium) && t.submitted <= limit + gen.MaxIoSize()
    ensures t.flights == map[] ==> t.submitted == t.readTally.bytes + t.writeTally.bytes
    ensures Harmless(gen, total, m) ==> !t.medium.alarm
  {
    if Harmless(gen, total, m) {
      HarmlessIsQuiet(gen, total, limit, now, m, es, t);
    }
    gen.AskedSizes(|m.disk|, t.log);
    AnyRun(total, limit, now, m, es, t, gen.MaxIoSize());
  }

  /** What every test keeps, on any schedule. */
  lemma TestKeeps(gen: RequestGenerator, total: nat, limit: nat, now: nat, m: Medium, es: seq<Event>, t: State)
    requires MediumOk(m) && !m.alarm && Outcome(Start(total, limit, now, m), es) == Some(t)
    requires gen.Suits(SECTOR * |m.disk|) && gen.Asks(SECTOR * |m.disk|, t.log)
    ensures MediumOk(t.medium) && t.submitted <= limit + gen.MaxIoSize()
    ensures t.flights == map[] ==> t.submitted == t.readTally.bytes + t.writeTally.bytes
    ensures Harmless(gen, total, m) ==> !t.medium.alarm
    ensures !gen.OfMixed? && total * gen.MaxIoSize() <= limit ==> t.submitted <= limit
  {
    if gen.OfMixed? {
      MixedKeeps(gen, total, limit, now, m, es, t);
    } else {
      var write := AsksUniform(gen, |m.disk|, t.log);
      UniformKeeps(total, limit, now, m, es, t, gen.MaxIoSize(), write);
    }
  }

  lemma TestCounts(gen: RequestGenerator, total: nat, limit: nat, now: nat, m: Medium, es: seq<Event>, t: State,
                   turns: nat)
    requires MediumOk(m) && !m.alarm && Outcome(Start(total, limit, now, m), es) == Some(t)
    requires !gen.OfMixed? && gen.Suits(SECTOR * |m.disk|) && gen.Asks(SECTOR * |m.disk|, t.log)
    requires Kept(t, turns, gen.MaxIoSize())
    ensures MadeInTurns(|t.log|, turns, total, limit, gen.MaxIoSize())
  {
    var write := AsksUniform(gen, |m.disk|, t.log);
    UniformCount(total, limit, now, m, es, t, gen.MaxIoSize(), write, turns);
  }

  /** Creates the queue and runs the worker for any number of turns. */
  method RunQueue(worker: IoWorker, gen: RequestGenerator, depth: nat, pageSize: nat, now: nat, turns: nat)
    returns (queue: Queue.AsyncQueue, ghost es: seq<Event>, ghost t: State)
    requires Testable(worker, gen, depth, pageSize)
    modifies worker`seed, worker`watermark, worker`disk, worker`alarm, worker.buf, gen.Objects()
    ensures t == queue.Abs() && queue.worker == worker && Kept(t, turns, gen.MaxIoSize())
    ensures gen.Suits(worker.filesize)
    ensures gen.OnSeed(worker.filesize, worker.random, old(worker.seed), queue.log, worker.seed)
    ensures Outcome(Start(depth, worker.iolimit, now, old(worker.AsMedium())), es) == Some(t)
    ensures gen.Valid(worker) && gen.Suits(worker.filesize) && gen.Asks(worker.filesize, queue.log)
    ensures worker.alarm || queue.flights == map[]
  {
    hide RequestGenerator.OnSeed;
    queue := new Queue.AsyncQueue(worker, depth, pageSize, now);
    gen.FreshOnSeed(worker, worker.seed);
    es := WorkerLoop.RunWorker(queue, gen, turns);
    t := queue.Abs();
    gen.IssuedAsAsked(worker);
  }

  /** A whole test, with what holds after it. */
  method RunTest(worker: IoWorker, gen: RequestGenerator, depth: nat, pageSize: nat, now: nat, turns: nat)
    returns (queue: Queue.AsyncQueue, ghost es: seq<Event>)
    requires Testable(worker, gen, depth, pageSize)
    modifies worker`seed, worker`watermark, worker`disk, worker`alarm, worker.buf, gen.Objects()
    ensures Outcome(Start(depth, worker.iolimit, now, old(worker.AsMedium())), es) == Some(queue.Abs())
    ensures queue.worker == worker && gen.Valid(worker)
    ensures gen.Suits(worker.filesize) && gen.Asks(worker.filesize, queue.log)
    ensures MediumOk(worker.AsMedium()) && queue.submitted <= worker.iolimit + gen.MaxIoSize()
    ensures worker.alarm
      || (queue.flights == map[] && queue.submitted == queue.readTally.bytes + queue.writeTally.bytes)
    ensures old(Harmless(gen, depth, worker.AsMedium())) ==> !worker.alarm
    ensures old(GoodBelow(worker.AsMedium(), |worker.disk|)) ==> !worker.alarm
    ensures old(HarmlessSeed(gen, depth, worker.seed, worker.AsMedium())) ==> !worker.alarm
    ensures !gen.OfMixed? && depth * gen.MaxIoSize() <= worker.iolimit ==> queue.submitted <= worker.iolimit
    ensures var marks := Latency.Marks(Start(depth, worker.iolimit, now, old(worker.AsMedium())), es);
      && Latency.Measures(queue.readTally, Latency.Latencies(marks, false))
      && Latency.Measures(queue.writeTally, Latency.Latencies(marks, true))
    ensures gen.OnSeed(worker.filesize, worker.random, old(worker.seed), queue.log, worker.seed)
    ensures Kept(queue.Abs(), turns, gen.MaxIoSize())
    ensures !gen.OfMixed? ==> MadeInTurns(|queue.log|, turns, depth, worker.iolimit, gen.MaxIoSize())
  {
    hide RequestGenerator.OnSeed;
    ghost var m, seed := worker.AsMedium(), worker.seed;
    ghost var t;
    queue, es, t := RunQueue(worker, gen, depth, pageSize, now, turns);
    TestKeeps(gen, depth, worker.iolimit, now, m, es, t);
    Latency.LatencyIsMeasured(depth, worker.iolimit, now, m, es, t);
    if GoodBelow(m, |m.disk|) {
      IntactIsHarmless(gen, depth, m);
    }
    if HarmlessSeed(gen, depth, seed, m) {
      HarmlessSeedIsQuiet(gen, depth, seed, worker.iolimit, now, m, es, t, worker.seed);
    }
    if !gen.OfMixed? {
      TestCounts(gen, depth, worker.iolimit, now, m, es, t, turns);
    }
  }
}
