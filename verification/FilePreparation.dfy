/** How the program prepares the file of one worker. */
module FilePreparation {
  import opened Arithmetic
  import opened Buffers
  import opened Pattern
  import opened Protocol
  import opened Integrity
  import opened Preparation
  import opened Worker
  import opened Seeds
  import opened TestRun
  import Limits
  import Generator
  import Queue
  import SequentialGenerator

  const PREPARATION_DEPTH := 2

  /** What n writes leave of a file of f bytes: a file as long as what was written, intact as far
      as the first pass over it went. */
  ghost predicate Prepared(m: Medium, f: nat, n: nat, size: nat)
    requires size > 0
  {
    && FileSize(m) == n * size <= f + size
    && !m.alarm && MediumOk(m) && GoodBelow(m, PassEnd(f, size, n) / SECTOR)
  }

  /** The run of a worker on a fresh queue, seen as a run of the preparation. */
  lemma RunIsPreparation(size: nat, m: Medium, now: nat, es: seq<Event>, t: State, beyond: nat -> Sector)
    requires m.watermark == 0 && !m.alarm && size > 0 && size % SECTOR == 0 && size <= FileSize(m)
    requires Outcome(Start(PREPARATION_DEPTH, FileSize(m), now, m), es) == Some(t) && t.flights == map[]
    requires SequentialGenerator.IsSequential(true, size, FileSize(m), t.log)
    ensures var c := Cut(t.medium, t.writeTally.bytes, beyond);
      && FileSize(c) == t.writeTally.bytes && Prepared(c, FileSize(m), |t.log|, size)
      && (PREPARATION_DEPTH * size <= FileSize(m) ==> GoodBelow(c, |c.disk|))
  {
    assert Limits.Follows(t.log, Stream(m, size));
    assert Ends(PREPARATION_DEPTH, size, m, now, es, t);
    CutIsWritten(PREPARATION_DEPTH, size, m, now, es, t, beyond);
    CutIsSound(PREPARATION_DEPTH, size, m, now, es, t, beyond);
  }

  method RunSequential(worker: IoWorker, size: nat, pageSize: nat, now: nat, turns: nat)
    returns (queue: Queue.AsyncQueue, ghost es: seq<Event>)
    requires worker.watermark == 0 && !worker.alarm && worker.filesize == SECTOR * |worker.disk|
    requires size > 0 && size % SECTOR == 0 && size <= worker.filesize
    requires pageSize > 0 && pageSize % SECTOR == 0
    requires WORD_BYTES * worker.buf.Length / PREPARATION_DEPTH >= pageSize
    requires size <= Share(WORD_BYTES * worker.buf.Length, PREPARATION_DEPTH, pageSize)
    modifies worker`seed, worker`watermark, worker`disk, worker`alarm, worker.buf
    ensures Outcome(Start(PREPARATION_DEPTH, worker.iolimit, now, old(worker.AsMedium())), es) == Some(queue.Abs())
    ensures queue.worker == worker && !worker.alarm && queue.flights == map[]
    ensures SequentialGenerator.IsSequential(true, size, worker.filesize, queue.log)
    ensures worker.seed == SeedAlong(false, worker.random, old(worker.seed), queue.log)
    ensures MadeInTurns(|queue.log|, turns, PREPARATION_DEPTH, worker.iolimit, size)
  {
    var workload := new SequentialGenerator.Sequential(worker, true, size);
    queue, es := RunTest(worker, Generator.OfSequential(workload), PREPARATION_DEPTH, pageSize, now, turns);
  }

  /** Sequential writes through a queue of two slots, with the size of the file as the limit; then
      the file is cut to what was written. */
  method PrepareFile(worker: IoWorker, size: nat, pageSize: nat, now: nat, turns: nat, configuredLimit: nat,
                     beyond: nat -> Sector)
    returns (queue: Queue.AsyncQueue)
    requires worker.watermark == 0 && !worker.alarm && worker.filesize == SECTOR * |worker.disk|
    requires size > 0 && size % SECTOR == 0 && size <= worker.filesize
    requires pageSize > 0 && pageSize % SECTOR == 0
    requires WORD_BYTES * worker.buf.Length / PREPARATION_DEPTH >= pageSize
    requires size <= Share(WORD_BYTES * worker.buf.Length, PREPARATION_DEPTH, pageSize)
    modifies worker, worker.buf
    ensures worker.filesize == queue.writeTally.bytes == SECTOR * |worker.disk| && worker.iolimit == configuredLimit
    ensures Prepared(worker.AsMedium(), old(worker.filesize), |queue.log|, size)
    ensures SequentialGenerator.IsSequential(true, size, old(worker.filesize), queue.log)
    ensures worker.seed == SeedAlong(false, worker.random, old(worker.seed), queue.log)
    ensures MadeInTurns(|queue.log|, turns, PREPARATION_DEPTH, old(worker.filesize), size)
    ensures PREPARATION_DEPTH * size <= old(worker.filesize) ==>
      && GoodBelow(worker.AsMedium(), |worker.disk|)
      && worker.filesize == Min(turns, old(worker.filesize) / size) * size
  {
    ghost var m := worker.AsMedium();
    worker.iolimit := worker.filesize;
    ghost var es;
    queue, es := RunSequential(worker, size, pageSize, now, turns);
    RunIsPreparation(size, m, now, es, queue.Abs(), beyond);
    worker.disk := Cut(worker.AsMedium(), queue.writeTally.bytes, beyond).disk;
    worker.filesize := queue.writeTally.bytes;
    worker.iolimit := configuredLimit;
  }
}
