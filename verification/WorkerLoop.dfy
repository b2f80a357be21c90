/** The worker thread: the loop that drives a queue with a workload. */
module WorkerLoop {
  import opened Xorshift
  import opened Pattern
  import opened Protocol
  import opened Service
  import opened Generator
  import opened Queue
  import Limits

  /** The generator serves the queue, these are its requests so far, and what it has drawn comes from
      this seed. */
  ghost predicate Serves(queue: AsyncQueue, gen: RequestGenerator, seed: Word, log: seq<Request>)
    reads queue.worker`filesize, gen.Objects(), gen.Arrays()
  {
    && gen.Valid(queue.worker) && gen.MaxIoSize() <= queue.capacity && gen.Issued() == log
    && gen.Suits(queue.worker.filesize) && gen.Drew(queue.worker.filesize, queue.worker.random, seed)
    && {queue, queue.worker, queue.worker.buf} !! gen.Objects() + gen.Arrays()
  }

  /** Every submission so far is one of its requests. */
  ghost predicate Fed(queue: AsyncQueue, gen: RequestGenerator, seed: Word)
    reads queue`log, queue.worker`filesize, gen.Objects(), gen.Arrays()
  {
    Serves(queue, gen, seed, queue.log)
  }

  /** Every submission so far is what the workload makes from this seed, and the worker's seed is the
      one after them. */
  ghost predicate Seeded(queue: AsyncQueue, gen: RequestGenerator, seed: Word)
    reads queue`log, queue.worker`filesize, queue.worker`seed
  {
    && gen.Suits(queue.worker.filesize)
    && gen.OnSeed(queue.worker.filesize, queue.worker.random, seed, queue.log, queue.worker.seed)
  }

  /** From the seed x before it the next request was made, and the worker's seed is the one after. */
  ghost predicate Drawn(queue: AsyncQueue, gen: RequestGenerator, seed: Word, x: Word, r: Request)
    reads queue`log, queue.worker`filesize, queue.worker`seed
  {
    && gen.Suits(queue.worker.filesize)
    && gen.NextOnSeed(queue.worker.filesize, queue.worker.random, seed, queue.log, x, r, queue.worker.seed)
  }

  /** The file has the size the worker knows. */
  ghost predicate Sized(queue: AsyncQueue)
    reads queue.worker`filesize, queue.worker`disk
  {
    queue.worker.filesize == SECTOR * |queue.worker.disk|
  }

  /** The generator makes the next request; the queue is not touched. */
  method Ask(queue: AsyncQueue, gen: RequestGenerator, ghost seed: Word, ghost s: State, ghost es: seq<Event>)
    returns (r: Request)
    requires queue.Running(s, es) && Fed(queue, gen, seed) && Seeded(queue, gen, seed)
    modifies queue.worker`seed, gen.Objects()
    ensures queue.Running(s, es) && Serves(queue, gen, seed, queue.log + [r])
    ensures Drawn(queue, gen, seed, old(queue.worker.seed), r)
    ensures r.Fits(queue.worker.filesize / SECTOR) && r.size <= queue.capacity
  {
    hide RequestGenerator.Valid, RequestGenerator.Drew, RequestGenerator.Issued;
    hide RequestGenerator.OnSeed, RequestGenerator.NextOnSeed, AsyncQueue.Ready, Outcome, InBounds;
    ghost var t := queue.Abs();
    r := gen.FillRequest(queue.worker, seed);
    assert queue.Abs() == t && queue.Ready();
  }

  /** That request is submitted; the generator is not touched. */
  method Pay(queue: AsyncQueue, gen: RequestGenerator, r: Request, ghost seed: Word, ghost x: Word, ghost s: State,
             ghost es: seq<Event>)
    returns (ghost fs: seq<Event>)
    requires queue.Running(s, es) && !queue.worker.alarm && queue.open && queue.ready != []
    requires queue.ready[0] !in queue.pending
    requires queue.submitted + queue.slots[queue.ready[0]].request.size <= queue.worker.iolimit
    requires r.Fits(|queue.worker.disk|) && r.size <= queue.capacity
    requires Serves(queue, gen, seed, queue.log + [r]) && Drawn(queue, gen, seed, x, r)
    modifies queue, queue.worker`seed, queue.worker.buf
    ensures queue.open == old(queue.open) && queue.log == old(queue.log) + [r]
    ensures queue.Running(s, fs) && Fed(queue, gen, seed) && Seeded(queue, gen, seed)
  {
    hide AsyncQueue.Running, RequestGenerator.OnSeed, RequestGenerator.NextOnSeed;
    hide RequestGenerator.Valid, RequestGenerator.Drew, RequestGenerator.Issued;
    ghost var issued := gen.Issued();
    gen.OneMoreOnSeed(queue.worker.filesize, queue.worker.random, seed, queue.log, x, r, queue.worker.seed);
    fs := queue.SubmitStep(r, s, es);
    assert gen.Issued() == issued && gen.Valid(queue.worker);
    assert gen.Drew(queue.worker.filesize, queue.worker.random, seed);
  }

  /** The next request of the workload is made and submitted. */
  method Issue(queue: AsyncQueue, gen: RequestGenerator, ghost seed: Word, ghost s: State, ghost es: seq<Event>)
    returns (ghost fs: seq<Event>)
    requires queue.Running(s, es) && !queue.worker.alarm && queue.open && queue.ready != []
    requires queue.ready[0] !in queue.pending
    requires queue.submitted + queue.slots[queue.ready[0]].request.size <= queue.worker.iolimit
    requires Fed(queue, gen, seed) && Sized(queue) && Seeded(queue, gen, seed)
    modifies queue, queue.worker`seed, queue.worker.buf, gen.Objects()
    ensures queue.open == old(queue.open) && |queue.log| == |old(queue.log)| + 1
    ensures queue.Running(s, fs) && Fed(queue, gen, seed) && Seeded(queue, gen, seed)
  {
    hide Fed, Serves, AsyncQueue.Running, RequestGenerator.OnSeed, RequestGenerator.NextOnSeed;
    ghost var x := queue.worker.seed;
    var r := Ask(queue, gen, seed, s, es);
    fs := Pay(queue, gen, r, seed, x, s, es);
  }

  /** Completions are harvested, blocking only for a slot; the generator is not touched. */
  method Gather(queue: AsyncQueue, gen: RequestGenerator, ghost seed: Word, ghost s: State, ghost es: seq<Event>)
    returns (ghost fs: seq<Event>, ghost calls: seq<WaitCall>)
    requires queue.Running(s, es) && !queue.worker.alarm && Fed(queue, gen, seed) && Sized(queue)
    modifies queue`now, queue`readTally, queue`writeTally, queue`free, queue`active, queue`ready, queue`pending
    modifies queue`flights, queue.worker`watermark, queue.worker`alarm, queue.worker`disk, queue.worker.buf
    ensures queue.Running(s, fs) && Fed(queue, gen, seed) && Sized(queue)
    ensures queue.worker.alarm || queue.free > 0
    ensures BlocksFor(calls, 0)
  {
    hide AsyncQueue.Running;
    hide RequestGenerator.Valid, RequestGenerator.Drew, RequestGenerator.Issued;
    var received;
    ghost var issued := gen.Issued();
    received, fs, calls := queue.Harvest(s, es, 0);
    assert gen.Issued() == issued && gen.Valid(queue.worker);
    assert gen.Drew(queue.worker.filesize, queue.worker.random, seed);
  }

  /** One request submitted and whatever completions there are harvested. */
  method Round(queue: AsyncQueue, gen: RequestGenerator, ghost seed: Word, ghost s: State, ghost es: seq<Event>)
    returns (ghost fs: seq<Event>, ghost calls: seq<WaitCall>)
    requires queue.Running(s, es) && !queue.worker.alarm && queue.open && queue.ready != []
    requires queue.ready[0] !in queue.pending
    requires queue.submitted + queue.slots[queue.ready[0]].request.size <= queue.worker.iolimit
    requires Fed(queue, gen, seed) && Sized(queue) && Seeded(queue, gen, seed)
    modifies queue, queue.worker`seed, queue.worker`watermark, queue.worker`alarm, queue.worker`disk, queue.worker.buf
    modifies gen.Objects()
    ensures queue.open == old(queue.open) && |queue.log| == |old(queue.log)| + 1
    ensures queue.Running(s, fs) && Fed(queue, gen, seed) && Sized(queue) && Seeded(queue, gen, seed)
    ensures queue.worker.alarm || queue.free > 0
    ensures BlocksFor(calls, 0)
  {
    hide Fed, Serves, AsyncQueue.Running, RequestGenerator.OnSeed, RequestGenerator.NextOnSeed;
    fs := Issue(queue, gen, seed, s, es);
    ghost var log, x := queue.log, queue.worker.seed;
    fs, calls := Gather(queue, gen, seed, s, fs);
    assert queue.log == log && queue.worker.seed == x;
  }

  /** The limit check ends the submissions; the generator is not touched. */
  method Stop(queue: AsyncQueue, gen: RequestGenerator, ghost seed: Word, ghost s: State, ghost es: seq<Event>)
    returns (ghost fs: seq<Event>)
    requires queue.Running(s, es) && !queue.worker.alarm && queue.open && queue.ready != []
    requires queue.submitted + queue.slots[queue.ready[0]].request.size > queue.worker.iolimit
    requires Fed(queue, gen, seed) && Sized(queue)
    modifies queue`ready, queue`open
    ensures queue.Running(s, fs) && Fed(queue, gen, seed) && Sized(queue) && !queue.open
  {
    hide AsyncQueue.Running;
    hide RequestGenerator.Valid, RequestGenerator.Drew, RequestGenerator.Issued;
    ghost var issued := gen.Issued();
    fs := queue.RefuseStep(s, es);
    assert gen.Issued() == issued && gen.Valid(queue.worker);
    assert gen.Drew(queue.worker.filesize, queue.worker.random, seed);
  }

  /** One turn of the loop: it ends the loop if the last size of the slot at the head would pass the
      limit, and otherwise submits one request. It blocks only while no slot is free. */
  method Turn(queue: AsyncQueue, gen: RequestGenerator, ghost seed: Word, ghost s: State, ghost es: seq<Event>)
    returns (going: bool, ghost fs: seq<Event>, ghost calls: seq<WaitCall>)
    requires queue.Running(s, es) && !queue.worker.alarm && queue.open && queue.free > 0
    requires queue.ready[0] !in queue.pending
    requires Fed(queue, gen, seed) && Sized(queue) && Seeded(queue, gen, seed)
    modifies queue, queue.worker`seed, queue.worker`watermark, queue.worker`alarm, queue.worker`disk, queue.worker.buf
    modifies gen.Objects()
    ensures queue.Running(s, fs) && Fed(queue, gen, seed) && Sized(queue) && Seeded(queue, gen, seed)
    ensures going <==> old(queue.submitted + queue.slots[queue.ready[0]].request.size <= queue.worker.iolimit)
    ensures going ==> queue.open && |queue.log| == |old(queue.log)| + 1 && (queue.worker.alarm || queue.free > 0)
    ensures !going ==> !queue.open && queue.log == old(queue.log)
    ensures BlocksFor(calls, 0)
  {
    hide Fed, Serves, RequestGenerator.OnSeed, RequestGenerator.NextOnSeed;
    going := queue.submitted + queue.slots[queue.ready[0]].request.size <= queue.worker.iolimit;
    if going {
      fs, calls := Round(queue, gen, seed, s, es);
    } else {
      fs := Stop(queue, gen, seed, s, es);
      calls := [];
    }
  }

  /** The barrier; the generator is not touched. */
  method Drain(queue: AsyncQueue, gen: RequestGenerator, ghost seed: Word, ghost s: State, ghost es: seq<Event>)
    returns (ghost fs: seq<Event>)
    requires queue.Running(s, es) && !queue.worker.alarm && Fed(queue, gen, seed)
    modifies queue`now, queue`readTally, queue`writeTally, queue`free, queue`active, queue`ready, queue`pending
    modifies queue`flights, queue.worker`watermark, queue.worker`alarm, queue.worker`disk, queue.worker.buf
    ensures queue.Running(s, fs) && Fed(queue, gen, seed)
    ensures queue.worker.alarm || (queue.flights == map[] && queue.active == 0 && queue.free == queue.total)
  {
    hide AsyncQueue.Running;
    hide RequestGenerator.Valid, RequestGenerator.Drew, RequestGenerator.Issued;
    ghost var issued := gen.Issued();
    fs := queue.Drain(s, es);
    assert gen.Issued() == issued && gen.Valid(queue.worker);
    assert gen.Drew(queue.worker.filesize, queue.worker.random, seed);
  }

  /** The loop of the thread: a request for every turn until one passes the limit. */
  method Submissions(queue: AsyncQueue, gen: RequestGenerator, turns: nat, ghost seed: Word, ghost s: State)
    returns (ghost es: seq<Event>)
    requires queue.New() && s == queue.Abs() && !queue.worker.alarm
    requires Fed(queue, gen, seed) && Sized(queue) && Seeded(queue, gen, seed)
    modifies queue, queue.worker`seed, queue.worker`watermark, queue.worker`alarm, queue.worker`disk, queue.worker.buf
    modifies gen.Objects()
    ensures queue.Running(s, es) && Fed(queue, gen, seed) && Seeded(queue, gen, seed)
    ensures |queue.log| <= turns && (!queue.open ==> |queue.log| < turns)
    ensures !queue.worker.alarm && queue.open ==> |queue.log| == turns
  {
    hide Fed, Serves, RequestGenerator.OnSeed, RequestGenerator.NextOnSeed;
    queue.NewIsRunning();
    es := [];
    var left, going := turns, true;
    while left > 0 && going && !queue.worker.alarm
      invariant queue.Running(s, es) && Fed(queue, gen, seed) && Sized(queue) && Seeded(queue, gen, seed)
      invariant going && !queue.worker.alarm ==> queue.free > 0
      invariant going <==> queue.open
      invariant going ==> |queue.log| + left == turns
      invariant !going ==> |queue.log| + left < turns
      decreases left
    {
      RunHead(s, es, queue.Abs());
      ghost var calls;
      going, es, calls := Turn(queue, gen, seed, s, es);
      left := left - 1;
    }
  }

  /** The thread: submits and harvests until the time is up, here after any number of turns, or
      the limit is reached, and then waits for everything in flight. */
  method RunWorker(queue: AsyncQueue, gen: RequestGenerator, turns: nat) returns (ghost es: seq<Event>)
    requires queue.New() && !queue.worker.alarm && Fed(queue, gen, queue.worker.seed) && Sized(queue)
    modifies queue, queue.worker`seed, queue.worker`watermark, queue.worker`alarm, queue.worker`disk, queue.worker.buf
    modifies gen.Objects()
    ensures queue.Running(old(queue.Abs()), es) && Fed(queue, gen, old(queue.worker.seed))
    ensures queue.worker.alarm || (queue.flights == map[] && queue.active == 0 && queue.free == queue.total)
    ensures Seeded(queue, gen, old(queue.worker.seed))
    ensures |queue.log| <= turns && (!queue.open ==> |queue.log| < turns)
    ensures !queue.worker.alarm && queue.open ==> |queue.log| == turns
    ensures !queue.open ==> queue.submitted + gen.MaxIoSize() > queue.worker.iolimit
  {
    hide AsyncQueue.Running, RequestGenerator.OnSeed, RequestGenerator.NextOnSeed;
    ghost var s, seed := queue.Abs(), queue.worker.seed;
    gen.FreshOnSeed(queue.worker, seed);
    es := Submissions(queue, gen, turns, seed, s);
    if !queue.worker.alarm {
      ghost var log := queue.log;
      es := Drain(queue, gen, seed, s, es);
      assert queue.log == log;
    }
    LoopEnded(queue, gen, s, es);
  }

  /** When the limit check has ended the loop no further request of full size fits. */
  lemma LoopEnded(queue: AsyncQueue, gen: RequestGenerator, s: State, es: seq<Event>)
    requires queue.Running(s, es) && gen.Valid(queue.worker) && gen.Issued() == queue.log
    requires s == Start(s.total, s.limit, s.now, s.medium)
    ensures !queue.open ==> queue.submitted + gen.MaxIoSize() > queue.worker.iolimit
  {
    gen.IssuedSizes(queue.worker);
    Limits.ClosedIsFull(s, es, queue.Abs(), gen.MaxIoSize());
  }
}
