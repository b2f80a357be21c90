/** The one interface through which a worker asks its workload for the next request. */
module Generator {
  import opened Xorshift
  import opened Pattern
  import opened Protocol
  import opened Worker
  import opened Buffers
  import opened Seeds
  import SequentialGenerator
  import RandomGenerator
  import MixedGenerator
  import Weights

  datatype RequestGenerator =
    | OfSequential(sequential: SequentialGenerator.Sequential)
    | OfRandom(random: RandomGenerator.Random)
    | OfMixed(mixed: MixedGenerator.Mixed)
  {
    ghost function Objects(): set<object> {
      match this
      case OfSequential(g) => {g}
      case OfRandom(g) => {g}
      case OfMixed(g) => {g}
    }

    ghost function Arrays(): set<object> {
      match this
      case OfSequential(g) => {}
      case OfRandom(g) => {}
      case OfMixed(g) => {g.randomProb, g.sequentialProb}
    }

    function MaxIoSize(): nat {
      match this
      case OfSequential(g) => g.MaxIoSize()
      case OfRandom(g) => g.MaxIoSize()
      case OfMixed(g) => MixedGenerator.MAX_IO_SIZE
    }

    /** Bound to the worker, with whole-sector requests that fit into its file. */
    ghost predicate Valid(worker: IoWorker)
      reads Objects(), Arrays(), worker`filesize
    {
      && worker.filesize % SECTOR == 0
      && match this
         case OfSequential(g) => g.worker == worker && g.Valid() && g.size % SECTOR == 0 && g.size <= worker.filesize
         case OfRandom(g) => g.worker == worker && g.Valid() && g.size % SECTOR == 0
         case OfMixed(g) => g.worker == worker && g.Valid()
    }

    /** The requests since the reset. */
    ghost function Issued(): seq<Request>
      reads Objects()
    {
      match this
      case OfSequential(g) => g.history
      case OfRandom(g) => g.history
      case OfMixed(g) => g.history
    }

    /** The workload fits a file of this size. */
    predicate Suits(filesize: nat) {
      match this
      case OfSequential(g) => 0 < g.size <= filesize
      case OfRandom(g) => 0 < g.size <= filesize
      case OfMixed(g) => g.lo < Weights.SIZES && MixedGenerator.MAX_IO_SIZE <= filesize
    }

    /** A run of requests that this workload can make from its reset: for the sequential one the
        closed form, for the others the requests of some sequence of draws. */
    ghost predicate Asks(filesize: nat, log: seq<Request>)
      requires Suits(filesize)
    {
      match this
      case OfSequential(g) => SequentialGenerator.IsSequential(g.write, g.size, filesize, log)
      case OfRandom(g) => RandomGenerator.IsRandom(g.write, g.size, filesize, log)
      case OfMixed(g) => MixedGenerator.IsMixed(g.lo, filesize, log)
    }

    /** These are the requests that this workload makes from this seed, and `current` is the seed
        after them. */
    ghost predicate OnSeed(filesize: nat, random: bool, seed: Word, log: seq<Request>, current: Word)
      requires Suits(filesize)
    {
      match this
      case OfSequential(g) =>
        && SequentialGenerator.IsSequential(g.write, g.size, filesize, log)
        && current == SeedAlong(false, random, seed, log)
      case OfRandom(g) => RandomAt(g.write, g.size, filesize, random, seed, log, current)
      case OfMixed(g) =>
        MixedAt(g.lo, filesize, random, seed, log, SeededDraws(g.lo, filesize, random, seed, |log|).0, current)
    }

    /** After them, with the seed x, this is the next request, and `drawn` the seed it was made with. */
    ghost predicate NextOnSeed(filesize: nat, random: bool, seed: Word, log: seq<Request>, x: Word,
                               r: Request, drawn: Word)
      requires Suits(filesize)
    {
      match this
      case OfSequential(g) =>
        && OnSeed(filesize, random, seed, log, x) && drawn == x
        && r == SequentialGenerator.SequentialRequest(g.write, g.size, filesize, |log|)
      case OfRandom(g) => RandomNext(g.write, g.size, filesize, random, seed, log, x, r, drawn)
      case OfMixed(g) =>
        MixedNext(g.lo, filesize, random, seed, log, SeededDraws(g.lo, filesize, random, seed, |log|).0, x, r, drawn)
    }

    lemma OneMoreMixed(filesize: nat, random: bool, seed: Word, log: seq<Request>, x: Word, r: Request, drawn: Word)
      requires OfMixed? && Suits(filesize) && NextOnSeed(filesize, random, seed, log, x, r, drawn)
      ensures OnSeed(filesize, random, seed, log + [r], SeedAfter(random, drawn, r))
    {
      MixedOneMore(mixed.lo, filesize, random, seed, log, SeededDraws(mixed.lo, filesize, random, seed, |log|).0,
                   x, r, drawn);
    }

    /** Once it is submitted they are one more. */
    lemma OneMoreOnSeed(filesize: nat, random: bool, seed: Word, log: seq<Request>, x: Word, r: Request, drawn: Word)
      requires Suits(filesize) && NextOnSeed(filesize, random, seed, log, x, r, drawn)
      ensures OnSeed(filesize, random, seed, log + [r], SeedAfter(random, drawn, r))
    {
      match this
      case OfSequential(g) => SeedAlongSnoc(false, random, seed, log, r);
      case OfRandom(g) => RandomOneMore(g.write, g.size, filesize, random, seed, log, x, r, drawn);
      case OfMixed(g) => OneMoreMixed(filesize, random, seed, log, x, r, drawn);
    }

    /** The draws of a mixed workload since its reset are those of the seed. */
    ghost predicate Drew(filesize: nat, random: bool, seed: Word)
      requires Suits(filesize)
      reads Objects()
    {
      match this
      case OfSequential(g) => true
      case OfRandom(g) => true
      case OfMixed(g) => g.draws == SeededDraws(g.lo, filesize, random, seed, |g.history|).0
    }

    lemma FreshOnSeed(worker: IoWorker, seed: Word)
      requires Valid(worker) && Issued() == []
      ensures Suits(worker.filesize)
      ensures OnSeed(worker.filesize, worker.random, seed, [], seed) && Drew(worker.filesize, worker.random, seed)
    {
      match this
      case OfSequential(g) =>
      case OfRandom(g) =>
      case OfMixed(g) => MixedGenerator.MixedRunFits(g.lo, worker.filesize / SECTOR, g.draws);
    }

    lemma IssuedSizes(worker: IoWorker)
      requires Valid(worker)
      ensures forall n | 0 <= n < |Issued()| :: Issued()[n].size <= MaxIoSize()
    {
      assert worker.filesize == SECTOR * (worker.filesize / SECTOR);
      AskedSizes(worker.filesize / SECTOR, Issued());
    }

    lemma IssuedAsAsked(worker: IoWorker)
      requires Valid(worker)
      ensures Suits(worker.filesize) && Asks(worker.filesize, Issued())
    {
    }

    lemma AskedSizes(sectors: nat, log: seq<Request>)
      requires Suits(SECTOR * sectors) && Asks(SECTOR * sectors, log)
      ensures forall n | 0 <= n < |log| :: log[n].size <= MaxIoSize()
      ensures OfSequential? ==>
        forall n | 0 <= n < |log| :: log[n].size == sequential.size && log[n].write == sequential.write
      ensures OfRandom? ==> forall n | 0 <= n < |log| :: log[n].size == random.size && log[n].write == random.write
    {
      if OfMixed? {
        var draws :| MixedGenerator.AreDraws(draws)
          && log == MixedGenerator.MixedRun(mixed.lo, SECTOR * sectors, draws).0;
        MixedGenerator.MixedRunFits(mixed.lo, sectors, draws);
      }
    }

    method FillSequential(worker: IoWorker, ghost seed: Word) returns (r: Request)
      requires OfSequential? && Valid(worker) && Suits(worker.filesize)
      requires OnSeed(worker.filesize, worker.random, seed, Issued(), worker.seed)
      modifies Objects()
      ensures Valid(worker) && Issued() == old(Issued()) + [r]
      ensures NextOnSeed(worker.filesize, worker.random, seed, old(Issued()), worker.seed, r, worker.seed)
      ensures r.Fits(worker.filesize / SECTOR) && r.size <= MaxIoSize()
    {
      var sectors := worker.filesize / SECTOR;
      assert worker.filesize == SECTOR * sectors;
      SequentialGenerator.SequentialFits(sequential.write, sequential.size, sectors, |sequential.history|);
      r := sequential.FillRequest();
    }

    method FillRandom(worker: IoWorker, ghost seed: Word) returns (r: Request)
      requires OfRandom? && Valid(worker) && Suits(worker.filesize)
      requires OnSeed(worker.filesize, worker.random, seed, Issued(), worker.seed)
      modifies Objects(), worker`seed
      ensures Valid(worker) && Issued() == old(Issued()) + [r]
      ensures NextOnSeed(worker.filesize, worker.random, seed, old(Issued()), old(worker.seed), r, worker.seed)
      ensures r.Fits(worker.filesize / SECTOR) && r.size <= MaxIoSize()
    {
      var sectors := worker.filesize / SECTOR;
      assert worker.filesize == SECTOR * sectors;
      r := random.FillRequest();
      RandomGenerator.RandomFits(random.write, random.size, sectors, worker.seed as nat);
    }

    method FillMixed(worker: IoWorker, ghost seed: Word) returns (r: Request)
      requires OfMixed? && Valid(worker) && Suits(worker.filesize) && Drew(worker.filesize, worker.random, seed)
      requires OnSeed(worker.filesize, worker.random, seed, Issued(), worker.seed)
      modifies Objects(), worker`seed
      ensures Valid(worker) && Issued() == old(Issued()) + [r] && Drew(worker.filesize, worker.random, seed)
      ensures NextOnSeed(worker.filesize, worker.random, seed, old(Issued()), old(worker.seed), r, worker.seed)
      ensures r.Fits(worker.filesize / SECTOR) && r.size <= MaxIoSize()
    {
      ghost var log, walks, draws, x := mixed.history, mixed.Walk(), mixed.draws, worker.seed;
      r := mixed.FillRequest();
      MixedDrawn(mixed.lo, worker.filesize, worker.random, seed, log, draws, walks, x, r, worker.seed);
      assert mixed.draws == draws + [worker.seed as nat] && |mixed.history| == |log| + 1;
    }

    /** Every request of every generator is whole sectors inside the file and fits a slot, and is the
        next one of the seed that the workload began with. */
    method FillRequest(worker: IoWorker, ghost seed: Word) returns (r: Request)
      requires Valid(worker) && Suits(worker.filesize) && Drew(worker.filesize, worker.random, seed)
      requires OnSeed(worker.filesize, worker.random, seed, Issued(), worker.seed)
      modifies Objects(), worker`seed
      ensures Valid(worker) && Issued() == old(Issued()) + [r] && Drew(worker.filesize, worker.random, seed)
      ensures NextOnSeed(worker.filesize, worker.random, seed, old(Issued()), old(worker.seed), r, worker.seed)
      ensures r.Fits(worker.filesize / SECTOR) && r.size <= MaxIoSize()
    {
      match this
      case OfSequential(g) => r := FillSequential(worker, seed);
      case OfRandom(g) => r := FillRandom(worker, seed);
      case OfMixed(g) => r := FillMixed(worker, seed);
    }
  }
}
