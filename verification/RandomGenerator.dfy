/** Requests of one size at random block positions. */
module RandomGenerator {
  import opened Arithmetic
  import opened Xorshift
  import opened Pattern
  import opened Protocol
  import opened Stamps
  import opened Worker

  function RandomRequest(write: bool, size: nat, filesize: nat, draw: nat): Request
    requires 0 < size <= filesize
  {
    Request(draw % (filesize / size) * size, size, write)
  }

  lemma RandomFits(write: bool, size: nat, sectors: nat, draw: nat)
    requires 0 < size <= SECTOR * sectors && size % SECTOR == 0
    ensures RandomRequest(write, size, SECTOR * sectors, draw).Fits(sectors)
  {
    var q := SECTOR * sectors / size;
    var b := draw % q;
    QuotientBounds(SECTOR * sectors, size);
    TimesMonotone(b + 1, q, size);
    assert (b + 1) * size == b * size + size;
    MultipleTimes(size, b, SECTOR);
  }

  lemma RandomOnBlock(write: bool, size: nat, sectors: nat, draw: nat)
    requires 0 < size <= SECTOR * sectors && size % SECTOR == 0
    ensures RandomRequest(write, size, SECTOR * sectors, draw).offset % size == 0
  {
    var b := draw % (SECTOR * sectors / size);
    Remainder(b * size, size, b, 0);
  }

  /** A draw of its own number chooses a block. */
  lemma BlockIsDrawn(write: bool, size: nat, filesize: nat, offset: nat)
    requires 0 < size <= filesize && offset % size == 0 && offset + size <= filesize
    ensures RandomRequest(write, size, filesize, offset / size).offset == offset
  {
    var q, b := filesize / size, offset / size;
    QuotientBounds(filesize, size);
    assert offset == b * size && (b + 1) * size == b * size + size;
    CancelFactor(b + 1, q + 1, size);
    Remainder(b, q, 0, b);
  }

  /** Every draw lands on a whole block of the file, and every whole block can be drawn. */
  lemma RandomBlocks(write: bool, size: nat, sectors: nat, offset: nat)
    requires 0 < size <= SECTOR * sectors && size % SECTOR == 0
    ensures (exists draw: nat :: RandomRequest(write, size, SECTOR * sectors, draw).offset == offset)
      <==> offset % size == 0 && offset + size <= SECTOR * sectors
  {
    if draw: nat :| RandomRequest(write, size, SECTOR * sectors, draw).offset == offset {
      RandomFits(write, size, sectors, draw);
      RandomOnBlock(write, size, sectors, draw);
    }
    if offset % size == 0 && offset + size <= SECTOR * sectors {
      BlockIsDrawn(write, size, SECTOR * sectors, offset);
    }
  }

  /** The request of some 64-bit draw. */
  ghost predicate Drawn(write: bool, size: nat, filesize: nat, draw: nat, r: Request)
    requires 0 < size <= filesize
  {
    draw < TWO64 && r == RandomRequest(write, size, filesize, draw)
  }

  ghost predicate CanDraw(write: bool, size: nat, filesize: nat, r: Request)
    requires 0 < size <= filesize
  {
    exists draw: nat :: Drawn(write, size, filesize, draw, r)
  }

  /** The requests of a run are those of some draws. */
  ghost predicate IsRandom(write: bool, size: nat, filesize: nat, log: seq<Request>)
    requires 0 < size <= filesize
  {
    forall n | 0 <= n < |log| :: CanDraw(write, size, filesize, log[n])
  }

  lemma RandomSnoc(write: bool, size: nat, filesize: nat, log: seq<Request>, r: Request, draw: nat)
    requires 0 < size <= filesize && IsRandom(write, size, filesize, log) && Drawn(write, size, filesize, draw, r)
    ensures IsRandom(write, size, filesize, log + [r])
  {
    assert CanDraw(write, size, filesize, r);
    forall n | 0 <= n < |log + [r]|
      ensures CanDraw(write, size, filesize, (log + [r])[n])
    {
      if n < |log| {
        assert (log + [r])[n] == log[n];
      }
    }
  }

  class Random {
    const worker: IoWorker
    const write: bool
    const size: nat
    const blocks: nat

    /** The requests since the reset. */
    ghost var history: seq<Request>

    ghost predicate Valid()
      reads this, worker`filesize
    {
      && 0 < size <= worker.filesize && blocks == worker.filesize / size
      && IsRandom(write, size, worker.filesize, history)
    }

    constructor (worker: IoWorker, write: bool, size: nat)
      requires 0 < size <= worker.filesize
      ensures Valid() && history == []
      ensures this.worker == worker && this.write == write && this.size == size
    {
      this.worker := worker;
      this.write := write;
      this.size := size;
      this.blocks := worker.filesize / size;
      history := [];
    }

    method FillRequest() returns (r: Request)
      requires Valid()
      modifies this`history, worker`seed
      ensures Valid() && history == old(history) + [r]
      ensures worker.seed == Step(old(worker.seed))
      ensures r == RandomRequest(write, size, worker.filesize, worker.seed as nat)
      ensures r.size == size && r.write == write && r.offset == worker.seed as nat % (worker.filesize / size) * size
    {
      var base := worker.NextRandom();
      r := Draw(base as nat);
      history := history + [r];
    }

    /** The block that a draw chooses. */
    method Draw(base: nat) returns (r: Request)
      requires Valid() && base < TWO64
      ensures r == RandomRequest(write, size, worker.filesize, base)
      ensures IsRandom(write, size, worker.filesize, history + [r])
    {
      var offset := base % blocks;
      r := Request(offset * size, size, write);
      RandomSnoc(write, size, worker.filesize, history, r, base);
    }

    function MaxIoSize(): nat {
      size
    }
  }
}
