/** Requests of one size that walk the file from the start and wrap. */
module SequentialGenerator {
  import opened Arithmetic
  import opened Pattern
  import opened Protocol
  import opened Worker

  /** The n-th request after a reset: q whole blocks in order, then block 0 once more. */
  function SequentialRequest(write: bool, size: nat, filesize: nat, n: nat): Request
    requires size > 0
  {
    var q := filesize / size;
    Request(if n % (q + 1) < q then size * (n % (q + 1)) else 0, size, write)
  }

  /** One turn of the walk: q steps forward, then back to the start. */
  lemma NextTurn(n: nat, q: nat)
    ensures (n + 1) % (q + 1) == if n % (q + 1) < q then n % (q + 1) + 1 else 0
  {
    var k, c := n / (q + 1), n % (q + 1);
    assert n == k * (q + 1) + c;
    if c < q {
      Remainder(n + 1, q + 1, k, c + 1);
    } else {
      assert n + 1 == (k + 1) * (q + 1);
      Remainder(n + 1, q + 1, k + 1, 0);
    }
  }

  /** A block fits at turn c exactly when c is below the number of whole blocks. */
  lemma RoomAtTurn(size: nat, filesize: nat, c: nat)
    requires size > 0
    ensures size * c + size == size * (c + 1)
    ensures c < filesize / size <==> size * c + size <= filesize
  {
    var q := filesize / size;
    QuotientBounds(filesize, size);
    if c < q {
      TimesMonotone(c + 1, q, size);
    } else {
      TimesMonotone(q + 1, c + 1, size);
    }
  }

  /** Every request stays inside the file if and only if the file holds one block. */
  lemma SequentialInFileIff(write: bool, size: nat, filesize: nat)
    requires size > 0
    ensures size <= filesize <==>
      forall n: nat :: SequentialRequest(write, size, filesize, n).offset + size <= filesize
  {
    if size <= filesize {
      forall n: nat
        ensures SequentialRequest(write, size, filesize, n).offset + size <= filesize
      {
        RoomAtTurn(size, filesize, n % (filesize / size + 1));
      }
    } else {
      assert SequentialRequest(write, size, filesize, 0).offset + size > filesize;
    }
  }

  lemma SequentialFits(write: bool, size: nat, sectors: nat, n: nat)
    requires size > 0 && size % SECTOR == 0 && size <= SECTOR * sectors
    ensures SequentialRequest(write, size, SECTOR * sectors, n).Fits(sectors)
  {
    SequentialInFileIff(write, size, SECTOR * sectors);
    MultipleTimes(size, n % (SECTOR * sectors / size + 1), SECTOR);
  }

  /** As long as the file has room the requests tile it from the start, without a gap. */
  lemma SequentialTiles(write: bool, size: nat, filesize: nat, n: nat)
    requires size > 0 && (n + 1) * size <= filesize
    ensures SequentialRequest(write, size, filesize, n) == Request(n * size, size, write)
  {
    RoomAtTurn(size, filesize, n);
    Remainder(n, filesize / size + 1, 0, n);
  }

  /** Any q + 1 requests in a row touch every whole block of the file. */
  lemma SequentialCovers(write: bool, size: nat, filesize: nat, start: nat, block: nat) returns (n: nat)
    requires size > 0 && block < filesize / size
    ensures start <= n <= start + filesize / size
    ensures SequentialRequest(write, size, filesize, n).offset == size * block
  {
    var q := filesize / size;
    var c := start % (q + 1);
    var k := start / (q + 1);
    if c <= block {
      n := start + (block - c);
      Remainder(n, q + 1, k, block);
    } else {
      n := start + (q + 1 - c) + block;
      assert n == (k + 1) * (q + 1) + block;
      Remainder(n, q + 1, k + 1, block);
    }
  }

  /** The requests of a run are those of the closed form, in order. */
  ghost predicate IsSequential(write: bool, size: nat, filesize: nat, log: seq<Request>)
    requires size > 0
  {
    forall n | 0 <= n < |log| :: log[n] == SequentialRequest(write, size, filesize, n)
  }

  class Sequential {
    const worker: IoWorker
    const write: bool
    const size: nat
    var off: nat

    /** The requests since the reset. */
    ghost var history: seq<Request>

    /** The history is the closed form and the walk stands where it ends. */
    ghost predicate Valid()
      reads this, worker`filesize
    {
      && size > 0 && off == size * (|history| % (worker.filesize / size + 1))
      && IsSequential(write, size, worker.filesize, history)
    }

    constructor (worker: IoWorker, write: bool, size: nat)
      requires size > 0
      ensures Valid() && history == []
      ensures this.worker == worker && this.write == write && this.size == size
    {
      this.worker := worker;
      this.write := write;
      this.size := size;
      off := 0;
      history := [];
    }

    method FillRequest() returns (r: Request)
      requires Valid()
      modifies this`off, this`history
      ensures Valid() && history == old(history) + [r]
      ensures r == SequentialRequest(write, size, worker.filesize, |old(history)|)
    {
      NextTurn(|history|, worker.filesize / size);
      RoomAtTurn(size, worker.filesize, |history| % (worker.filesize / size + 1));
      r := Request(off, size, write);
      off := off + size;
      if off > worker.filesize {
        r := r.(offset := 0);
        off := 0;
      }
      history := history + [r];
    }

    function MaxIoSize(): nat {
      size
    }
  }
}
