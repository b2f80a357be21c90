/** Mixed reads and writes, random and sequential, of many sizes. */
module MixedGenerator {
  import opened Arithmetic
  import opened Xorshift
  import opened Pattern
  import opened Protocol
  import opened Stamps
  import opened Worker
  import opened Weights
  import opened RandomGenerator

  const MAX_IO_SIZE: nat := 2097152
  const TWO32: nat := 0x1_0000_0000

  /** The four walks: forward and backward reads, forward and backward writes. */
  datatype Walks = Walks(pos1: nat, pos2: nat, pos3: nat, pos4: nat) {
    function At(write: bool, forward: bool): nat {
      if write then (if forward then pos3 else pos4) else (if forward then pos1 else pos2)
    }

    function With(write: bool, forward: bool, p: nat): Walks {
      if write then
        if forward then this.(pos3 := p) else this.(pos4 := p)
      else
        if forward then this.(pos1 := p) else this.(pos2 := p)
    }
  }

  /** One step of a walk: the offset of the request and the position afterwards. A forward walk
      wraps before it would pass the end, a backward walk before it would pass the start. */
  function Stride(forward: bool, pos: nat, size: nat, filesize: nat): (nat, nat)
    requires size <= filesize
  {
    if forward then
      var p := if pos + size > filesize then 0 else pos;
      (p, p + size)
    else
      var p := (if pos < size then filesize else pos) - size;
      (p, p)
  }

  /** The decisions taken from one 64-bit draw. */
  datatype Choice = Choice(write: bool, sequential: bool, forward: bool)

  function Choose(draw: nat): Choice {
    var low := draw % TWO32;
    var write := 4 * low >= 3 * UINT32_MAX;
    Choice(write, if write then low % 32 <= 1 else low % 32 == 0, low % 2 == 1)
  }

  function Base(sequential: bool): nat {
    if sequential then SEQUENTIAL_BASE else RANDOM_BASE
  }

  function Pick(lo: nat, draw: nat): (i: nat)
    requires lo < SIZES
    ensures lo <= i < SIZES
  {
    Scan(Base(Choose(draw).sequential), lo, lo, draw / TWO32)
  }

  /** One request of the mixed workload and where it leaves the walks. */
  function MixedRequest(w: Walks, lo: nat, filesize: nat, draw: nat): (Request, Walks)
    requires lo < SIZES && MAX_IO_SIZE <= filesize
  {
    Issue(w, Choose(draw), SizeAt(Pick(lo, draw)), filesize, draw)
  }

  function Issue(w: Walks, c: Choice, size: nat, filesize: nat, draw: nat): (Request, Walks)
    requires 0 < size <= filesize
  {
    if c.sequential then
      var (offset, p) := Stride(c.forward, w.At(c.write, c.forward), size, filesize);
      (Request(offset, size, c.write), w.With(c.write, c.forward, p))
    else
      (RandomRequest(c.write, size, filesize, draw), w)
  }

  /* ---- What a draw asks for, in its own bits ---- */

  /** Three quarters of the lower halves read. */
  lemma DirectionOfDraw(w: Walks, lo: nat, filesize: nat, draw: nat)
    requires lo < SIZES && MAX_IO_SIZE <= filesize
    ensures !MixedRequest(w, lo, filesize, draw).0.write <==> draw % 0x1_0000_0000 <= 0xBFFF_FFFF
  {
  }

  lemma SizesDiffer(i: nat, k: nat)
    requires i < SIZES && k < SIZES
    ensures SizeAt(i) == SizeAt(k) <==> i == k
  {
    if i < k {
      SizesGrow(i, k - 1);
    } else if k < i {
      SizesGrow(k, i - 1);
    }
  }

  /** The lowest five bits tell walks from random places: one residue in 32 of the reads, two of the
      writes. The upper half picks the size, by the weights around 128 KB for walks and around 4 KB
      for random places. */
  lemma SizeOfDraw(w: Walks, lo: nat, filesize: nat, draw: nat, k: nat)
    requires lo <= k < SIZES && MAX_IO_SIZE <= filesize && draw < 0x1_0000_0000_0000_0000
    ensures var r, high := MixedRequest(w, lo, filesize, draw).0, draw / 0x1_0000_0000;
      r.size == SizeAt(k) <==>
        if draw % 32 == 0 || (r.write && draw % 32 == 1) then
          Lower(SEQUENTIAL_BASE, lo, k) <= high < Upper(SEQUENTIAL_BASE, lo, k)
        else
          Lower(RANDOM_BASE, lo, k) <= high < Upper(RANDOM_BASE, lo, k)
  {
    LowBitsOfDraw(draw);
    SizesDiffer(Pick(lo, draw), k);
    ChosenIff(if Choose(draw).sequential then SEQUENTIAL_BASE else RANDOM_BASE, lo, draw / TWO32, k);
  }

  lemma LowBitsOfDraw(draw: nat)
    ensures draw % TWO32 % 32 == draw % 32 && draw % TWO32 % 2 == draw % 2
    ensures draw < 0x1_0000_0000_0000_0000 ==> draw / TWO32 <= UINT32_MAX
  {
    var high, low := draw / TWO32, draw % TWO32;
    assert draw == low + TWO32 * high;
    MultipleTimes(TWO32, high, 32);
    ModPlus(low, TWO32 * high, 32);
    MultipleTimes(TWO32, high, 2);
    ModPlus(low, TWO32 * high, 2);
  }

  /** Where the request of a draw lies and what it leaves of the walks; q is the number of blocks. */
  lemma PlaceOfDraw(w: Walks, lo: nat, filesize: nat, draw: nat, q: nat)
    requires lo < SIZES && MAX_IO_SIZE <= filesize && q > 0
    ensures var (r, w') := MixedRequest(w, lo, filesize, draw);
      && 0 < r.size <= filesize
      && (draw % 32 == 0 && !r.write ==>
        w' == w.(pos2 := r.offset) && r.offset + r.size == if w.pos2 < r.size then filesize else w.pos2)
      && (draw % 32 == 0 && r.write ==>
        w' == w.(pos4 := r.offset) && r.offset + r.size == if w.pos4 < r.size then filesize else w.pos4)
      && (draw % 32 == 1 && r.write ==>
        w' == w.(pos3 := r.offset + r.size) && r.offset == if w.pos3 + r.size > filesize then 0 else w.pos3)
      && (draw % 32 != 0 && !(draw % 32 == 1 && r.write) ==>
        w' == w && (q == filesize / r.size ==> r.offset == draw % q * r.size))
  {
    ChoiceOfDraw(draw, Choose(draw));
    PlaceOfIssue(w, Choose(draw), SizeAt(Pick(lo, draw)), filesize, draw);
  }

  lemma ChoiceOfDraw(draw: nat, c: Choice)
    requires c == Choose(draw)
    ensures draw % 32 == 0 <==> c.sequential && !c.forward
    ensures draw % 32 == 1 && c.write <==> c.sequential && c.forward
  {
    LowBitsOfDraw(draw);
    LastBitOfDraw(draw);
  }

  lemma PlaceOfIssue(w: Walks, c: Choice, size: nat, filesize: nat, draw: nat)
    requires 0 < size <= filesize
    ensures var (r, w') := Issue(w, c, size, filesize, draw);
      && r.size == size && r.write == c.write
      && (c.sequential && c.forward && c.write ==>
        w' == w.(pos3 := r.offset + size) && r.offset == if w.pos3 + size > filesize then 0 else w.pos3)
      && (c.sequential && !c.forward && c.write ==>
        w' == w.(pos4 := r.offset) && r.offset + size == if w.pos4 < size then filesize else w.pos4)
      && (c.sequential && !c.forward && !c.write ==>
        w' == w.(pos2 := r.offset) && r.offset + size == if w.pos2 < size then filesize else w.pos2)
      && (!c.sequential ==> w' == w && r.offset == draw % (filesize / size) * size)
  {
  }

  lemma LastBitOfDraw(draw: nat)
    ensures draw % 32 == 0 ==> draw % 2 == 0
    ensures draw % 32 == 1 ==> draw % 2 == 1
  {
    var k := draw / 32;
    if draw % 32 == 0 {
      Remainder(draw, 2, 16 * k, 0);
    } else if draw % 32 == 1 {
      Remainder(draw, 2, 16 * k, 1);
    }
  }

  predicate OnGrid(p: nat, filesize: nat) {
    p <= filesize && p % SECTOR == 0
  }

  predicate WalksOk(w: Walks, filesize: nat) {
    OnGrid(w.pos1, filesize) && OnGrid(w.pos2, filesize) && OnGrid(w.pos3, filesize) && OnGrid(w.pos4, filesize)
  }

  lemma StrideForward(pos: nat, size: nat, sectors: nat)
    requires 0 < size <= SECTOR * sectors && size % SECTOR == 0 && OnGrid(pos, SECTOR * sectors)
    ensures var (offset, p) := Stride(true, pos, size, SECTOR * sectors);
      Request(offset, size, false).Fits(sectors) && OnGrid(p, SECTOR * sectors)
  {
    ModPlus(pos, size, SECTOR);
    ModPlus(0, size, SECTOR);
  }

  lemma StrideBackward(pos: nat, size: nat, sectors: nat)
    requires 0 < size <= SECTOR * sectors && size % SECTOR == 0 && OnGrid(pos, SECTOR * sectors)
    ensures var (offset, p) := Stride(false, pos, size, SECTOR * sectors);
      Request(offset, size, false).Fits(sectors) && OnGrid(p, SECTOR * sectors)
  {
    var from := if pos < size then SECTOR * sectors else pos;
    assert from % SECTOR == 0;
    ModMinus(from, size, SECTOR);
  }

  /** Whatever the draw, the request is whole sectors inside the file, no smaller than asked
      for, and the walks stay on the grid although sizes change under them. */
  lemma MixedFits(w: Walks, lo: nat, sectors: nat, draw: nat)
    requires lo < SIZES && MAX_IO_SIZE <= SECTOR * sectors && WalksOk(w, SECTOR * sectors)
    ensures var (r, w') := MixedRequest(w, lo, SECTOR * sectors, draw);
      && r.Fits(sectors) && SizeAt(lo) <= r.size <= MAX_IO_SIZE
      && WalksOk(w', SECTOR * sectors)
  {
    var i := Pick(lo, draw);
    SizesGrow(lo, i);
    IssueFits(w, Choose(draw), SizeAt(i), sectors, draw);
  }

  lemma IssueFits(w: Walks, c: Choice, size: nat, sectors: nat, draw: nat)
    requires 0 < size <= SECTOR * sectors && size % SECTOR == 0 && WalksOk(w, SECTOR * sectors)
    ensures var (r, w') := Issue(w, c, size, SECTOR * sectors, draw);
      r.Fits(sectors) && r.size == size && WalksOk(w', SECTOR * sectors)
  {
    if c.sequential {
      if c.forward {
        StrideForward(w.At(c.write, true), size, sectors);
      } else {
        StrideBackward(w.At(c.write, false), size, sectors);
      }
    } else {
      RandomFits(c.write, size, sectors, draw);
    }
  }

  lemma {:induction false} SizesGrow(i: nat, k: nat)
    requires i <= k < SIZES
    ensures SizeAt(i) <= SizeAt(k)
  {
    if i == k {
    } else {
      SizesGrow(i, k - 1);
      assert BLOCKSIZES[k] == 2 * BLOCKSIZES[k - 1];
    }
  }

  /** The requests of a whole run, one per draw. */
  function MixedRun(lo: nat, filesize: nat, draws: seq<nat>): (seq<Request>, Walks)
    requires lo < SIZES && MAX_IO_SIZE <= filesize
  {
    if draws == [] then ([], Walks(0, 0, 0, 0))
    else
      var (rs, w) := MixedRun(lo, filesize, draws[..|draws| - 1]);
      var (r, w') := MixedRequest(w, lo, filesize, draws[|draws| - 1]);
      (rs + [r], w')
  }

  /** Arbitrary draws of 64 bits, whether or not one seed makes them in this order. */
  predicate AreDraws(draws: seq<nat>) {
    forall n | 0 <= n < |draws| :: draws[n] < TWO64
  }

  /** The requests of some run of the mixed workload from its reset. */
  ghost predicate IsMixed(lo: nat, filesize: nat, log: seq<Request>)
    requires lo < SIZES && MAX_IO_SIZE <= filesize
  {
    exists draws :: AreDraws(draws) && log == MixedRun(lo, filesize, draws).0
  }

  lemma MixedRunSnoc(lo: nat, filesize: nat, draws: seq<nat>, draw: nat)
    requires lo < SIZES && MAX_IO_SIZE <= filesize
    ensures var (rs, w) := MixedRun(lo, filesize, draws); var (r, w') := MixedRequest(w, lo, filesize, draw);
      MixedRun(lo, filesize, draws + [draw]) == (rs + [r], w')
  {
    assert (draws + [draw])[..|draws + [draw]| - 1] == draws;
  }

  lemma {:induction false} MixedRunFits(lo: nat, sectors: nat, draws: seq<nat>)
    requires lo < SIZES && MAX_IO_SIZE <= SECTOR * sectors
    ensures var (rs, w) := MixedRun(lo, SECTOR * sectors, draws);
      && |rs| == |draws| && WalksOk(w, SECTOR * sectors)
      && forall n | 0 <= n < |rs| :: rs[n].Fits(sectors) && SizeAt(lo) <= rs[n].size <= MAX_IO_SIZE
  {
    if draws == [] {
    } else {
      var front, draw := draws[..|draws| - 1], draws[|draws| - 1];
      MixedRunFits(lo, sectors, front);
      MixedFits(MixedRun(lo, SECTOR * sectors, front).1, lo, sectors, draw);
    }
  }

  lemma {:induction false} RunPrefix(lo: nat, f: nat, draws: seq<nat>, n: nat)
    requires lo < SIZES && MAX_IO_SIZE <= f && n <= |draws|
    ensures |MixedRun(lo, f, draws).0| == |draws| && MixedRun(lo, f, draws[..n]).0 == MixedRun(lo, f, draws).0[..n]
    decreases |draws|
  {
    if draws == [] {
      assert draws[..0] == [];
    } else {
      var front := draws[..|draws| - 1];
      if n == |draws| {
        RunPrefix(lo, f, front, |front|);
        assert draws[..n] == draws;
      } else {
        RunPrefix(lo, f, front, n);
        assert draws[..n] == front[..n];
      }
    }
  }

  lemma LastRequest(lo: nat, filesize: nat, front: seq<nat>, draw: nat)
    requires lo < SIZES && MAX_IO_SIZE <= filesize
    ensures |MixedRun(lo, filesize, front + [draw]).0| == |front| + 1
    ensures var (r, w) := MixedRequest(MixedRun(lo, filesize, front).1, lo, filesize, draw);
      MixedRun(lo, filesize, front + [draw]).0[|front|] == r && MixedRun(lo, filesize, front + [draw]).1 == w
  {
    RunPrefix(lo, filesize, front, 0);
    MixedRunSnoc(lo, filesize, front, draw);
  }

  /** The n-th request is made of the n-th draw and the walks as the draws before it left them. */
  lemma RequestAt(lo: nat, filesize: nat, draws: seq<nat>, n: nat)
    requires lo < SIZES && MAX_IO_SIZE <= filesize && n < |draws|
    ensures |MixedRun(lo, filesize, draws).0| == |draws|
    ensures var (r, w) := MixedRequest(MixedRun(lo, filesize, draws[..n]).1, lo, filesize, draws[n]);
      MixedRun(lo, filesize, draws).0[n] == r && MixedRun(lo, filesize, draws[..n + 1]).1 == w
  {
    var front, next := draws[..n], draws[..n + 1];
    assert next == front + [draws[n]];
    RunPrefix(lo, filesize, draws, n + 1);
    LastRequest(lo, filesize, front, draws[n]);
    assert MixedRun(lo, filesize, draws).0[n] == MixedRun(lo, filesize, next).0[n];
  }

  /** The draws that make a sequential request in one direction, reading or writing. */
  predicate OfWalk(draw: nat, write: bool, forward: bool) {
    Choose(draw) == Choice(write, true, forward)
  }

  /** Requests that do not belong to a walk leave it where it is. */
  lemma {:induction false} WalkRests(lo: nat, filesize: nat, draws: seq<nat>, a: nat, b: nat, write: bool,
                                     forward: bool)
    requires lo < SIZES && MAX_IO_SIZE <= filesize && a <= b <= |draws|
    requires forall n | a <= n < b :: !OfWalk(draws[n], write, forward)
    ensures MixedRun(lo, filesize, draws[..b]).1.At(write, forward)
      == MixedRun(lo, filesize, draws[..a]).1.At(write, forward)
    decreases b
  {
    if a == b {
    } else {
      WalkRests(lo, filesize, draws, a, b - 1, write, forward);
      RequestAt(lo, filesize, draws, b - 1);
    }
  }

  /** Forward walks are contiguous: each request of a walk begins where the one before it ended,
      unless it would pass the end of the file; then it begins at the start. */
  lemma ForwardContiguous(lo: nat, filesize: nat, draws: seq<nat>, a: nat, b: nat, write: bool)
    requires lo < SIZES && MAX_IO_SIZE <= filesize && a < b < |draws|
    requires OfWalk(draws[a], write, true) && OfWalk(draws[b], write, true)
    requires forall n | a < n < b :: !OfWalk(draws[n], write, true)
    ensures var rs := MixedRun(lo, filesize, draws).0;
      && |rs| == |draws|
      && rs[b].offset == if rs[a].offset + rs[a].size + rs[b].size <= filesize then rs[a].offset + rs[a].size else 0
  {
    RequestAt(lo, filesize, draws, a);
    RequestAt(lo, filesize, draws, b);
    WalkRests(lo, filesize, draws, a + 1, b, write, true);
  }

  /** Backward walks: each request ends where the one before it began, unless there is no room for
      it; then it ends at the end of the file. */
  lemma BackwardContiguous(lo: nat, filesize: nat, draws: seq<nat>, a: nat, b: nat, write: bool)
    requires lo < SIZES && MAX_IO_SIZE <= filesize && a < b < |draws|
    requires OfWalk(draws[a], write, false) && OfWalk(draws[b], write, false)
    requires forall n | a < n < b :: !OfWalk(draws[n], write, false)
    ensures var rs := MixedRun(lo, filesize, draws).0;
      |rs| == |draws| && rs[b].offset + rs[b].size == if rs[b].size <= rs[a].offset then rs[a].offset else filesize
  {
    RequestAt(lo, filesize, draws, a);
    RequestAt(lo, filesize, draws, b);
    WalkRests(lo, filesize, draws, a + 1, b, write, false);
  }

  /** The first request of a walk begins at the start of the file, or ends at its end. */
  lemma WalkBegins(lo: nat, filesize: nat, draws: seq<nat>, b: nat, write: bool, forward: bool)
    requires lo < SIZES && MAX_IO_SIZE <= filesize && b < |draws|
    requires OfWalk(draws[b], write, forward) && forall n | 0 <= n < b :: !OfWalk(draws[n], write, forward)
    ensures var rs := MixedRun(lo, filesize, draws).0;
      |rs| == |draws| && if forward then rs[b].offset == 0 else rs[b].offset + rs[b].size == filesize
  {
    RequestAt(lo, filesize, draws, b);
    WalkRests(lo, filesize, draws, 0, b, write, forward);
    assert draws[..0] == [];
  }

  /** The forward sequential read is dead code: the draws that reach it are all even. */
  lemma {:induction false} NoForwardReads(lo: nat, filesize: nat, draws: seq<nat>)
    requires lo < SIZES && MAX_IO_SIZE <= filesize
    ensures MixedRun(lo, filesize, draws).1.pos1 == 0
    ensures forall draw: nat :: var c := Choose(draw); c.sequential && c.forward ==> c.write
  {
    if draws == [] {
    } else {
      NoForwardReads(lo, filesize, draws[..|draws| - 1]);
    }
  }

  class Mixed {
    const worker: IoWorker
    const lo: nat
    const reqsize: nat
    const randomProb: array<nat>
    const sequentialProb: array<nat>
    var pos1: nat
    var pos2: nat
    var pos3: nat
    var pos4: nat

    /** The draws since the reset and the requests made of them. */
    ghost var draws: seq<nat>
    ghost var history: seq<Request>

    ghost function Walk(): Walks
      reads this
    {
      Walks(pos1, pos2, pos3, pos4)
    }

    /** Thresholds in place, in arrays of their own, and all walks on the grid of the file. */
    ghost predicate Valid()
      reads this, worker`filesize, randomProb, sequentialProb
    {
      && lo < SIZES && SizeAt(lo) >= reqsize && randomProb.Length == SIZES && sequentialProb.Length == SIZES
      && (worker.buf as object) !in {randomProb, sequentialProb}
      && (forall i | lo <= i < SIZES :: randomProb[i] == Threshold(RANDOM_BASE, lo, i))
      && (forall i | lo <= i < SIZES :: sequentialProb[i] == Threshold(SEQUENTIAL_BASE, lo, i))
      && MAX_IO_SIZE <= worker.filesize && worker.filesize % SECTOR == 0
      && WalksOk(Walk(), worker.filesize)
      && AreDraws(draws) && (history, Walk()) == MixedRun(lo, worker.filesize, draws)
    }

    /** The smallest size at least as large as asked for, and the thresholds from there on. */
    constructor (worker: IoWorker, reqsize: nat)
      requires reqsize <= MAX_IO_SIZE
      requires MAX_IO_SIZE <= worker.filesize && worker.filesize % SECTOR == 0
      ensures Valid() && fresh(randomProb) && fresh(sequentialProb)
      ensures this.worker == worker && this.reqsize == reqsize && history == []
      ensures forall i | 0 <= i < lo :: BLOCKSIZES[i] < reqsize
    {
      var i := 0;
      while BLOCKSIZES[i] < reqsize
        invariant i < SIZES && forall k | 0 <= k < i :: BLOCKSIZES[k] < reqsize
        decreases SIZES - i
      {
        i := i + 1;
      }
      this.worker := worker;
      this.lo := i;
      this.reqsize := reqsize;
      pos1, pos2, pos3, pos4 := 0, 0, 0, 0;
      draws, history := [], [];
      randomProb := new nat[SIZES];
      sequentialProb := new nat[SIZES];
      new;
      FillThresholds(randomProb, RANDOM_BASE, lo);
      FillThresholds(sequentialProb, SEQUENTIAL_BASE, lo);
    }

    /** The scan of a size table, as both pickers do it. */
    static method PickSize(prob: array<nat>, lo: nat, draw: nat, ghost base: nat) returns (size: nat)
      requires lo < SIZES && prob.Length == SIZES && base > 0
      requires forall i | lo <= i < SIZES :: prob[i] == Threshold(base, lo, i)
      ensures size == SizeAt(Scan(base, lo, lo, draw))
    {
      var i := lo;
      while i < SIZES - 1
        invariant lo <= i < SIZES && Scan(base, lo, lo, draw) == Scan(base, lo, i, draw)
      {
        if draw < prob[i] {
          return BLOCKSIZES[i];
        }
        i := i + 1;
      }
      return BLOCKSIZES[SIZES - 1];
    }

    /** A forward request: wrap to the start if it would pass the end, then advance. */
    method GoForward(write: bool, iosize: nat) returns (r: Request)
      requires 0 < iosize <= worker.filesize
      modifies this`pos1, this`pos3
      ensures (r, Walk()) == Issue(old(Walk()), Choice(write, true, true), iosize, worker.filesize, 0)
    {
      var pos := if write then pos3 else pos1;
      if pos + iosize > worker.filesize {
        pos := 0;
      }
      r := Request(pos, iosize, write);
      if write {
        pos3 := pos + iosize;
      } else {
        pos1 := pos + iosize;
      }
    }

    /** A backward request: wrap to the end if it would pass the start, then step back. */
    method GoBackward(write: bool, iosize: nat) returns (r: Request)
      requires 0 < iosize <= worker.filesize
      modifies this`pos2, this`pos4
      ensures (r, Walk()) == Issue(old(Walk()), Choice(write, true, false), iosize, worker.filesize, 0)
    {
      var pos := if write then pos4 else pos2;
      if pos < iosize {
        pos := worker.filesize;
      }
      pos := pos - iosize;
      r := Request(pos, iosize, write);
      if write {
        pos4 := pos;
      } else {
        pos2 := pos;
      }
    }

    method FillRequest() returns (r: Request)
      requires Valid()
      modifies this`pos1, this`pos2, this`pos3, this`pos4, this`draws, this`history, worker`seed
      ensures Valid() && history == old(history) + [r]
      ensures worker.seed == Step(old(worker.seed)) && draws == old(draws) + [worker.seed as nat]
      ensures (r, Walk()) == MixedRequest(old(Walk()), lo, worker.filesize, worker.seed as nat)
      ensures r.Fits(worker.filesize / SECTOR) && reqsize <= r.size <= MAX_IO_SIZE
    {
      hide MixedRequest, MixedRun;
      var base := worker.NextRandom();
      MixedRunSnoc(lo, worker.filesize, draws, base as nat);
      r := Dispatch(base as nat);
      draws, history := draws + [base as nat], history + [r];
    }

    method Dispatch(draw: nat) returns (r: Request)
      requires Valid()
      modifies this`pos1, this`pos2, this`pos3, this`pos4
      ensures WalksOk(Walk(), worker.filesize)
      ensures (r, Walk()) == MixedRequest(old(Walk()), lo, worker.filesize, draw)
      ensures r.Fits(worker.filesize / SECTOR) && reqsize <= r.size <= MAX_IO_SIZE
    {
      assert worker.filesize == SECTOR * (worker.filesize / SECTOR);
      MixedFits(Walk(), lo, worker.filesize / SECTOR, draw);
      var low, high := draw % TWO32, draw / TWO32;
      var write := !(4 * low < 3 * UINT32_MAX);
      var sequential := if write then low % 32 <= 1 else low % 32 == 0;
      assert Choose(draw) == Choice(write, sequential, low % 2 == 1);
      if sequential {
        var iosize := PickSize(sequentialProb, lo, high, SEQUENTIAL_BASE);
        if low % 2 == 1 {
          r := GoForward(write, iosize);
        } else {
          r := GoBackward(write, iosize);
        }
      } else {
        var iosize := PickSize(randomProb, lo, high, RANDOM_BASE);
        r := RandomRequest(write, iosize, worker.filesize, draw);
      }
    }
  }

  /** The first loop of the reset accumulates the weights. */
  method AccumulateWeights(factors: array<real>, base: nat, lo: nat) returns (current: real)
    requires factors.Length == SIZES && lo < SIZES && base > 0
    modifies factors
    ensures forall k | lo <= k < SIZES :: factors[k] == Cumulative(base, lo, k)
    ensures current == Cumulative(base, lo, SIZES - 1)
  {
    current := 0.0;
    var i := lo;
    while i < SIZES
      invariant lo <= i <= SIZES
      invariant forall k | lo <= k < i :: factors[k] == Cumulative(base, lo, k)
      invariant i > lo ==> current == Cumulative(base, lo, i - 1)
    {
      current := Weight(base, i);
      if i > lo {
        current := current + factors[i - 1];
      }
      factors[i] := current;
      i := i + 1;
    }
  }

  /** Both loops: the weights are accumulated, then scaled to the draw range. */
  method FillThresholds(prob: array<nat>, base: nat, lo: nat)
    requires prob.Length == SIZES && lo < SIZES && base > 0
    modifies prob
    ensures forall i | lo <= i < SIZES :: prob[i] == Threshold(base, lo, i)
  {
    var factors := new real[SIZES];
    var current := AccumulateWeights(factors, base, lo);
    var i := lo;
    while i < SIZES
      invariant lo <= i <= SIZES
      invariant forall k | i <= k < SIZES :: factors[k] == Cumulative(base, lo, k)
      invariant forall k | lo <= k < i :: prob[k] == Threshold(base, lo, k)
    {
      factors[i] := factors[i] / current;
      ThresholdsGrow(base, lo, i, i);
      prob[i] := (UINT32_MAX as real * factors[i]).Floor;
      i := i + 1;
    }
  }
}
