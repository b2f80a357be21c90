/** When the mixed workload can raise a false alarm. Its requests lie on two grids of its smallest
    size S: one from the start of the file, for random blocks and forward walks, and one from the
    end, for backward walks. */
module MixedAlarms {
  import opened Arithmetic
  import opened Stamps
  import opened Pattern
  import opened Protocol
  import opened Integrity
  import opened Weights
  import opened RandomGenerator
  import opened MixedGenerator
  import opened Alarms
  import opened Overtaking
  import opened MixedPlans

  /* ---- Where requests can lie ---- */

  /** A multiple of s inside the file lies below its last whole multiple. */
  lemma MultipleInside(a: nat, f: nat, s: nat)
    requires s > 0 && a % s == 0 && a <= f
    ensures a <= f - f % s
  {
    var k, q := a / s, f / s;
    assert a == k * s && f == q * s + f % s && (q + 1) * s == q * s + s;
    CancelFactor(k, q + 1, s);
    TimesMonotone(k, q, s);
  }

  lemma {:induction false} SizesDivide(lo: nat, i: nat)
    requires lo <= i < SIZES
    ensures SizeAt(i) % SizeAt(lo) == 0
  {
    if i == lo {
    } else {
      SizesDivide(lo, i - 1);
      assert SizeAt(i) == SizeAt(i - 1) + SizeAt(i - 1);
      ModPlus(SizeAt(i - 1), SizeAt(i - 1), SizeAt(lo));
    }
  }

  /** On the grid from the start of the file. */
  predicate FromStart(s: nat, f: nat, r: Request)
    requires s > 0
  {
    r.offset % s == 0 && r.offset + r.size <= f - f % s
  }

  /** On the grid from its end. */
  predicate FromEnd(s: nat, f: nat, r: Request)
    requires s > 0
  {
    r.offset % s == f % s && r.offset + r.size <= f
  }

  /** Some draw makes a random read of the first block. */
  ghost predicate CanReadStart(lo: nat, filesize: nat)
    requires lo < SIZES && MAX_IO_SIZE <= filesize
  {
    exists draw: nat :: ReadsStart(lo, filesize, draw)
  }

  predicate ReadsStart(lo: nat, filesize: nat, draw: nat)
    requires lo < SIZES && MAX_IO_SIZE <= filesize
  {
    var c := Choose(draw);
    draw < TWO64 && !c.write && !c.sequential && draw % (filesize / SizeAt(Pick(lo, draw))) == 0
  }

  /** A request of the workload: whole multiples of s on one of the grids; reads from the start
      of the file are those a random draw can make. */
  ghost predicate OnGrids(lo: nat, f: nat, r: Request)
    requires lo < SIZES && MAX_IO_SIZE <= f
  {
    var s := SizeAt(lo);
    && r.size % s == 0 && (FromStart(s, f, r) || FromEnd(s, f, r))
    && (!r.write && r.offset < f % s ==> CanReadStart(lo, f))
  }

  ghost predicate WalksOnGrids(s: nat, f: nat, w: Walks)
    requires s > 0
  {
    && w.pos1 == 0 && (w.pos2 == 0 || w.pos2 % s == f % s)
    && w.pos3 % s == 0 && (w.pos4 == 0 || w.pos4 % s == f % s)
  }

  lemma ForwardOnGrid(pos: nat, size: nat, s: nat, f: nat, write: bool)
    requires s > 0 && size > 0 && size % s == 0 && size <= f && pos % s == 0
    ensures var (offset, p) := Stride(true, pos, size, f); FromStart(s, f, Request(offset, size, write)) && p % s == 0
  {
    var offset := if pos + size > f then 0 else pos;
    ModPlus(offset, size, s);
    MultipleInside(offset + size, f, s);
  }

  lemma BackwardOnGrid(pos: nat, size: nat, s: nat, f: nat, write: bool)
    requires s > 0 && size > 0 && size % s == 0 && size <= f && (pos == 0 || pos % s == f % s) && pos <= f
    ensures var (offset, p) := Stride(false, pos, size, f);
      FromEnd(s, f, Request(offset, size, write)) && p % s == f % s && f % s <= offset
  {
    var from := if pos < size then f else pos;
    ModMinus(from, size, s);
    AtLeastRemainder(from - size, s);
  }

  lemma AtLeastRemainder(a: nat, s: nat)
    requires s > 0
    ensures a % s <= a
  {
    Whole(a, s);
  }

  lemma RandomOnGrid(write: bool, size: nat, s: nat, sectors: nat, draw: nat)
    requires s > 0 && 0 < size <= SECTOR * sectors && size % s == 0 && size % SECTOR == 0
    ensures var r := RandomRequest(write, size, SECTOR * sectors, draw);
      FromStart(s, SECTOR * sectors, r) && (r.offset < SECTOR * sectors % s ==> r.offset == 0)
  {
    var f := SECTOR * sectors;
    var r := RandomRequest(write, size, f, draw);
    RandomFits(write, size, sectors, draw);
    MultipleTimes(size, draw % (f / size), s);
    ModPlus(r.offset, size, s);
    MultipleInside(r.offset + size, f, s);
    if r.offset < s {
      Remainder(r.offset, s, 0, r.offset);
    }
  }

  lemma FirstBlock(size: nat, f: nat, draw: nat)
    requires 0 < size <= f && draw % (f / size) * size == 0
    ensures draw % (f / size) == 0
  {
  }

  lemma MixedOnGrids(w: Walks, lo: nat, sectors: nat, draw: nat)
    requires lo < SIZES && MAX_IO_SIZE <= SECTOR * sectors && draw < TWO64
    requires WalksOk(w, SECTOR * sectors) && WalksOnGrids(SizeAt(lo), SECTOR * sectors, w)
    ensures var (r, w') := MixedRequest(w, lo, SECTOR * sectors, draw);
      OnGrids(lo, SECTOR * sectors, r) && WalksOnGrids(SizeAt(lo), SECTOR * sectors, w')
  {
    var f, s, c, i := SECTOR * sectors, SizeAt(lo), Choose(draw), Pick(lo, draw);
    SizesDivide(lo, i);
    if !c.sequential {
      RandomOnGrid(c.write, SizeAt(i), s, sectors, draw);
      var r := RandomRequest(c.write, SizeAt(i), f, draw);
      if !c.write && r.offset < f % s {
        FirstBlock(SizeAt(i), f, draw);
        assert ReadsStart(lo, f, draw);
      }
    } else if c.forward {
      ForwardOnGrid(w.At(c.write, true), SizeAt(i), s, f, c.write);
    } else {
      BackwardOnGrid(w.At(c.write, false), SizeAt(i), s, f, c.write);
    }
  }

  lemma {:induction false} RunOnGrids(lo: nat, sectors: nat, draws: seq<nat>)
    requires lo < SIZES && MAX_IO_SIZE <= SECTOR * sectors && AreDraws(draws)
    ensures var (rs, w) := MixedRun(lo, SECTOR * sectors, draws);
      WalksOnGrids(SizeAt(lo), SECTOR * sectors, w) && forall n | 0 <= n < |rs| :: OnGrids(lo, SECTOR * sectors, rs[n])
  {
    if draws == [] {
    } else {
      var front, draw := draws[..|draws| - 1], draws[|draws| - 1];
      RunOnGrids(lo, sectors, front);
      MixedRunFits(lo, sectors, front);
      MixedOnGrids(MixedRun(lo, SECTOR * sectors, front).1, lo, sectors, draw);
    }
  }

  /* ---- How far the watermark can go ---- */

  /** The watermark has not moved, or has moved along the grid on which it began. */
  ghost predicate Along(s: nat, f: nat, start: nat, watermark: nat)
    requires s > 0
  {
    || watermark == start
    || (start % s == 0 && watermark % s == 0 && watermark <= f - f % s)
    || (start % s == f % s && watermark % s == f % s && watermark <= f)
  }

  /** Where the watermark can get from a start: to the end of its grid, or nowhere. */
  function Reach(s: nat, f: nat, start: nat): nat
    requires s > 0
  {
    if start % s == 0 then f - f % s else if start % s == f % s then f else start
  }

  lemma AlongIsWithinReach(s: nat, f: nat, start: nat, watermark: nat)
    requires s > 0 && start <= f && Along(s, f, start, watermark)
    ensures watermark <= Reach(s, f, start)
  {
    if start % s == 0 {
      MultipleInside(start, f, s);
    }
  }

  lemma AlongStep(s: nat, f: nat, start: nat, r: Request)
    requires s > 0 && Along(s, f, start, r.offset) && r.size % s == 0 && (FromStart(s, f, r) || FromEnd(s, f, r))
    ensures Along(s, f, start, r.offset + r.size)
  {
    ModPlus(r.offset, r.size, s);
  }

  /** All writes are on the grids. */
  ghost predicate WritesOnGrids(s: nat, f: nat, log: seq<Request>)
    requires s > 0
  {
    forall n | 0 <= n < |log| && log[n].write ::
      log[n].size % s == 0 && (FromStart(s, f, log[n]) || FromEnd(s, f, log[n]))
  }

  lemma WatermarkAlongStep(s: State, e: Event, size: nat, f: nat, start: nat)
    requires FlightsOk(s) && Enabled(s, e) && size > 0 && WritesOnGrids(size, f, s.log)
    requires Along(size, f, start, s.medium.watermark)
    ensures Along(size, f, start, Apply(s, e).medium.watermark)
  {
    if e.Complete? {
      var q := s.flights[e.slot];
      assert FlightOk(s.medium.random, |s.medium.disk|, s.now, s.log, q);
      assert s.log[q.number] == q.request;
      if q.request.write && q.request.offset == s.medium.watermark {
        AlongStep(size, f, start, q.request);
      }
    }
  }

  lemma {:induction false} WatermarkAlong(s: State, es: seq<Event>, t: State, size: nat, f: nat)
    requires Sound(s) && Outcome(s, es) == Some(t) && size > 0 && WritesOnGrids(size, f, t.log)
    ensures Along(size, f, s.medium.watermark, t.medium.watermark)
    decreases |es|
  {
    if es == [] {
    } else {
      var front := es[..|es| - 1];
      var u := Prior(s, es);
      SoundAlways(s, front, u);
      assert u.log <= t.log;
      assert WritesOnGrids(size, f, u.log);
      WatermarkAlong(s, front, u, size, f);
      WatermarkAlongStep(u, es[|es| - 1], size, f, s.medium.watermark);
    }
  }

  /* ---- No alarm where the damage is out of reach ---- */

  /** Every sector that is not intact is beyond the watermark's reach, or at the start of the file,
      outside the grid from its end, where no read can go. */
  ghost predicate OutOfReach(lo: nat, m: Medium)
    requires lo < SIZES && MAX_IO_SIZE <= SECTOR * |m.disk|
  {
    var s, f := SizeAt(lo), SECTOR * |m.disk|;
    forall i | 0 <= i < |m.disk| && !IntactAt(m, i) && SECTOR * i < Reach(s, f, m.watermark) ::
      SECTOR * i < f % s && !CanReadStart(lo, f)
  }

  lemma ReadStaysOut(lo: nat, m: Medium, watermark: nat, r: Request, i: nat)
    requires lo < SIZES && MAX_IO_SIZE <= SECTOR * |m.disk| && OutOfReach(lo, m)
    requires watermark <= Reach(SizeAt(lo), SECTOR * |m.disk|, m.watermark)
    requires OnGrids(lo, SECTOR * |m.disk|, r) && i < |m.disk| && r.offset <= SECTOR * i && !r.write
    ensures SECTOR * i < watermark ==> IntactAt(m, i)
  {
  }

  lemma ReadsStayOut(lo: nat, m: Medium, watermark: nat, log: seq<Request>)
    requires lo < SIZES && MAX_IO_SIZE <= SECTOR * |m.disk| && OutOfReach(lo, m)
    requires watermark <= Reach(SizeAt(lo), SECTOR * |m.disk|, m.watermark)
    requires forall n | 0 <= n < |log| :: OnGrids(lo, SECTOR * |m.disk|, log[n]) && log[n].Fits(|m.disk|)
    ensures !Overtaken(m, watermark, log)
  {
    forall n: nat | n < |log| && !log[n].write
      ensures !Damaged(m.(watermark := watermark), log[n])
    {
      forall i: nat | log[n].First() <= i < log[n].First() + log[n].Sectors()
        ensures !SectorDamaged(m.(watermark := watermark), i)
      {
        SectorOf(log[n], i, |m.disk|);
        ReadStaysOut(lo, m, watermark, log[n], i);
      }
    }
  }

  lemma SectorOf(r: Request, i: nat, sectors: nat)
    requires r.Fits(sectors) && r.First() <= i < r.First() + r.Sectors()
    ensures r.offset <= SECTOR * i && i < sectors
  {
  }

  lemma MixedQuiet(total: nat, lo: nat, limit: nat, now: nat, m: Medium, es: seq<Event>, t: State)
    requires MediumOk(m) && !m.alarm && lo < SIZES && MAX_IO_SIZE <= SECTOR * |m.disk|
    requires Outcome(Start(total, limit, now, m), es) == Some(t) && IsMixed(lo, SECTOR * |m.disk|, t.log)
    requires total <= 1 || OutOfReach(lo, m)
    ensures !t.medium.alarm
  {
    if total <= 1 {
      NoFalseAlarm(total, limit, now, m, es, t);
    } else {
      var s, f := Start(total, limit, now, m), SECTOR * |m.disk|;
      var draws :| AreDraws(draws) && t.log == MixedRun(lo, f, draws).0;
      RunOnGrids(lo, |m.disk|, draws);
      MixedRunFits(lo, |m.disk|, draws);
      SoundStart(total, limit, now, m);
      WatermarkAlong(s, es, t, SizeAt(lo), f);
      AlongIsWithinReach(SizeAt(lo), f, m.watermark, t.medium.watermark);
      AlarmNeeds(s, es, t);
      ReadsStayOut(lo, m, t.medium.watermark, t.log);
    }
  }

  /* ---- An alarm where it is within reach ---- */

  /** The requests that lead to a read of the byte and the read itself. */
  ghost predicate ReadPlanned(lo: nat, f: nat, before: seq<Request>, r: Request, w: Walks, byte: nat)
    requires lo < SIZES && MAX_IO_SIZE <= f
  {
    && Runs(lo, f, before + [r], w) && w.pos3 == 0 && w.pos4 == 0
    && (forall k | 0 <= k < |before| :: !before[k].write) && !r.write
    && r.offset <= byte < r.offset + r.size
  }

  lemma {:induction false} DownReads(s: nat, f: nat, n: nat)
    requires Span(n, s) <= f
    ensures forall k | 0 <= k < |Down(false, s, f, n)| :: !Down(false, s, f, n)[k].write
  {
    if n == 0 {
    } else {
      DownReads(s, f, n - 1);
    }
  }

  /** Backward sequential reads reach every byte of the grid from the end of the file. */
  lemma ReadFromEnd(lo: nat, f: nat, byte: nat) returns (before: seq<Request>, r: Request, w: Walks)
    requires lo < SIZES && MAX_IO_SIZE <= f && f % SizeAt(lo) <= byte < f
    ensures ReadPlanned(lo, f, before, r, w, byte)
  {
    var s := SizeAt(lo);
    var n := (f - 1 - byte) / s + 1;
    StepsDown(f, s, byte, n);
    ReadsDown(lo, f, n, s);
    before, r, w := Down(false, s, f, n - 1), Request(f - Span(n, s), s, false), Walks(0, DownTo(0, s, f, n), 0, 0);
    DownReads(s, f, n - 1);
  }

  lemma StepsDown(f: nat, s: nat, byte: nat, n: nat)
    requires s > 0 && f % s <= byte < f && n == (f - 1 - byte) / s + 1
    ensures Span(n, s) <= f && f - Span(n, s) <= byte < f - Span(n, s) + s
  {
    Whole(f, s);
    NextMultiple(f - 1 - byte, n - 1, f / s, s);
    Whole(f - 1 - byte, s);
    SpanIs(n, s);
    SpanIs(n - 1, s);
  }

  lemma FirstBlockRead(lo: nat, f: nat, draw: nat, w: Walks)
    requires lo < SIZES && MAX_IO_SIZE <= f && ReadsStart(lo, f, draw)
    ensures MixedRequest(w, lo, f, draw) == (Request(0, SizeAt(Pick(lo, draw)), false), w)
  {
  }

  /** A random read of the first block reaches the bytes before that grid. */
  lemma ReadFromStart(lo: nat, f: nat, byte: nat) returns (before: seq<Request>, r: Request, w: Walks)
    requires lo < SIZES && MAX_IO_SIZE <= f && CanReadStart(lo, f) && byte < SizeAt(lo)
    ensures ReadPlanned(lo, f, before, r, w, byte)
  {
    var draw: nat :| ReadsStart(lo, f, draw);
    SizesGrow(lo, Pick(lo, draw));
    before, r, w := [], Request(0, SizeAt(Pick(lo, draw)), false), Walks(0, 0, 0, 0);
    RunsNothing(lo, f);
    FirstBlockRead(lo, f, draw, w);
    RunsOneMore(lo, f, [], w, draw);
  }

  /** Writes that carry the watermark past a byte within its reach. */
  lemma WritePlan(lo: nat, f: nat, rs: seq<Request>, w: Walks, start: nat, byte: nat)
    returns (after: seq<Request>, w': Walks)
    requires lo < SIZES && MAX_IO_SIZE <= f && Runs(lo, f, rs, w) && w.pos3 == 0 && w.pos4 == 0
    requires start <= byte < Reach(SizeAt(lo), f, start)
    ensures Runs(lo, f, rs + after, w') && byte < Advanced(start, after)
  {
    var s := SizeAt(lo);
    if start % s == 0 {
      var n, a := StepsUp(f, s, start, byte);
      WritesUp(lo, f, rs, w, n, s);
      UpAdvances(s, n, a);
      after, w' := Up(s, n), w.(pos3 := Span(n, s));
    } else {
      var q, c, p := StepsInSweeps(f, s, start, byte);
      w' := WritesInSweeps(lo, f, rs, w, q, p, s);
      SweepsAdvance(s, f, q, p, c, start);
      after := Sweeps(s, f, q, p);
    }
  }

  lemma StepsUp(f: nat, s: nat, start: nat, byte: nat) returns (n: nat, a: nat)
    requires s > 0 && start % s == 0 && start <= byte < f - f % s
    ensures Span(n, s) <= f && byte < Span(n, s) && start == Span(a, s) && a < n
  {
    n, a := byte / s + 1, start / s;
    Whole(f, s);
    NextMultiple(byte, n - 1, f / s, s);
    Whole(start, s);
    SpanIs(n, s);
    SpanIs(a, s);
    CancelFactor(a, n, s);
  }

  /** The distance between two numbers with the same remainder. */
  lemma SameRemainder(f: nat, start: nat, s: nat)
    requires s > 0 && start % s == f % s && start <= f
    ensures (f - start) / s * s == f - start && (f - start) / s <= f / s
  {
    var k, q := start / s, f / s;
    Whole(start, s);
    Whole(f, s);
    SameRemainderNumbers(f, start, s, q, k);
  }

  lemma SameRemainderNumbers(f: nat, start: nat, s: nat, q: nat, k: nat)
    requires s > 0 && start <= f && f - start == q * s - k * s
    ensures (f - start) / s * s == f - start && (f - start) / s <= q
  {
    if k > q {
      TimesMonotone(q, k, s);
      Remainder(f - start, s, 0, 0);
    } else {
      assert (q - k) * s == q * s - k * s;
      Remainder(f - start, s, q - k, 0);
    }
  }

  lemma StepsInSweeps(f: nat, s: nat, start: nat, byte: nat) returns (q: nat, c: nat, p: nat)
    requires s > 0 && start % s == f % s && start <= byte < f
    ensures Span(q, s) <= f < Span(q, s) + s && p <= c <= q && Span(c, s) <= f && start == f - Span(c, s)
    ensures Span(c - p, s) < f - byte
  {
    q, c, p := f / s, (f - start) / s, (byte - start) / s + 1;
    Whole(f, s);
    SameRemainder(f, start, s);
    NextMultiple(byte - start, p - 1, c, s);
    SpanIs(q, s);
    SpanIs(c, s);
    SpanIs(p, s);
    SpanParts(c - p, p, s);
  }

  lemma {:induction false} SpanParts(a: nat, b: nat, s: nat)
    ensures Span(a + b, s) == Span(a, s) + Span(b, s)
  {
    if b == 0 {
    } else {
      SpanParts(a, b - 1, s);
    }
  }

  /** What a run of the workload has submitted so far is a run of the workload. */
  lemma PrefixIsMixed(lo: nat, f: nat, rs: seq<Request>, w: Walks, n: nat)
    requires lo < SIZES && MAX_IO_SIZE <= f && Runs(lo, f, rs, w) && n <= |rs|
    ensures IsMixed(lo, f, rs[..n])
  {
    var draws :| AreDraws(draws) && MixedRun(lo, f, draws) == (rs, w);
    RunPrefix(lo, f, draws, |draws|);
    RunPrefix(lo, f, draws, n);
    assert AreDraws(draws[..n]);
  }

  lemma RunIsMakeable(lo: nat, sectors: nat, rs: seq<Request>, w: Walks)
    requires lo < SIZES && MAX_IO_SIZE <= SECTOR * sectors && Runs(lo, SECTOR * sectors, rs, w)
    ensures Makeable(rs, sectors, MAX_IO_SIZE)
  {
    var draws :| AreDraws(draws) && MixedRun(lo, SECTOR * sectors, draws) == (rs, w);
    MixedRunFits(lo, sectors, draws);
  }

  lemma MakeableParts(a: seq<Request>, r: Request, b: seq<Request>, sectors: nat, cap: nat)
    requires Makeable(a + [r] + b, sectors, cap)
    ensures Makeable(a, sectors, cap) && r.Fits(sectors) && r.size <= cap && Makeable(b, sectors, cap)
  {
    var rs := a + [r] + b;
    assert rs[|a|] == r;
    assert forall k | 0 <= k < |a| :: rs[k] == a[k];
    assert forall k | 0 <= k < |b| :: rs[|a| + 1 + k] == b[k];
  }

  /** Some run of the mixed workload on this queue ends in an alarm. */
  lemma MixedAlarm(total: nat, lo: nat, m: Medium, i: nat) returns (limit: nat, es: seq<Event>, t: State)
    requires MediumOk(m) && !m.alarm && total >= 2 && lo < SIZES && MAX_IO_SIZE <= SECTOR * |m.disk|
    requires i < |m.disk| && !IntactAt(m, i) && SECTOR * i < Reach(SizeAt(lo), SECTOR * |m.disk|, m.watermark)
    requires SECTOR * |m.disk| % SizeAt(lo) <= SECTOR * i || CanReadStart(lo, SECTOR * |m.disk|)
    ensures Outcome(Start(total, limit, 0, m), es) == Some(t) && t.medium.alarm && IsMixed(lo, SECTOR * |m.disk|, t.log)
  {
    var f := SECTOR * |m.disk|;
    assert m.watermark <= SECTOR * i;
    var before, r, w;
    if f % SizeAt(lo) <= SECTOR * i {
      before, r, w := ReadFromEnd(lo, f, SECTOR * i);
    } else {
      before, r, w := ReadFromStart(lo, f, SECTOR * i);
    }
    var after, w' := WritePlan(lo, f, before + [r], w, m.watermark, SECTOR * i);
    RunIsMakeable(lo, |m.disk|, before + [r] + after, w');
    MakeableParts(before, r, after, |m.disk|, MAX_IO_SIZE);
    var n;
    limit, es, t, n := OvertakenRead(total, m, before, r, after, i, MAX_IO_SIZE);
    PrefixIsMixed(lo, f, before + [r] + after, w', n);
  }

  /** No run of the mixed workload on a queue of this depth raises an alarm, on any schedule, with
      any limit and whatever is drawn. */
  ghost predicate MixedNeverAlarms(total: nat, lo: nat, m: Medium)
    requires lo < SIZES && MAX_IO_SIZE <= SECTOR * |m.disk|
  {
    forall limit: nat, now: nat, es: seq<Event> ::
      var t := Outcome(Start(total, limit, now, m), es);
      t.Some? && IsMixed(lo, SECTOR * |m.disk|, t.value.log) ==> !t.value.medium.alarm
  }

  /** For arbitrary sequences of draws: the mixed workload never raises a false alarm if and only if
      the queue has a single slot or all damage is out of reach. */
  lemma MixedQuietIff(total: nat, lo: nat, m: Medium)
    requires MediumOk(m) && !m.alarm && lo < SIZES && MAX_IO_SIZE <= SECTOR * |m.disk|
    ensures MixedNeverAlarms(total, lo, m) <==> total <= 1 || OutOfReach(lo, m)
  {
    if total <= 1 || OutOfReach(lo, m) {
      forall limit: nat, now: nat, es: seq<Event> |
        Outcome(Start(total, limit, now, m), es).Some?
        && IsMixed(lo, SECTOR * |m.disk|, Outcome(Start(total, limit, now, m), es).value.log)
        ensures !Outcome(Start(total, limit, now, m), es).value.medium.alarm
      {
        MixedQuiet(total, lo, limit, now, m, es, Outcome(Start(total, limit, now, m), es).value);
      }
    } else {
      var i :| 0 <= i < |m.disk| && !IntactAt(m, i) && SECTOR * i < Reach(SizeAt(lo), SECTOR * |m.disk|, m.watermark)
        && !(SECTOR * i < SECTOR * |m.disk| % SizeAt(lo) && !CanReadStart(lo, SECTOR * |m.disk|));
      var limit, es, t := MixedAlarm(total, lo, m, i);
      assert Outcome(Start(total, limit, 0, m), es).Some?;
    }
  }

  lemma SectorGrid(s: nat, f: nat, sectors: nat, watermark: nat)
    requires s == SECTOR && f == SECTOR * sectors && watermark % SECTOR == 0
    ensures f % s == 0 && Reach(s, f, watermark) == f
  {
  }

  /** With request sizes from one sector up, as by default, the file must be intact throughout. */
  lemma SectorsQuietIff(total: nat, m: Medium)
    requires MediumOk(m) && !m.alarm && MAX_IO_SIZE <= SECTOR * |m.disk|
    ensures MixedNeverAlarms(total, 0, m) <==> total <= 1 || GoodBelow(m, |m.disk|)
  {
    MixedQuietIff(total, 0, m);
    SectorGrid(SizeAt(0), SECTOR * |m.disk|, |m.disk|, m.watermark);
  }
}
