/** The preparation phase: sequential writes from the start of the file until the limit, which is
    the size of the file, or the time is reached; then the file is cut to what was written. */
module Preparation {
  import opened Arithmetic
  import opened Pattern
  import opened Protocol
  import opened Integrity
  import opened Accounting
  import opened Limits
  import opened Service
  import opened Alarms
  import opened SequentialGenerator

  /** The size of the file. */
  function FileSize(m: Medium): nat {
    SECTOR * |m.disk|
  }

  ghost function Stream(m: Medium, size: nat): nat -> Request
    requires size > 0
  {
    (n: nat) => SequentialRequest(true, size, FileSize(m), n)
  }

  lemma StreamIsFixed(m: Medium, size: nat)
    requires size > 0 && size % SECTOR == 0 && size <= FileSize(m)
    ensures FixedStream(Stream(m, size), size, |m.disk|)
  {
    forall n: nat
      ensures Stream(m, size)(n).Fits(|m.disk|)
    {
      SequentialFits(true, size, |m.disk|, n);
    }
  }

  /** t is where some run of the preparation ends: whatever the schedule and whenever time ran
      out, everything submitted has completed. */
  ghost predicate Ends(total: nat, size: nat, m: Medium, now: nat, es: seq<Event>, t: State)
    requires size > 0
  {
    && Outcome(Start(total, FileSize(m), now, m), es) == Some(t)
    && t.flights == map[] && Limits.Follows(t.log, Stream(m, size))
  }

  /** The first p writes lie end to end from the start of the file. */
  ghost predicate TiledUpTo(t: State, size: nat, p: nat) {
    && p <= |t.log| && p * size <= FileSize(t.medium)
    && forall n | 0 <= n < p :: t.log[n] == Request(n * size, size, true)
  }

  /** All writes lie end to end, and the counter is where they end. */
  ghost predicate Tiled(t: State, size: nat) {
    TiledUpTo(t, size, |t.log|) && t.writeTally.bytes == |t.log| * size
  }

  lemma {:induction false} SumOfWrites(log: seq<Request>, size: nat)
    requires forall n | 0 <= n < |log| :: log[n].size == size && log[n].write
    ensures LogSum(log, Bytes(true)) == |log| * size && LogSum(log, Bytes(false)) == 0
  {
    if log == [] {
    } else {
      SumOfWrites(log[..|log| - 1], size);
      assert |log| * size == (|log| - 1) * size + size;
    }
  }

  lemma WrittenIsSubmitted(total: nat, size: nat, m: Medium, now: nat, es: seq<Event>, t: State)
    requires MediumOk(m) && size > 0 && Ends(total, size, m, now, es, t)
    ensures t.writeTally.bytes == |t.log| * size == t.submitted
  {
    WorkIsConserved(total, FileSize(m), now, m, es, t);
    forall n | 0 <= n < |t.log|
      ensures t.log[n].size == size && t.log[n].write
    {
      assert t.log[n] == Stream(m, size)(n);
    }
    SumOfWrites(t.log, size);
    assert LogSum(t.log, Bytes(true)) == Bytes(true).Counted(t);
    assert LogSum(t.log, Bytes(false)) == Bytes(false).Counted(t);
  }

  lemma SizeIsKept(total: nat, limit: nat, now: nat, m: Medium, es: seq<Event>, t: State)
    requires MediumOk(m) && Outcome(Start(total, limit, now, m), es) == Some(t)
    ensures |t.medium.disk| == |m.disk|
  {
    SoundStart(total, limit, now, m);
    SoundAlways(Start(total, limit, now, m), es, t);
  }

  /** The first pass over the file, on any schedule. */
  lemma FirstPass(total: nat, size: nat, m: Medium, now: nat, es: seq<Event>, t: State, p: nat)
    requires MediumOk(m) && size > 0 && Ends(total, size, m, now, es, t)
    requires p <= |t.log| && p * size <= FileSize(m)
    ensures TiledUpTo(t, size, p)
  {
    SizeIsKept(total, FileSize(m), now, m, es, t);
    forall n | 0 <= n < p
      ensures t.log[n] == Request(n * size, size, true)
    {
      assert t.log[n] == Stream(m, size)(n);
      TimesMonotone(n + 1, p, size);
      SequentialTiles(true, size, FileSize(m), n);
    }
  }

  lemma WithinIsTiled(total: nat, size: nat, m: Medium, now: nat, es: seq<Event>, t: State)
    requires MediumOk(m) && size > 0 && Ends(total, size, m, now, es, t) && t.submitted <= FileSize(m)
    ensures Tiled(t, size)
  {
    WrittenIsSubmitted(total, size, m, now, es, t);
    FirstPass(total, size, m, now, es, t, |t.log|);
  }

  /** However it is scheduled, the preparation writes every byte below its counter once. */
  ghost predicate AlwaysTiles(total: nat, size: nat, m: Medium)
    requires size > 0
  {
    forall now: nat, es: seq<Event>, t: State :: Ends(total, size, m, now, es, t) ==> Tiled(t, size)
  }

  /** The preparation leaves neither holes nor overlaps on any schedule, if and only if a full
      queue of requests fits into the file. */
  lemma AlwaysTilesIff(total: nat, size: nat, m: Medium)
    requires MediumOk(m) && !m.alarm && size > 0 && size % SECTOR == 0 && size <= FileSize(m)
    ensures AlwaysTiles(total, size, m) <==> total * size <= FileSize(m)
  {
    StreamIsFixed(m, size);
    LimitHoldsIff(total, FileSize(m), m, Stream(m, size), size);
    if total * size <= FileSize(m) {
      forall now: nat, es: seq<Event>, t: State | Ends(total, size, m, now, es, t)
        ensures Tiled(t, size)
      {
        assert Outcome(Start(total, FileSize(m), now, m), es).Some?;
        WithinIsTiled(total, size, m, now, es, t);
      }
    } else {
      var es, t := OverrunEnds(total, size, m);
      WrittenIsSubmitted(total, size, m, 0, es, t);
    }
  }

  /** An overrun, drained. */
  lemma OverrunEnds(total: nat, size: nat, m: Medium) returns (es: seq<Event>, t: State)
    requires MediumOk(m) && !m.alarm && size > 0 && size % SECTOR == 0 && size <= FileSize(m)
    requires total * size > FileSize(m)
    ensures Ends(total, size, m, 0, es, t) && t.submitted > FileSize(m) && |t.medium.disk| == |m.disk|
  {
    var s := Start(total, FileSize(m), 0, m);
    StreamIsFixed(m, size);
    var fs, u := Overrun(total, FileSize(m), m, Stream(m, size), size);
    SoundStart(total, FileSize(m), 0, m);
    SoundAlways(s, fs, u);
    forall j | j in u.flights
      ensures u.flights[j].request.write
    {
      assert u.log[u.flights[j].number] == Stream(m, size)(u.flights[j].number);
    }
    var gs;
    gs, t := Drainable(u);
    ServedKeeps(u, gs, t);
    OutcomeConcat(s, fs, gs);
    es := fs + gs;
  }

  /* ---- What is left after the file has been cut ---- */

  /** The watermark is where it began or where some submitted write ends. */
  ghost predicate WatermarkAtEnd(watermark: nat, start: nat, log: seq<Request>) {
    watermark == start || exists n :: 0 <= n < |log| && log[n].offset + log[n].size == watermark
  }

  lemma WatermarkStep(s: State, e: Event, start: nat)
    requires FlightsOk(s) && Enabled(s, e) && WatermarkAtEnd(s.medium.watermark, start, s.log)
    ensures WatermarkAtEnd(Apply(s, e).medium.watermark, start, Apply(s, e).log)
  {
    var t := Apply(s, e);
    if t.medium.watermark != s.medium.watermark {
      var f := s.flights[e.slot];
      assert FlightOk(s.medium.random, |s.medium.disk|, s.now, s.log, f);
      assert t.log[f.number].offset + t.log[f.number].size == t.medium.watermark;
    } else if s.medium.watermark != start {
      var n :| 0 <= n < |s.log| && s.log[n].offset + s.log[n].size == s.medium.watermark;
      assert t.log[n] == s.log[n];
    }
  }

  lemma {:induction false} WatermarkEnds(s: State, es: seq<Event>, t: State)
    requires Sound(s) && Outcome(s, es) == Some(t)
    ensures WatermarkAtEnd(t.medium.watermark, s.medium.watermark, t.log)
    decreases |es|
  {
    if es == [] {
    } else {
      var u := Prior(s, es);
      SoundAlways(s, es[..|es| - 1], u);
      WatermarkEnds(s, es[..|es| - 1], u);
      WatermarkStep(u, es[|es| - 1], s.medium.watermark);
    }
  }

  /** The file cut, or extended with arbitrary content, to a number of bytes. */
  function Cut(m: Medium, bytes: nat, beyond: nat -> Sector): Medium {
    m.(disk := seq(bytes / SECTOR, i requires 0 <= i => SectorAfterCut(m.disk, i, beyond)))
  }

  function SectorAfterCut(disk: seq<Sector>, i: nat, beyond: nat -> Sector): Sector {
    if i < |disk| then disk[i] else beyond(i)
  }

  lemma SectorIsWritten(t: State, size: nat, p: nat, i: nat) returns (n: nat, k: nat)
    requires size > 0 && size % SECTOR == 0 && TiledUpTo(t, size, p) && SECTOR * i < p * size
    ensures n < |t.log| && k < t.log[n].Sectors() && t.log[n].First() + k == i && t.log[n].write
  {
    var blocks := size / SECTOR;
    n, k := i / blocks, i % blocks;
    assert i == n * blocks + k;
    assert n * size == SECTOR * (n * blocks);
    CancelFactor(n, p, size);
  }

  /** No request reaches beyond that place. */
  ghost predicate EndWithin(log: seq<Request>, end: nat) {
    forall n | 0 <= n < |log| :: log[n].offset + log[n].size <= end
  }

  /** With nothing in flight, every sector of the tiling is intact. */
  lemma TilesAreIntact(t: State, size: nat, p: nat)
    requires size > 0 && size % SECTOR == 0 && TiledUpTo(t, size, p)
    requires Deposited(t) && t.flights == map[]
    ensures p * size % SECTOR == 0 && GoodBelow(t.medium, p * size / SECTOR)
  {
    MultipleTimes(size, p, SECTOR);
    forall i | 0 <= i < p * size / SECTOR
      ensures IntactAt(t.medium, i)
    {
      var n, k := SectorIsWritten(t, size, p, i);
      SettledIsIntact(t, n, k);
    }
  }

  lemma CutKeepsIntact(m: Medium, bytes: nat, good: nat, beyond: nat -> Sector)
    requires bytes % SECTOR == 0 && good % SECTOR == 0 && good <= bytes && GoodBelow(m, good / SECTOR)
    ensures var c := Cut(m, bytes, beyond); FileSize(c) == bytes && GoodBelow(c, good / SECTOR)
  {
    var c := Cut(m, bytes, beyond);
    forall i | 0 <= i < good / SECTOR
      ensures IntactAt(c, i)
    {
      assert IntactAt(m, i);
    }
  }

  lemma PreparedState(total: nat, size: nat, m: Medium, now: nat, es: seq<Event>, t: State)
    requires MediumOk(m) && m.watermark == 0 && size > 0 && Ends(total, size, m, now, es, t)
    ensures Deposited(t) && t.medium.watermark % SECTOR == 0
    ensures WatermarkAtEnd(t.medium.watermark, 0, t.log)
  {
    SoundStart(total, FileSize(m), now, m);
    SoundAlways(Start(total, FileSize(m), now, m), es, t);
    WatermarkEnds(Start(total, FileSize(m), now, m), es, t);
  }

  lemma PreparationIsPure(total: nat, size: nat, m: Medium, now: nat, es: seq<Event>, t: State)
    requires MediumOk(m) && !m.alarm && size > 0 && Ends(total, size, m, now, es, t)
    ensures !t.medium.alarm
  {
    forall n | 0 <= n < |t.log|
      ensures t.log[n].write
    {
      assert t.log[n] == Stream(m, size)(n);
    }
    NoFalseAlarm(total, FileSize(m), now, m, es, t);
  }

  lemma CutUpTo(total: nat, size: nat, m: Medium, now: nat, es: seq<Event>, t: State, p: nat, bytes: nat,
                beyond: nat -> Sector)
    requires m.watermark == 0 && !m.alarm && size > 0 && size % SECTOR == 0 && Ends(total, size, m, now, es, t)
    requires TiledUpTo(t, size, p) && EndWithin(t.log, p * size) && bytes % SECTOR == 0 && p * size <= bytes
    ensures var c := Cut(t.medium, bytes, beyond);
      FileSize(c) == bytes && !c.alarm && MediumOk(c) && GoodBelow(c, p * size / SECTOR)
  {
    PreparedState(total, size, m, now, es, t);
    PreparationIsPure(total, size, m, now, es, t);
    TilesAreIntact(t, size, p);
    CutKeepsIntact(t.medium, bytes, p * size, beyond);
  }

  lemma TiledEnds(t: State, size: nat)
    requires Tiled(t, size)
    ensures EndWithin(t.log, |t.log| * size)
  {
    forall n | 0 <= n < |t.log|
      ensures t.log[n].offset + t.log[n].size <= |t.log| * size
    {
      TimesMonotone(n + 1, |t.log|, size);
      assert (n + 1) * size == n * size + size;
    }
  }

  /** After a preparation that tiles, the cut file is exactly what was written: it is intact
      from end to end, and the watermark lies within it. */
  lemma CutIsIntact(total: nat, size: nat, m: Medium, now: nat, es: seq<Event>, t: State, beyond: nat -> Sector)
    requires m.watermark == 0 && !m.alarm && size > 0 && size % SECTOR == 0
    requires Ends(total, size, m, now, es, t) && Tiled(t, size)
    ensures var c := Cut(t.medium, t.writeTally.bytes, beyond);
      FileSize(c) == t.writeTally.bytes && !c.alarm && MediumOk(c) && GoodBelow(c, |c.disk|)
  {
    TiledEnds(t, size);
    MultipleTimes(size, |t.log|, SECTOR);
    CutUpTo(total, size, m, now, es, t, |t.log|, t.writeTally.bytes, beyond);
  }

  lemma SubmittedAtMost(total: nat, size: nat, m: Medium, now: nat, es: seq<Event>, t: State)
    requires MediumOk(m) && size > 0 && Ends(total, size, m, now, es, t)
    ensures |t.log| * size <= FileSize(m) + size
  {
    WrittenIsSubmitted(total, size, m, now, es, t);
    forall n | 0 <= n < |t.log|
      ensures t.log[n].size <= size
    {
      assert t.log[n] == Stream(m, size)(n);
    }
    OverrunBounded(Start(total, FileSize(m), now, m), es, t, size);
  }

  /** One request more than the file has room for, at most; and that one starts over. */
  lemma OnePassAndOne(total: nat, size: nat, m: Medium, now: nat, es: seq<Event>, t: State, q: nat, p: nat)
    requires MediumOk(m) && size > 0 && Ends(total, size, m, now, es, t)
    requires q == FileSize(m) / size > 0 && p == Min(|t.log|, q)
    ensures |t.log| <= q + 1 && p * size <= FileSize(m) && EndWithin(t.log, p * size)
  {
    SubmittedAtMost(total, size, m, now, es, t);
    QuotientIs(FileSize(m), size, q);
    assert (q + 2) * size == (q + 1) * size + size;
    CancelFactor(|t.log|, q + 2, size);
    TimesMonotone(p, q, size);
    forall n | 0 <= n < |t.log|
      ensures t.log[n].offset + t.log[n].size <= p * size
    {
      assert t.log[n] == Stream(m, size)(n);
      EndOfRequest(size, FileSize(m), n, q, p);
    }
  }

  lemma EndOfRequest(size: nat, filesize: nat, n: nat, q: nat, p: nat)
    requires size > 0 && q == filesize / size && n <= q && 0 < p <= q && (n < p || p == q)
    ensures SequentialRequest(true, size, filesize, n).offset + size <= p * size
  {
    Remainder(n, q + 1, 0, n);
    TimesMonotone(if n < q then n + 1 else 1, p, size);
    assert (n + 1) * size == size * n + size;
  }

  /** Where the first pass over a file ends, after n requests at most. */
  function PassEnd(filesize: nat, size: nat, n: nat): nat
    requires size > 0
  {
    Min(n, filesize / size) * size
  }

  /** On any schedule, whether or not a full queue fits: the file ends up as long as what was
      written, up to one request longer than it was; what the first pass wrote is intact, and the
      watermark lies within that. */
  lemma CutIsWritten(total: nat, size: nat, m: Medium, now: nat, es: seq<Event>, t: State, beyond: nat -> Sector)
    requires m.watermark == 0 && !m.alarm && size > 0 && size % SECTOR == 0 && size <= FileSize(m)
    requires Ends(total, size, m, now, es, t)
    ensures var c := Cut(t.medium, t.writeTally.bytes, beyond);
      && FileSize(c) == t.writeTally.bytes == |t.log| * size <= FileSize(m) + size
      && !c.alarm && MediumOk(c) && GoodBelow(c, PassEnd(FileSize(m), size, |t.log|) / SECTOR)
  {
    var q := FileSize(m) / size;
    var p := Min(|t.log|, q);
    QuotientIs(FileSize(m), size, q);
    OnePassAndOne(total, size, m, now, es, t, q, p);
    FirstPass(total, size, m, now, es, t, p);
    WrittenIsSubmitted(total, size, m, now, es, t);
    SubmittedAtMost(total, size, m, now, es, t);
    MultipleTimes(size, |t.log|, SECTOR);
    TimesMonotone(p, |t.log|, size);
    CutUpTo(total, size, m, now, es, t, p, t.writeTally.bytes, beyond);
  }

  /** What a session on the prepared file can build on. */
  lemma CutIsSound(total: nat, size: nat, m: Medium, now: nat, es: seq<Event>, t: State, beyond: nat -> Sector)
    requires m.watermark == 0 && !m.alarm && size > 0 && size % SECTOR == 0 && size <= FileSize(m)
    requires Ends(total, size, m, now, es, t)
    ensures var c := Cut(t.medium, t.writeTally.bytes, beyond);
      !c.alarm && MediumOk(c) && (total * size <= FileSize(m) ==> GoodBelow(c, |c.disk|))
  {
    if total * size <= FileSize(m) {
      AlwaysTilesIff(total, size, m);
      CutIsIntact(total, size, m, now, es, t, beyond);
    } else {
      CutIsWritten(total, size, m, now, es, t, beyond);
    }
  }
}
