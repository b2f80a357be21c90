/** Reads and writes that each cover the whole file: when such a run can raise a false alarm. Only
    their order matters, so the condition is exact for any one sequence of them. */
module OneBlock {
  import opened Arithmetic
  import opened Pattern
  import opened Protocol
  import opened Integrity
  import opened Limits
  import opened Service
  import opened Alarms
  import opened MixedAlarms
  import opened Overtaking

  function Block(m: Medium, write: bool): Request {
    Request(0, SECTOR * |m.disk|, write)
  }

  ghost function Blockwise(m: Medium, writes: nat -> bool): nat -> Request {
    (n: nat) => Block(m, writes(n))
  }

  lemma BlockFits(m: Medium, write: bool)
    requires m.disk != []
    ensures Block(m, write).Fits(|m.disk|)
  {
    MultipleTimes(SECTOR, |m.disk|, SECTOR);
  }

  lemma BlocksFit(m: Medium, writes: nat -> bool)
    requires m.disk != []
    ensures FixedStream(Blockwise(m, writes), SECTOR * |m.disk|, |m.disk|)
  {
    var stream := Blockwise(m, writes);
    forall n: nat
      ensures stream(n).size == SECTOR * |m.disk| && stream(n).Fits(|m.disk|)
    {
      BlockFits(m, writes(n));
    }
  }

  /** Before the first k requests all go in one direction the other one comes. */
  ghost predicate TurnsAt(writes: nat -> bool, k: nat) {
    0 < k && writes(k) != writes(0) && forall n | 0 <= n < k :: writes(n) == writes(0)
  }

  /** Some read and some write can be in flight together before any write is complete: the first
      request that differs from the one before it is a write, or finds a slot never used. */
  ghost predicate Overlaps(total: nat, writes: nat -> bool) {
    exists k: nat :: TurnsAt(writes, k) && (writes(0) ==> k < total)
  }

  /* ---- No alarm where they do not overlap ---- */

  /** The state in which submission k is made. */
  lemma {:induction false} SplitAt(s: State, es: seq<Event>, t: State, k: nat)
    returns (front: seq<Event>, u: State, rest: seq<Event>)
    requires Outcome(s, es) == Some(t) && |s.log| <= k < |t.log|
    ensures Outcome(s, front) == Some(u) && Outcome(u, rest) == Some(t)
    ensures |u.log| == k && u.ready != [] && !u.medium.alarm
    decreases |es|
  {
    var v := Prior(s, es);
    var e := es[|es| - 1];
    if |v.log| > k {
      front, u, rest := SplitAt(s, es[..|es| - 1], v, k);
      OutcomeSnoc(u, rest, e);
      rest := rest + [e];
    } else {
      front, u, rest := es[..|es| - 1], v, [e];
      OutcomeSnoc(v, [], e);
      assert [] + [e] == [e];
    }
  }

  /** Fewer flights than numbers leave a number free. */
  lemma {:induction false} FreeNumber(flights: map<nat, Flight>, k: nat) returns (n: nat)
    requires |flights| < k
    ensures n < k && forall j | j in flights :: flights[j].number != n
    decreases k
  {
    if i :| i in flights && flights[i].number == k - 1 {
      var others := map j | j in flights && flights[j].number != k - 1 :: flights[j];
      assert others.Keys <= flights.Keys - {i};
      SmallerSet(others.Keys, flights.Keys, i);
      n := FreeNumber(others, k - 1);
      forall j | j in flights
        ensures flights[j].number != n
      {
        if j in others {
          assert others[j] == flights[j];
        }
      }
    } else {
      n := k - 1;
    }
  }

  lemma {:induction false} SubsetSize(a: set<nat>, b: set<nat>)
    requires a <= b
    ensures |a| <= |b|
  {
    if a == {} {
    } else {
      var x :| x in a;
      SubsetSize(a - {x}, b - {x});
    }
  }

  lemma SmallerSet(a: set<nat>, b: set<nat>, x: nat)
    requires a <= b - {x} && x in b
    ensures |a| < |b|
  {
    SubsetSize(a, b - {x});
  }

  /** When a slot is used again some write has finished, and that covered the file. */
  lemma IntactOnReuse(u: State, m: Medium)
    requires Sound(u) && u.ready != [] && u.total <= |u.log| && |u.medium.disk| == |m.disk|
    requires forall n | 0 <= n < |u.log| :: u.log[n] == Block(m, true)
    ensures GoodBelow(u.medium, |m.disk|)
  {
    assert |u.flights| < |u.log|;
    var n := FreeNumber(u.flights, |u.log|);
    forall i | 0 <= i < |m.disk|
      ensures IntactAt(u.medium, i)
    {
      assert u.log[n].First() == 0 && u.log[n].Sectors() == |m.disk|;
      SettledIsIntact(u, n, i);
    }
  }

  lemma WritesFetchNothing(u: State)
    requires FlightsOk(u) && forall n | 0 <= n < |u.log| :: u.log[n].write
    ensures FetchedOk(u, u.medium)
  {
    forall j | j in u.flights
      ensures u.flights[j].request.write
    {
      assert FlightOk(u.medium.random, |u.medium.disk|, u.now, u.log, u.flights[j]);
      assert u.log[u.flights[j].number].write;
    }
  }

  /** After more writes than slots reads find the file intact. */
  lemma QuietAfterReuse(s: State, es: seq<Event>, t: State, m: Medium, k: nat)
    requires Sound(s) && s.log == [] && Outcome(s, es) == Some(t) && s.total <= k < |t.log| && s.medium == m
    requires forall n | 0 <= n < k :: t.log[n] == Block(m, true)
    ensures !t.medium.alarm
  {
    var front, u, rest := SplitAt(s, es, t, k);
    SoundAlways(s, front, u);
    SoundAlways(u, rest, t);
    assert u.log <= t.log;
    IntactOnReuse(u, m);
    WritesFetchNothing(u);
    QuietInside(u, rest, t, |m.disk|);
  }

  lemma BlocksOnGrid(m: Medium, f: nat, log: seq<Request>)
    requires f == SECTOR * |m.disk| > 0 && forall n | 0 <= n < |log| :: log[n] == Block(m, log[n].write)
    ensures WritesOnGrids(f, f, log)
  {
    assert f % f == 0;
  }

  lemma StaysInside(f: nat, start: nat, watermark: nat)
    requires 0 < start <= f && Along(f, f, start, watermark)
    ensures watermark <= start
  {
    if start < f {
      assert start % f == start;
    }
  }

  /** A watermark inside the file stays where it is. */
  lemma QuietInsideFile(s: State, es: seq<Event>, t: State, m: Medium)
    requires Sound(s) && s.flights == map[] && !s.medium.alarm && s.medium == m && m.watermark > 0
    requires Outcome(s, es) == Some(t) && forall n | 0 <= n < |t.log| :: t.log[n] == Block(m, t.log[n].write)
    ensures !t.medium.alarm
  {
    BlocksOnGrid(m, SECTOR * |m.disk|, t.log);
    WatermarkAlong(s, es, t, SECTOR * |m.disk|, SECTOR * |m.disk|);
    StaysInside(SECTOR * |m.disk|, m.watermark, t.medium.watermark);
    QuietInside(s, es, t, m.watermark / SECTOR);
  }

  /** The requests of a run, in this order. */
  ghost predicate InOrder(log: seq<Request>, m: Medium, writes: nat -> bool) {
    forall n | 0 <= n < |log| :: log[n] == Block(m, writes(n))
  }

  /** A run of requests in one direction, or one whose first turn comes too late. */
  lemma QuietInOrder(total: nat, limit: nat, now: nat, m: Medium, writes: nat -> bool, es: seq<Event>, t: State)
    requires MediumOk(m) && !m.alarm && Outcome(Start(total, limit, now, m), es) == Some(t)
    requires InOrder(t.log, m, writes) && !Overlaps(total, writes)
    ensures !t.medium.alarm
  {
    if k: nat :| k < |t.log| && writes(k) != writes(0) {
      var first := FirstTurn(writes, k);
      SoundStart(total, limit, now, m);
      QuietAfterReuse(Start(total, limit, now, m), es, t, m, first);
    } else {
      assert forall n | 0 <= n < |t.log| :: t.log[n].write == writes(0);
      NoFalseAlarm(total, limit, now, m, es, t);
    }
  }

  lemma {:induction false} FirstTurn(writes: nat -> bool, k: nat) returns (first: nat)
    requires writes(k) != writes(0)
    ensures first <= k && TurnsAt(writes, first)
  {
    if n: nat :| n < k && writes(n) != writes(0) {
      first := FirstTurn(writes, n);
    } else {
      first := k;
    }
  }

  /* ---- An alarm where they do ---- */

  /** Reads, and then a write that completes before the last of them. */
  lemma ReadsFirst(total: nat, m: Medium, writes: nat -> bool, k: nat, i: nat)
    returns (limit: nat, es: seq<Event>, t: State)
    requires MediumOk(m) && !m.alarm && m.watermark == 0 && i < |m.disk| && !IntactAt(m, i) && total >= 2
    requires TurnsAt(writes, k) && !writes(0)
    ensures Outcome(Start(total, limit, 0, m), es) == Some(t) && t.medium.alarm && InOrder(t.log, m, writes)
  {
    BlocksFit(m, writes);
    var before, r, w := seq(k - 1, n requires 0 <= n < k - 1 => Block(m, false)), Block(m, false), Block(m, true);
    assert Blockwise(m, writes)(0) == r && Blockwise(m, writes)(k) == w;
    assert Advanced(0, []) == 0 && [w][..0] == [];
    var n;
    limit, es, t, n := OvertakenRead(total, m, before, r, [w], i, SECTOR * |m.disk|);
    var all := before + [r] + [w];
    assert forall n | 0 <= n < |all| :: all[n] == Block(m, writes(n));
  }

  /** A burst of k requests that leaves room for one more. */
  lemma RoomyBurst(total: nat, m: Medium, stream: nat -> Request, size: nat, k: nat) returns (limit: nat, v: State)
    requires MediumOk(m) && !m.alarm && FixedStream(stream, size, |m.disk|) && 0 < k < total
    ensures Outcome(Start(total, limit, 0, m), Burst(m, stream, k)) == Some(v) && Sound(v)
    ensures Roomy(v, size, size) && v.medium == m && |v.log| == k && Follows(v.log, stream)
  {
    limit := k * size + size;
    TimesMonotone(k - 1, k, size);
    v := BurstRuns(total, limit, m, stream, size, k);
    SoundStart(total, limit, 0, m);
    SoundAlways(Start(total, limit, 0, m), Burst(m, stream, k), v);
  }

  /** Writes that fill the queue but for one slot, and a read that fetches before any of them is
      moved; then one of the writes completes, and then the read. */
  lemma WritesFirst(total: nat, m: Medium, writes: nat -> bool, k: nat, i: nat)
    returns (limit: nat, es: seq<Event>, t: State)
    requires MediumOk(m) && !m.alarm && m.watermark == 0 && i < |m.disk| && !IntactAt(m, i)
    requires TurnsAt(writes, k) && writes(0) && k < total
    ensures Outcome(Start(total, limit, 0, m), es) == Some(t) && t.medium.alarm && InOrder(t.log, m, writes)
  {
    BlocksFit(m, writes);
    var v;
    limit, v := RoomyBurst(total, m, Blockwise(m, writes), SECTOR * |m.disk|, k);
    BlockFits(m, false);
    assert v.log[0] == Blockwise(m, writes)(0);
    es, t := OvertakenByWrite(Start(total, limit, 0, m), Burst(m, Blockwise(m, writes), k), v, m, i);
    WritesThenRead(m, writes, v.log, t.log);
  }

  lemma WritesThenRead(m: Medium, writes: nat -> bool, front: seq<Request>, log: seq<Request>)
    requires Follows(front, Blockwise(m, writes)) && TurnsAt(writes, |front|) && writes(0)
    requires log == front + [Block(m, false)]
    ensures InOrder(log, m, writes)
  {
    forall n | 0 <= n < |log|
      ensures log[n] == Block(m, writes(n))
    {
      if n < |front| {
        assert front[n] == Blockwise(m, writes)(n);
      }
    }
  }

  /** Some write waits in a slot with the sector still to be moved. */
  lemma WaitingWrite(v: State, m: Medium, i: nat) returns (j: nat)
    requires Sound(v) && v.medium == m && i < |m.disk| && !IntactAt(m, i) && v.log != [] && v.log[0] == Block(m, true)
    ensures j in v.flights && v.flights[j].request == Block(m, true)
  {
    assert v.log[0].First() == 0 && v.log[0].Sectors() == |m.disk|;
    assert Outstanding(v, 0, i) by {
      if !Outstanding(v, 0, i) {
        SettledIsIntact(v, 0, i);
      }
    }
    j :| j in v.flights && v.flights[j].number == 0 && i !in v.flights[j].moved;
    assert FlightOk(v.medium.random, |v.medium.disk|, v.now, v.log, v.flights[j]);
  }

  lemma OvertakenByWrite(s: State, es: seq<Event>, v: State, m: Medium, i: nat) returns (fs: seq<Event>, t: State)
    requires Outcome(s, es) == Some(v) && Sound(v) && v.medium == m && m.watermark == 0
    requires Block(m, false).Fits(|m.disk|)
    requires Roomy(v, SECTOR * |m.disk|, SECTOR * |m.disk|) && v.log != [] && v.log[0] == Block(m, true)
    requires i < |m.disk| && !IntactAt(m, i)
    ensures Outcome(s, fs) == Some(t) && t.medium.alarm && t.log == v.log + [Block(m, false)]
  {
    var j := WaitingWrite(v, m, i);
    var gs, u := EarlyRead(v, Block(m, false), SECTOR * |m.disk|, SECTOR * |m.disk|);
    OutcomeConcat(s, es, gs);
    var hs, w := FinishOne(u, j);
    ServedKeeps(u, hs, w);
    OutcomeConcat(s, es + gs, hs);
    StillFetched(v, u, w, v.ready[0], j, m);
    fs, t := EndInAlarm(s, es + gs + hs, w, v.ready[0], m, i);
  }

  lemma StillFetched(v: State, u: State, w: State, h: nat, j: nat, m: Medium)
    requires v.medium == m && m.watermark == 0 && j in v.flights && h !in v.flights
    requires v.flights[j].request == Block(m, true) && ReadEarly(v, u, h, Block(m, false)) && FinishedOne(u, w, j)
    ensures AllFetched(w, h, m.disk) && w.flights[h].request == Block(m, false)
    ensures w.medium.watermark == SECTOR * |m.disk| && !w.medium.alarm
  {
    assert u.flights[j] == v.flights[j] && w.flights[h] == u.flights[h];
  }

  /* ---- The condition ---- */

  ghost predicate QuietInAllOrders(total: nat, m: Medium, writes: nat -> bool) {
    forall limit: nat, now: nat, es: seq<Event> ::
      var t := Outcome(Start(total, limit, now, m), es);
      t.Some? && InOrder(t.value.log, m, writes) ==> !t.value.medium.alarm
  }

  lemma QuietRun(total: nat, limit: nat, now: nat, m: Medium, writes: nat -> bool, es: seq<Event>, t: State)
    requires MediumOk(m) && !m.alarm && Outcome(Start(total, limit, now, m), es) == Some(t) && InOrder(t.log, m, writes)
    requires total <= 1 || GoodBelow(m, |m.disk|) || m.watermark > 0 || !Overlaps(total, writes)
    ensures !t.medium.alarm
  {
    if total <= 1 || GoodBelow(m, |m.disk|) {
      NoFalseAlarm(total, limit, now, m, es, t);
    } else if m.watermark > 0 {
      SoundStart(total, limit, now, m);
      QuietInsideFile(Start(total, limit, now, m), es, t, m);
    } else {
      QuietInOrder(total, limit, now, m, writes, es, t);
    }
  }

  /** Requests that each cover the file, in one given order of reads and writes: no schedule raises
      an alarm if and only if there is one slot, or the file is intact, or its watermark has been
      moved, or a read and a write never overlap before the first write is complete. */
  lemma OneBlockQuietIff(total: nat, m: Medium, writes: nat -> bool)
    requires MediumOk(m) && !m.alarm
    ensures QuietInAllOrders(total, m, writes)
      <==> total <= 1 || GoodBelow(m, |m.disk|) || m.watermark > 0 || !Overlaps(total, writes)
  {
    if total <= 1 || GoodBelow(m, |m.disk|) || m.watermark > 0 || !Overlaps(total, writes) {
      forall limit: nat, now: nat, es: seq<Event> |
        Outcome(Start(total, limit, now, m), es).Some?
        && InOrder(Outcome(Start(total, limit, now, m), es).value.log, m, writes)
        ensures !Outcome(Start(total, limit, now, m), es).value.medium.alarm
      {
        QuietRun(total, limit, now, m, writes, es, Outcome(Start(total, limit, now, m), es).value);
      }
    } else {
      var limit, es, t := OneBlockAlarm(total, m, writes);
      assert Outcome(Start(total, limit, 0, m), es).Some?;
    }
  }

  lemma OneBlockAlarm(total: nat, m: Medium, writes: nat -> bool) returns (limit: nat, es: seq<Event>, t: State)
    requires MediumOk(m) && !m.alarm && m.watermark == 0 && !GoodBelow(m, |m.disk|) && total >= 2
    requires Overlaps(total, writes)
    ensures Outcome(Start(total, limit, 0, m), es) == Some(t) && t.medium.alarm && InOrder(t.log, m, writes)
  {
    var i :| 0 <= i < |m.disk| && !IntactAt(m, i);
    var k: nat :| TurnsAt(writes, k) && (writes(0) ==> k < total);
    if writes(0) {
      limit, es, t := WritesFirst(total, m, writes, k, i);
    } else {
      limit, es, t := ReadsFirst(total, m, writes, k, i);
    }
  }
}
