/** When the integrity check can and cannot cry wolf on a disk that returns what was written. */
module Alarms {
  import opened Pattern
  import opened Protocol
  import opened Integrity

  /** What a read has fetched of the sectors intact in m is intact in its buffer. */
  ghost predicate FlightFetchedOk(m: Medium, f: Flight) {
    f.request.write || forall k | k in f.moved && k < |f.data| && IntactAt(m, f.request.First() + k) ::
      Intact(m.random, f.request.offset + SECTOR * k, f.data[k])
  }

  ghost predicate FetchedOk(s: State, m: Medium) {
    forall j | j in s.flights :: FlightFetchedOk(m, s.flights[j])
  }

  /** What is intact in m is intact in m'. */
  ghost predicate Keeps(m: Medium, m': Medium) {
    m.random == m'.random && |m.disk| == |m'.disk| && forall i | 0 <= i < |m.disk| && IntactAt(m, i) :: IntactAt(m', i)
  }

  /** Reads and writes are never in flight together. */
  ghost predicate Separated(s: State) {
    forall i, j | i in s.flights && j in s.flights :: s.flights[i].request.write == s.flights[j].request.write
  }

  lemma FetchedSubmit(s: State, r: Request, at: nat, data: seq<Sector>, m: Medium)
    requires SlotsOk(s) && FetchedOk(s, m) && s.ready != []
    ensures FetchedOk(Submitted(s, r, at, data), m)
  {
    var t := Submitted(s, r, at, data);
    assert t.flights[s.ready[0]].moved == {};
    assert forall j | j in s.flights :: j != s.ready[0] && t.flights[j] == s.flights[j];
  }

  lemma FlightFetched(now: nat, log: seq<Request>, f: Flight, i: nat, m: Medium, disk: seq<Sector>)
    requires FlightOk(m.random, |disk|, now, log, f) && i < |f.data| && f.request.First() + i < |disk|
    requires FlightFetchedOk(m, f)
    requires var p := f.request.First() + i; IntactAt(m, p) ==> Intact(m.random, SECTOR * p, disk[p])
    ensures FlightFetchedOk(m, Transferred(disk, f, i))
  {
    assert SECTOR * (f.request.First() + i) == f.request.offset + SECTOR * i;
  }

  lemma FetchedMove(s: State, j: nat, i: nat, m: Medium)
    requires FlightsOk(s) && FetchedOk(s, m) && Keeps(m, s.medium) && Enabled(s, Move(j, i))
    ensures FetchedOk(Moved(s, j, i), m)
  {
    var p := s.flights[j].request.First() + i;
    assert IntactAt(m, p) ==> IntactAt(s.medium, p);
    FlightFetched(s.now, s.log, s.flights[j], i, m, s.medium.disk);
  }

  lemma FetchedComplete(s: State, j: nat, at: nat, m: Medium)
    requires FetchedOk(s, m) && j in s.flights && s.flights[j].issued <= at
    ensures FetchedOk(Completed(s, j, at), m)
  {
  }

  /** What was intact when fetched is intact in the buffer, whatever happens elsewhere. */
  lemma FetchedStep(s: State, e: Event, m: Medium)
    requires SlotsOk(s) && FlightsOk(s) && FetchedOk(s, m) && Keeps(m, s.medium) && Enabled(s, e)
    ensures FetchedOk(Apply(s, e), m)
  {
    match e
    case Submit(r, at, data) => FetchedSubmit(s, r, at, data, m);
    case Refuse =>
    case Move(j, i) => FetchedMove(s, j, i, m);
    case Complete(j, at) => FetchedComplete(s, j, at, m);
  }

  /** A read that fails the check covers a sector below the watermark that was not intact. */
  lemma FailedRead(m: Medium, now: nat, log: seq<Request>, f: Flight)
    requires FlightOk(m.random, |m.disk|, now, log, f) && FlightFetchedOk(m, f) && !f.request.write
    requires forall k | 0 <= k < |f.data| :: k in f.moved
    requires !Passes(m.random, m.watermark, f.request, f.data)
    ensures Damaged(m, f.request)
  {
    var k :| 0 <= k < |f.data| && f.request.offset + SECTOR * k < m.watermark
      && !Intact(m.random, f.request.offset + SECTOR * k, f.data[k]);
    assert f.request.offset + SECTOR * k == SECTOR * (f.request.First() + k);
    assert SectorDamaged(m, f.request.First() + k);
  }

  /** Some read of the log covers a sector that is not intact in m and below a watermark. */
  ghost predicate Overtaken(m: Medium, watermark: nat, log: seq<Request>) {
    exists n: nat :: n < |log| && !log[n].write && Damaged(m.(watermark := watermark), log[n])
  }

  lemma NotOvertaken(m: Medium, watermark: nat, log: seq<Request>, n: nat)
    requires GoodBelow(m, n) && watermark <= SECTOR * n
    ensures !Overtaken(m, watermark, log)
  {
    forall i: nat
      ensures !SectorDamaged(m.(watermark := watermark), i)
    {
      assert i < n ==> IntactAt(m, i);
    }
  }

  /** The event that raises an alarm, with the watermark of the moment. */
  lemma AlarmStep(s: State, e: Event, m: Medium)
    requires FlightsOk(s) && FetchedOk(s, m) && Keeps(m, s.medium) && Enabled(s, e)
    requires Apply(s, e).medium.alarm
    ensures Apply(s, e).medium.watermark == s.medium.watermark && Apply(s, e).log == s.log
    ensures Overtaken(m, s.medium.watermark, s.log)
  {
    var f := s.flights[e.slot];
    var m' := m.(watermark := s.medium.watermark);
    assert FlightOk(s.medium.random, |s.medium.disk|, s.now, s.log, f) && FlightFetchedOk(m, f);
    assert forall i: nat :: IntactAt(m', i) <==> IntactAt(m, i);
    FailedRead(m', s.now, s.log, f);
    assert s.log[f.number] == f.request;
  }

  /** On any run, an alarm takes a read of a sector that was not intact at the start and is below
      the watermark in the end. */
  lemma {:induction false} AlarmNeeds(s: State, es: seq<Event>, t: State)
    requires Sound(s) && FetchedOk(s, s.medium) && !s.medium.alarm && Outcome(s, es) == Some(t)
    ensures FetchedOk(t, s.medium) && (t.medium.alarm ==> Overtaken(s.medium, t.medium.watermark, t.log))
    decreases |es|
  {
    if es == [] {
    } else {
      var front, e := es[..|es| - 1], es[|es| - 1];
      var u := Prior(s, es);
      SoundAlways(s, front, u);
      AlarmNeeds(s, front, u);
      FetchedStep(u, e, s.medium);
      if t.medium.alarm {
        AlarmStep(u, e, s.medium);
      }
    }
  }

  /** As long as the watermark stays inside what was intact at the start, nothing can alarm:
      reads and writes may overlap in any way. */
  lemma QuietInside(s: State, es: seq<Event>, t: State, n: nat)
    requires Sound(s) && FetchedOk(s, s.medium) && GoodBelow(s.medium, n) && !s.medium.alarm
    requires Outcome(s, es) == Some(t) && t.medium.watermark <= SECTOR * n
    ensures !t.medium.alarm
  {
    AlarmNeeds(s, es, t);
    NotOvertaken(s.medium, t.medium.watermark, t.log, n);
  }

  lemma OnlyWrites(s: State, j: nat, k: nat)
    requires Separated(s) && Enabled(s, Move(j, k)) && s.flights[j].request.write
    ensures FetchedOk(Moved(s, j, k), Moved(s, j, k).medium)
  {
    forall i | i in Moved(s, j, k).flights
      ensures Moved(s, j, k).flights[i].request.write
    {
      assert s.flights[i].request.write;
    }
  }

  /** One step of a run in which reads and writes never overlap. */
  lemma SeparatedStep(s: State, e: Event)
    requires Sound(s) && Separated(s) && FetchedOk(s, s.medium) && Enabled(s, e)
    ensures FetchedOk(Apply(s, e), Apply(s, e).medium) && !Apply(s, e).medium.alarm
  {
    NoAlarmStep(s, e);
    if e.Move? && s.flights[e.slot].request.write {
      OnlyWrites(s, e.slot, e.k);
    } else {
      FetchedStep(s, e, s.medium);
      SameContent(Apply(s, e), s.medium, Apply(s, e).medium);
    }
  }

  lemma SameContent(s: State, m: Medium, m': Medium)
    requires FetchedOk(s, m) && m.disk == m'.disk && m.random == m'.random
    ensures FetchedOk(s, m')
  {
    assert forall i: nat :: IntactAt(m, i) == IntactAt(m', i);
    forall j | j in s.flights
      ensures FlightFetchedOk(m', s.flights[j])
    {
      assert FlightFetchedOk(m, s.flights[j]);
    }
  }

  /** A read that fetched all intact sectors intact passes. */
  lemma NoAlarmStep(s: State, e: Event)
    requires Sound(s) && FetchedOk(s, s.medium) && Enabled(s, e)
    ensures !Apply(s, e).medium.alarm
  {
    NotOvertaken(s.medium, s.medium.watermark, s.log, s.medium.watermark / SECTOR);
    if Apply(s, e).medium.alarm {
      AlarmStep(s, e, s.medium);
    }
  }

  /** Only reads, or only writes. */
  predicate Pure(log: seq<Request>) {
    forall i, k | 0 <= i < |log| && 0 <= k < |log| :: log[i].write == log[k].write
  }

  lemma PureIsSeparated(s: State)
    requires FlightsOk(s) && Pure(s.log)
    ensures Separated(s)
  {
    forall i, j | i in s.flights && j in s.flights
      ensures s.flights[i].request.write == s.flights[j].request.write
    {
      assert s.log[s.flights[i].number].write == s.log[s.flights[j].number].write;
    }
  }

  lemma OneSlotIsSeparated(s: State)
    requires SlotsOk(s) && s.total <= 1
    ensures Separated(s)
  {
  }

  lemma {:induction false} QuietSeparated(s: State, es: seq<Event>, t: State)
    requires Sound(s) && FetchedOk(s, s.medium) && !s.medium.alarm
    requires Outcome(s, es) == Some(t) && (Pure(t.log) || s.total <= 1)
    ensures FetchedOk(t, t.medium) && !t.medium.alarm
    decreases |es|
  {
    if es == [] {
    } else {
      var front, e := es[..|es| - 1], es[|es| - 1];
      var u := Prior(s, es);
      SoundAlways(s, front, u);
      assert u.log <= t.log;
      QuietSeparated(s, front, u);
      StaysSeparated(u, t.log);
      SeparatedStep(u, e);
    }
  }

  lemma StaysSeparated(s: State, log: seq<Request>)
    requires SlotsOk(s) && FlightsOk(s) && s.log <= log && (Pure(log) || s.total <= 1)
    ensures Separated(s)
  {
    if Pure(log) {
      assert Pure(s.log);
      PureIsSeparated(s);
    } else {
      OneSlotIsSeparated(s);
    }
  }

  /** No false alarms: on any queue, with any requests, sizes, orders of transfer and orders of
      completion, a run that only reads, only writes, has one slot, or starts on a file that
      is intact throughout, never reports an integrity error. */
  lemma NoFalseAlarm(total: nat, limit: nat, now: nat, m: Medium, es: seq<Event>, t: State)
    requires MediumOk(m) && !m.alarm
    requires Outcome(Start(total, limit, now, m), es) == Some(t)
    requires Pure(t.log) || total <= 1 || GoodBelow(m, |m.disk|)
    ensures !t.medium.alarm
  {
    var s := Start(total, limit, now, m);
    SoundStart(total, limit, now, m);
    if GoodBelow(m, |m.disk|) {
      SoundAlways(s, es, t);
      assert t.medium.watermark / SECTOR <= |m.disk|;
      assert GoodBelow(s.medium, |m.disk|);
      QuietInside(s, es, t, |m.disk|);
    } else {
      QuietSeparated(s, es, t);
    }
  }
}
