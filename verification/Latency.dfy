/** What the counters of a workload measure: the time of every completed request from its submission
    to its completion, read off the events of the run. */
module Latency {
  import opened Protocol
  import opened Integrity

  /** What an event does to a slot: a submission takes it, a completion gives it back. */
  datatype Mark = Taken(slot: nat, at: nat) | Done(slot: nat, at: nat, write: bool) | Quiet

  function MarkOf(u: State, e: Event): Mark {
    match e
    case Submit(r, at, data) => if u.ready != [] then Taken(u.ready[0], at) else Quiet
    case Complete(j, at) => if j in u.flights then Done(j, at, u.flights[j].request.write) else Quiet
    case _ => Quiet
  }

  /** The marks of a run. */
  ghost function Marks(s: State, es: seq<Event>): seq<Mark> {
    if es == [] then []
    else
      match Outcome(s, es[..|es| - 1])
      case None => []
      case Some(u) => Marks(s, es[..|es| - 1]) + [MarkOf(u, es[|es| - 1])]
  }

  /** The time of the latest submission that took slot j. */
  function TakenAt(ms: seq<Mark>, j: nat): nat {
    if ms == [] then 0
    else
      var m := ms[|ms| - 1];
      if m.Taken? && m.slot == j then m.at else TakenAt(ms[..|ms| - 1], j)
  }

  /** The latencies of the requests completed in one direction, in the order of their completion. */
  function Latencies(ms: seq<Mark>, write: bool): seq<int> {
    if ms == [] then []
    else
      var front, m := ms[..|ms| - 1], ms[|ms| - 1];
      if m.Done? && m.write == write then Latencies(front, write) + [m.at - TakenAt(front, m.slot)]
      else Latencies(front, write)
  }

  lemma TakenSnoc(ms: seq<Mark>, m: Mark, j: nat)
    ensures TakenAt(ms + [m], j) == if m.Taken? && m.slot == j then m.at else TakenAt(ms, j)
  {
    assert (ms + [m])[..|ms + [m]| - 1] == ms;
  }

  lemma LatenciesSnoc(ms: seq<Mark>, m: Mark, write: bool)
    ensures Latencies(ms + [m], write) ==
      if m.Done? && m.write == write then Latencies(ms, write) + [m.at - TakenAt(ms, m.slot)]
      else Latencies(ms, write)
  {
    assert (ms + [m])[..|ms + [m]| - 1] == ms;
  }

  function Sum(xs: seq<int>): int {
    if xs == [] then 0 else Sum(xs[..|xs| - 1]) + xs[|xs| - 1]
  }

  lemma SumSnoc(xs: seq<int>, x: int)
    ensures Sum(xs + [x]) == Sum(xs) + x
  {
    assert (xs + [x])[..|xs + [x]| - 1] == xs;
  }

  /** The counter holds the number, the sum, the least and the greatest of these latencies. */
  ghost predicate Measures(t: Tally, xs: seq<int>) {
    && t.requests == |xs| && t.elapsed == Sum(xs)
    && (xs == [] ==> t.minimum == t.maximum == 0)
    && (forall k | 0 <= k < |xs| :: t.minimum <= xs[k] <= t.maximum)
    && (xs != [] ==> t.minimum in xs && t.maximum in xs)
  }

  lemma MeasuresRecord(t: Tally, xs: seq<int>, size: nat, x: nat)
    requires Measures(t, xs)
    ensures Measures(t.Record(size, x), xs + [x])
  {
    SumSnoc(xs, x);
    var ys := xs + [x];
    assert ys[|xs|] == x;
    if xs != [] {
      var i :| 0 <= i < |xs| && xs[i] == t.minimum;
      var k :| 0 <= k < |xs| && xs[k] == t.maximum;
      assert ys[i] == t.minimum && ys[k] == t.maximum;
    }
  }

  /** Every flight remembers when its slot was taken. */
  ghost predicate Remembers(ms: seq<Mark>, t: State) {
    forall j | j in t.flights :: t.flights[j].issued == TakenAt(ms, j)
  }

  lemma RemembersStep(u: State, e: Event, ms: seq<Mark>)
    requires SlotsOk(u) && Enabled(u, e) && Remembers(ms, u)
    ensures Remembers(ms + [MarkOf(u, e)], Apply(u, e))
  {
    forall j | j in Apply(u, e).flights
      ensures Apply(u, e).flights[j].issued == TakenAt(ms + [MarkOf(u, e)], j)
    {
      TakenSnoc(ms, MarkOf(u, e), j);
      if j in u.flights {
        assert Apply(u, e).flights[j].issued == u.flights[j].issued;
      }
    }
  }

  function TallyOf(s: State, write: bool): Tally {
    if write then s.writeTally else s.readTally
  }

  lemma TallyStep(u: State, e: Event, write: bool)
    requires Enabled(u, e)
    ensures TallyOf(Apply(u, e), write) ==
      if e.Complete? && u.flights[e.slot].request.write == write then
        TallyOf(u, write).Record(u.flights[e.slot].request.size, e.at - u.flights[e.slot].issued)
      else
        TallyOf(u, write)
  {
  }

  lemma MeasuresMark(ms: seq<Mark>, m: Mark, write: bool, before: Tally, after: Tally, size: nat,
                     xs: seq<int>, ys: seq<int>)
    requires Measures(before, xs) && xs == Latencies(ms, write) && ys == Latencies(ms + [m], write)
    requires m.Done? && m.write == write ==>
      TakenAt(ms, m.slot) <= m.at && after == before.Record(size, m.at - TakenAt(ms, m.slot))
    requires !(m.Done? && m.write == write) ==> after == before
    ensures Measures(after, ys)
  {
    LatenciesSnoc(ms, m, write);
    if m.Done? && m.write == write {
      MeasuresRecord(before, xs, size, m.at - TakenAt(ms, m.slot));
    }
  }

  lemma MeasuresStep(u: State, e: Event, ms: seq<Mark>, write: bool, xs: seq<int>, ys: seq<int>)
    requires Enabled(u, e) && Remembers(ms, u) && Measures(TallyOf(u, write), xs)
    requires xs == Latencies(ms, write) && ys == Latencies(ms + [MarkOf(u, e)], write)
    ensures Measures(TallyOf(Apply(u, e), write), ys)
  {
    TallyStep(u, e, write);
    var size := if e.Complete? then u.flights[e.slot].request.size else 0;
    MeasuresMark(ms, MarkOf(u, e), write, TallyOf(u, write), TallyOf(Apply(u, e), write), size, xs, ys);
  }

  lemma {:induction false} MeasuredAlways(s: State, es: seq<Event>, t: State, ms: seq<Mark>)
    requires Sound(s) && s.flights == map[] && s.readTally == NO_TALLY && s.writeTally == NO_TALLY
    requires Outcome(s, es) == Some(t) && ms == Marks(s, es)
    ensures Remembers(ms, t)
    ensures Measures(t.readTally, Latencies(ms, false)) && Measures(t.writeTally, Latencies(ms, true))
    decreases |es|
  {
    if es == [] {
    } else {
      var front, e := es[..|es| - 1], es[|es| - 1];
      var u := Prior(s, es);
      SoundAlways(s, front, u);
      MeasuredAlways(s, front, u, Marks(s, front));
      RemembersStep(u, e, Marks(s, front));
      MeasuresStep(u, e, Marks(s, front), false, Latencies(Marks(s, front), false), Latencies(ms, false));
      MeasuresStep(u, e, Marks(s, front), true, Latencies(Marks(s, front), true), Latencies(ms, true));
    }
  }

  /** On every run, in each direction: the counter adds up, for the requests completed so far, the
      time from the submission to the completion, and holds the shortest and the longest. */
  lemma LatencyIsMeasured(total: nat, limit: nat, now: nat, m: Medium, es: seq<Event>, t: State)
    requires MediumOk(m) && Outcome(Start(total, limit, now, m), es) == Some(t)
    ensures var ms := Marks(Start(total, limit, now, m), es);
      Measures(t.readTally, Latencies(ms, false)) && Measures(t.writeTally, Latencies(ms, true))
  {
    SoundStart(total, limit, now, m);
    MeasuredAlways(Start(total, limit, now, m), es, t, Marks(Start(total, limit, now, m), es));
  }
}
