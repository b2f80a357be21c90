/** Conservation of work and the latency bounds kept by the counters of a workload. */
module Accounting {
  import opened Arithmetic
  import opened Pattern
  import opened Protocol
  import opened Integrity

  /** What is counted of a request: its bytes or the request itself, in one direction. */
  datatype Measure = Bytes(write: bool) | Requests(write: bool) {
    function Of(r: Request): nat {
      if r.write != write then 0 else if Bytes? then r.size else 1
    }

    function Counted(s: State): nat {
      var tally := if write then s.writeTally else s.readTally;
      if Bytes? then tally.bytes else tally.requests
    }
  }

  function LogSum(log: seq<Request>, q: Measure): nat {
    if log == [] then 0 else LogSum(log[..|log| - 1], q) + q.Of(log[|log| - 1])
  }

  /** The share of the slots below n that is still in flight. */
  function Pending(flights: map<nat, Flight>, q: Measure, n: nat): nat {
    if n == 0 then 0
    else Pending(flights, q, n - 1) + (if n - 1 in flights then q.Of(flights[n - 1].request) else 0)
  }

  ghost predicate Conserved(s: State) {
    && (forall q: Measure :: LogSum(s.log, q) == q.Counted(s) + Pending(s.flights, q, s.total))
    && s.submitted == LogSum(s.log, Bytes(true)) + LogSum(s.log, Bytes(false))
  }

  lemma {:induction false} PendingAdd(flights: map<nat, Flight>, j: nat, f: Flight, q: Measure, n: nat)
    requires j !in flights
    ensures Pending(flights[j := f], q, n) == Pending(flights, q, n) + (if j < n then q.Of(f.request) else 0)
  {
    if n == 0 {
    } else {
      PendingAdd(flights, j, f, q, n - 1);
    }
  }

  lemma {:induction false} PendingRemove(flights: map<nat, Flight>, j: nat, q: Measure, n: nat)
    requires j in flights
    ensures Pending(flights, q, n) == Pending(flights - {j}, q, n) + (if j < n then q.Of(flights[j].request) else 0)
  {
    if n == 0 {
    } else {
      PendingRemove(flights, j, q, n - 1);
    }
  }

  lemma {:induction false} PendingSame(flights: map<nat, Flight>, j: nat, f: Flight, q: Measure, n: nat)
    requires j in flights && f.request == flights[j].request
    ensures Pending(flights[j := f], q, n) == Pending(flights, q, n)
  {
    if n == 0 {
    } else {
      PendingSame(flights, j, f, q, n - 1);
    }
  }

  lemma {:induction false} NothingPending(q: Measure, n: nat)
    ensures Pending(map[], q, n) == 0
  {
    if n == 0 {
    } else {
      NothingPending(q, n - 1);
    }
  }

  lemma ConservedSubmit(s: State, r: Request, at: nat, data: seq<Sector>)
    requires SlotsOk(s) && Conserved(s) && s.ready != []
    ensures Conserved(Submitted(s, r, at, data))
  {
    var t := Submitted(s, r, at, data);
    var j := s.ready[0];
    assert t.log[..|t.log| - 1] == s.log;
    forall q: Measure
      ensures LogSum(t.log, q) == q.Counted(t) + Pending(t.flights, q, t.total)
    {
      PendingAdd(s.flights, j, t.flights[j], q, s.total);
    }
  }

  lemma ConservedComplete(s: State, j: nat, at: nat)
    requires SlotsOk(s) && Conserved(s) && j in s.flights && s.flights[j].issued <= at
    ensures Conserved(Completed(s, j, at))
  {
    var t := Completed(s, j, at);
    forall q: Measure
      ensures LogSum(t.log, q) == q.Counted(t) + Pending(t.flights, q, t.total)
    {
      PendingRemove(s.flights, j, q, s.total);
    }
  }

  lemma ConservedStep(s: State, e: Event)
    requires SlotsOk(s) && Conserved(s) && Enabled(s, e)
    ensures Conserved(Apply(s, e))
  {
    match e
    case Submit(r, at, data) => ConservedSubmit(s, r, at, data);
    case Refuse =>
    case Move(j, k) =>
      forall q: Measure
        ensures Pending(Apply(s, e).flights, q, s.total) == Pending(s.flights, q, s.total)
      {
        PendingSame(s.flights, j, Apply(s, e).flights[j], q, s.total);
      }
    case Complete(j, at) => ConservedComplete(s, j, at);
  }

  /** The total latency lies between count times the fastest and count times the slowest. */
  ghost predicate Bounded(t: Tally) {
    t.requests * t.minimum <= t.elapsed <= t.requests * t.maximum
  }

  lemma FloorRecord(n: nat, floor: nat, lower: nat, total: nat, latency: nat)
    requires n * floor <= total && lower <= latency && (n == 0 || lower <= floor)
    ensures (n + 1) * lower <= total + latency
  {
    if n > 0 {
      TimesMonotone(lower, floor, n);
    }
    assert (n + 1) * lower == lower * n + lower;
  }

  lemma CeilingRecord(n: nat, ceiling: nat, higher: nat, total: nat, latency: nat)
    requires total <= n * ceiling && latency <= higher && (n == 0 || ceiling <= higher)
    ensures total + latency <= (n + 1) * higher
  {
    if n > 0 {
      TimesMonotone(ceiling, higher, n);
    }
    assert (n + 1) * higher == higher * n + higher;
  }

  lemma BoundedRecord(t: Tally, size: nat, latency: nat)
    requires Bounded(t)
    ensures Bounded(t.Record(size, latency))
  {
    var u := t.Record(size, latency);
    FloorRecord(t.requests, t.minimum, u.minimum, t.elapsed, latency);
    CeilingRecord(t.requests, t.maximum, u.maximum, t.elapsed, latency);
  }

  lemma BoundedStep(s: State, e: Event)
    requires Bounded(s.readTally) && Bounded(s.writeTally) && Enabled(s, e)
    ensures Bounded(Apply(s, e).readTally) && Bounded(Apply(s, e).writeTally)
  {
    if e.Complete? {
      var f := s.flights[e.slot];
      BoundedRecord(s.readTally, f.request.size, e.at - f.issued);
      BoundedRecord(s.writeTally, f.request.size, e.at - f.issued);
    }
  }

  lemma {:induction false} Accounted(s: State, es: seq<Event>, t: State)
    requires Sound(s) && Conserved(s) && Bounded(s.readTally) && Bounded(s.writeTally)
    requires Outcome(s, es) == Some(t)
    ensures Conserved(t) && Bounded(t.readTally) && Bounded(t.writeTally)
    decreases |es|
  {
    if es == [] {
    } else {
      var front, e := es[..|es| - 1], es[|es| - 1];
      var u := Prior(s, es);
      SoundAlways(s, front, u);
      Accounted(s, front, u);
      ConservedStep(u, e);
      BoundedStep(u, e);
    }
  }

  /** Every run of a worker: what was submitted, in bytes and in requests, is exactly what was
      completed plus what is in flight, and all of it is completed once the queue is empty. */
  lemma WorkIsConserved(total: nat, limit: nat, now: nat, m: Medium, es: seq<Event>, t: State)
    requires MediumOk(m) && Outcome(Start(total, limit, now, m), es) == Some(t)
    ensures Conserved(t) && Bounded(t.readTally) && Bounded(t.writeTally)
    ensures t.flights == map[] ==>
      && t.submitted == t.readTally.bytes + t.writeTally.bytes
      && forall q: Measure :: LogSum(t.log, q) == q.Counted(t)
  {
    var s := Start(total, limit, now, m);
    SoundStart(total, limit, now, m);
    forall q: Measure
      ensures Pending(map[], q, total) == 0
    {
      NothingPending(q, total);
    }
    Accounted(s, es, t);
    SoundAlways(s, es, t);
  }
}
