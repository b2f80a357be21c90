/** The I/O limit, checked against the size a slot was used with the time before. */
module Limits {
  import opened Arithmetic
  import opened Pattern
  import opened Protocol
  import opened Integrity

  ghost predicate AtMost(log: seq<Request>, size: nat) {
    forall n | 0 <= n < |log| :: log[n].size <= size
  }

  /** In general the limit can be overrun by one request, and by no more. */
  lemma {:induction false} OverrunBounded(s: State, es: seq<Event>, t: State, size: nat)
    requires s.submitted <= s.limit && s.log == []
    requires Outcome(s, es) == Some(t) && AtMost(t.log, size)
    ensures t.submitted <= t.limit + size && t.limit == s.limit
    decreases |es|
  {
    if es == [] {
    } else {
      var u := Prior(s, es);
      assert u.log <= t.log;
      OverrunBounded(s, es[..|es| - 1], u, size);
      if es[|es| - 1].Submit? {
        assert t.log[|u.log|].size <= size;
      }
    }
  }

  /** Submissions end at the limit only: not while one more request of the largest size would fit. */
  lemma {:induction false} ClosedIsFull(s: State, es: seq<Event>, t: State, size: nat)
    requires s.open && (forall j | 0 <= j < |s.stale| :: s.stale[j] <= size)
    requires s.log == [] && Outcome(s, es) == Some(t) && AtMost(t.log, size)
    ensures !t.open ==> t.submitted + size > t.limit
    ensures forall j | 0 <= j < |t.stale| :: t.stale[j] <= size
    decreases |es|
  {
    if es == [] {
    } else {
      var u := Prior(s, es);
      assert u.log <= t.log;
      ClosedIsFull(s, es[..|es| - 1], u, size);
      if es[|es| - 1].Submit? {
        assert t.log[|u.log|].size <= size;
      }
    }
  }

  /** A workload that issues the requests of a stream, all of one size. */
  ghost predicate Follows(log: seq<Request>, stream: nat -> Request) {
    forall n | 0 <= n < |log| :: log[n] == stream(n)
  }

  ghost predicate FixedStream(stream: nat -> Request, size: nat, sectors: nat) {
    forall n: nat :: stream(n).size == size && stream(n).Fits(sectors)
  }

  /** While submissions go on, the slots never used are the first in the ring, in order. */
  ghost predicate FreshFirst(s: State, size: nat) {
    var used := Min(|s.log|, s.total);
    && |s.stale| == s.total
    && s.submitted == |s.log| * size
    && (forall j | 0 <= j < used :: s.stale[j] == size)
    && (forall j | used <= j < s.total :: s.stale[j] == 0)
    && (s.open ==>
      && s.total - used <= |s.ready|
      && forall i | 0 <= i < s.total - used :: s.ready[i] == used + i)
  }

  lemma FreshStep(s: State, e: Event, size: nat)
    requires SlotsOk(s) && FreshFirst(s, size) && Enabled(s, e)
    requires e.Submit? ==> e.request.size == size
    ensures FreshFirst(Apply(s, e), size)
  {
    if e.Submit? {
      assert (|s.log| + 1) * size == |s.log| * size + size;
    }
  }

  /** With depth times size within the limit, a submission that passes the check stays within. */
  lemma SubmitStaysWithin(s: State, e: Event, size: nat)
    requires SlotsOk(s) && FreshFirst(s, size) && Enabled(s, e) && e.Submit? && e.request.size == size
    requires s.total * size <= s.limit
    ensures Apply(s, e).submitted <= s.limit
  {
    if |s.log| < s.total {
      TimesMonotone(|s.log| + 1, s.total, size);
      assert (|s.log| + 1) * size == |s.log| * size + size;
    }
  }

  lemma {:induction false} FreshAlways(s: State, es: seq<Event>, t: State, size: nat)
    requires Sound(s) && FreshFirst(s, size) && s.log == []
    requires Outcome(s, es) == Some(t) && forall n | 0 <= n < |t.log| :: t.log[n].size == size
    ensures FreshFirst(t, size)
    ensures s.total * size <= s.limit ==> t.submitted <= t.limit
    decreases |es|
  {
    if es == [] {
    } else {
      var front, e := es[..|es| - 1], es[|es| - 1];
      var u := Prior(s, es);
      SoundAlways(s, front, u);
      assert u.log <= t.log;
      FreshAlways(s, front, u, size);
      assert e.Submit? ==> e.request == t.log[|u.log|];
      FreshStep(u, e, size);
      if e.Submit? && s.total * size <= s.limit {
        SubmitStaysWithin(u, e, size);
      }
    }
  }

  lemma FreshStart(total: nat, limit: nat, now: nat, m: Medium, size: nat)
    ensures FreshFirst(Start(total, limit, now, m), size)
  {
  }

  /* ---- The bound is exact: a deep queue of unused slots walks through the limit ---- */

  function DataFor(random: bool, r: Request): seq<Sector> {
    seq(r.Sectors(), k requires 0 <= k < r.Sectors() => PatternSector(random, r.offset + SECTOR * k, 0))
  }

  function Burst(m: Medium, stream: nat -> Request, n: nat): seq<Event> {
    if n == 0 then [] else Burst(m, stream, n - 1) + [Submit(stream(n - 1), 0, DataFor(m.random, stream(n - 1)))]
  }

  /** The state after a burst of n submissions and nothing else. */
  ghost predicate Bursting(t: State, total: nat, limit: nat, m: Medium, stream: nat -> Request, size: nat, n: nat) {
    && t.total == total && t.limit == limit && t.open && t.now == 0 && t.medium == m
    && |t.log| == n && Follows(t.log, stream) && FreshFirst(t, size)
  }

  lemma BurstStep(t: State, total: nat, limit: nat, m: Medium, stream: nat -> Request, size: nat, n: nat)
    requires Bursting(t, total, limit, m, stream, size, n) && n < total && n * size <= limit
    requires !m.alarm && stream(n).Fits(|m.disk|) && stream(n).size == size
    ensures var e := Submit(stream(n), 0, DataFor(m.random, stream(n)));
      Enabled(t, e) && Bursting(Apply(t, e), total, limit, m, stream, size, n + 1)
  {
    var e := Submit(stream(n), 0, DataFor(m.random, stream(n)));
    DataForStamped(m.random, stream(n));
    assert t.ready[0] == n && t.stale[n] == 0;
    assert Enabled(t, e);
    assert (n + 1) * size == n * size + size;
  }

  lemma {:induction false} BurstRuns(total: nat, limit: nat, m: Medium, stream: nat -> Request, size: nat, n: nat)
    returns (t: State)
    requires !m.alarm && FixedStream(stream, size, |m.disk|)
    requires n <= total && (n > 0 ==> (n - 1) * size <= limit)
    ensures Outcome(Start(total, limit, 0, m), Burst(m, stream, n)) == Some(t)
    ensures Bursting(t, total, limit, m, stream, size, n)
  {
    var s := Start(total, limit, 0, m);
    if n == 0 {
      FreshStart(total, limit, 0, m, size);
      t := s;
    } else {
      assert n > 1 ==> (n - 1) * size == (n - 2) * size + size;
      var u := BurstRuns(total, limit, m, stream, size, n - 1);
      BurstStep(u, total, limit, m, stream, size, n - 1);
      var e := Submit(stream(n - 1), 0, DataFor(m.random, stream(n - 1)));
      OutcomeSnoc(s, Burst(m, stream, n - 1), e);
      t := Apply(u, e);
    }
  }

  lemma DataForStamped(random: bool, r: Request)
    ensures Stamped(random, r, DataFor(random, r))
  {
  }

  /** No run of the workload, on any schedule of completions, submits more than the limit. */
  ghost predicate LimitHolds(total: nat, limit: nat, m: Medium, stream: nat -> Request) {
    forall now: nat, es: seq<Event> ::
      var t := Outcome(Start(total, limit, now, m), es);
      t.Some? && Follows(t.value.log, stream) ==> t.value.submitted <= limit
  }

  /** Despite the stale size the limit is respected on every schedule, if and only if a full
      queue of requests fits into it. */
  lemma LimitHoldsIff(total: nat, limit: nat, m: Medium, stream: nat -> Request, size: nat)
    requires MediumOk(m) && !m.alarm && FixedStream(stream, size, |m.disk|)
    ensures LimitHolds(total, limit, m, stream) <==> total * size <= limit
  {
    if total * size <= limit {
      forall now: nat, es: seq<Event> |
        Outcome(Start(total, limit, now, m), es).Some?
        && Follows(Outcome(Start(total, limit, now, m), es).value.log, stream)
        ensures Outcome(Start(total, limit, now, m), es).value.submitted <= limit
      {
        var t := Outcome(Start(total, limit, now, m), es).value;
        SoundStart(total, limit, now, m);
        FreshStart(total, limit, now, m, size);
        assert forall n | 0 <= n < |t.log| :: t.log[n] == stream(n);
        FreshAlways(Start(total, limit, now, m), es, t, size);
        SoundAlways(Start(total, limit, now, m), es, t);
      }
    } else {
      var es, t := Overrun(total, limit, m, stream, size);
      assert Outcome(Start(total, limit, 0, m), es).Some?;
    }
  }

  lemma Quotient(total: nat, limit: nat, size: nat) returns (u: nat)
    requires size > 0 && total * size > limit
    ensures u < total && u * size <= limit < (u + 1) * size
  {
    u := limit / size;
    QuotientBounds(limit, size);
    if total <= u {
      TimesMonotone(total, u, size);
    }
  }

  lemma Overrun(total: nat, limit: nat, m: Medium, stream: nat -> Request, size: nat) returns (es: seq<Event>, t: State)
    requires !m.alarm && FixedStream(stream, size, |m.disk|)
    requires total * size > limit
    ensures Outcome(Start(total, limit, 0, m), es) == Some(t)
    ensures Follows(t.log, stream) && t.submitted > limit
    ensures FreshFirst(t, size) && t.medium == m && t.now == 0 && 0 < |t.log| <= total
  {
    assert stream(0).size == size && stream(0).Fits(|m.disk|);
    var u := Quotient(total, limit, size);
    t := BurstRuns(total, limit, m, stream, size, u + 1);
    es := Burst(m, stream, u + 1);
  }
}
