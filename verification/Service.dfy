/** What the platform may do to a queue on its own: move sectors and complete requests. */
module Service {
  import opened Pattern
  import opened Protocol
  import opened Integrity

  /** The events of the platform lead from s to t. */
  ghost predicate Served(s: State, es: seq<Event>, t: State) {
    Outcome(s, es) == Some(t) && forall i | 0 <= i < |es| :: es[i].Move? || es[i].Complete?
  }

  /** Such events submit nothing and reopen nothing. */
  lemma {:induction false} ServedKeeps(s: State, es: seq<Event>, t: State)
    requires Served(s, es, t)
    ensures t.open == s.open && t.log == s.log && t.submitted == s.submitted && t.stale == s.stale
    ensures t.total == s.total && t.limit == s.limit && s.now <= t.now
    ensures |t.medium.disk| == |s.medium.disk| && t.medium.random == s.medium.random
    decreases |es|
  {
    if es == [] {
    } else {
      var u := Prior(s, es);
      ServedKeeps(s, es[..|es| - 1], u);
    }
  }

  /** What the platform relies on about the requests it holds. */
  ghost predicate InBounds(flights: map<nat, Flight>, sectors: nat, now: nat) {
    forall j | j in flights ::
      && flights[j].request.First() + |flights[j].data| <= sectors
      && |flights[j].data| == flights[j].request.Sectors() > 0 && flights[j].issued <= now
  }

  lemma SoundInBounds(s: State)
    requires Sound(s)
    ensures InBounds(s.flights, |s.medium.disk|, s.now)
    ensures |s.ready| + |s.flights.Keys| == s.total
    ensures s.ready != [] ==> s.ready[0] < s.total && s.ready[0] !in s.flights
  {
    forall j | j in s.flights
      ensures s.flights[j].request.First() + |s.flights[j].data| <= |s.medium.disk|
      ensures |s.flights[j].data| == s.flights[j].request.Sectors() > 0 && s.flights[j].issued <= s.now
    {
      assert FlightOk(s.medium.random, |s.medium.disk|, s.now, s.log, s.flights[j]);
    }
  }

  lemma InBoundsMove(s: State, j: nat, k: nat)
    requires InBounds(s.flights, |s.medium.disk|, s.now) && !s.medium.alarm
    requires j in s.flights && k < |s.flights[j].data|
    ensures Enabled(s, Move(j, k))
    ensures var t := Moved(s, j, k); InBounds(t.flights, |t.medium.disk|, t.now)
  {
  }

  lemma InBoundsComplete(s: State, j: nat, at: nat)
    requires InBounds(s.flights, |s.medium.disk|, s.now) && !s.medium.alarm && s.now <= at
    requires j in s.flights && forall k | 0 <= k < |s.flights[j].data| :: k in s.flights[j].moved
    ensures Enabled(s, Complete(j, at))
    ensures var t := Completed(s, j, at); InBounds(t.flights, |t.medium.disk|, t.now)
  {
  }

  /** A submission that passes the limit check is an event of the run. */
  lemma RunSubmit(s: State, es: seq<Event>, t: State, r: Request, at: nat, data: seq<Sector>)
    requires Outcome(s, es) == Some(t) && !t.medium.alarm && t.open
    requires t.ready != [] && t.ready[0] < |t.stale| && WithinLimit(t)
    requires r.Fits(|t.medium.disk|) && t.now <= at && |data| == r.Sectors()
    requires r.write ==> Stamped(t.medium.random, r, data)
    requires InBounds(t.flights, |t.medium.disk|, t.now)
    ensures Outcome(s, es + [Submit(r, at, data)]) == Some(Submitted(t, r, at, data))
    ensures var u := Submitted(t, r, at, data); InBounds(u.flights, |u.medium.disk|, u.now)
  {
    OutcomeSnoc(s, es, Submit(r, at, data));
  }

  lemma RunRefuse(s: State, es: seq<Event>, t: State)
    requires Outcome(s, es) == Some(t) && !t.medium.alarm && t.open
    requires t.ready != [] && t.ready[0] < |t.stale| && !WithinLimit(t)
    ensures Outcome(s, es + [Event.Refuse]) == Some(Refused(t))
  {
    OutcomeSnoc(s, es, Event.Refuse);
  }

  /** In any state of a run the head of the ring is not in flight. */
  lemma RunHead(s: State, es: seq<Event>, t: State)
    requires Sound(s) && Outcome(s, es) == Some(t)
    ensures t.ready != [] ==> t.ready[0] < t.total && t.ready[0] !in t.flights
  {
    SoundAlways(s, es, t);
    SoundInBounds(t);
  }

  lemma RunServed(s: State, es: seq<Event>, t: State, fs: seq<Event>, u: State)
    requires Outcome(s, es) == Some(t) && Served(t, fs, u)
    ensures Outcome(s, es + fs) == Some(u)
  {
    OutcomeConcat(s, es, fs);
  }

  lemma ServedOneMore(s: State, es: seq<Event>, t: State, e: Event)
    requires Served(s, es, t) && Enabled(t, e) && (e.Move? || e.Complete?)
    ensures Served(s, es + [e], Apply(t, e))
  {
    OutcomeSnoc(s, es, e);
  }

  lemma ServedThen(s: State, es: seq<Event>, t: State, fs: seq<Event>, u: State)
    requires Served(s, es, t) && Served(t, fs, u)
    ensures Served(s, es + fs, u)
  {
    OutcomeConcat(s, es, fs);
  }

  lemma MovedShape(s: State, j: nat, k: nat)
    requires j in s.flights && k < |s.flights[j].data| && s.flights[j].request.First() + k < |s.medium.disk|
    ensures var t := Moved(s, j, k);
      && t.flights.Keys == s.flights.Keys
      && (forall i | i in s.flights && i != j :: t.flights[i] == s.flights[i])
      && t.flights[j] == Transferred(s.medium.disk, s.flights[j], k)
  {
  }

  /** A flight whose sectors have all been moved can be completed at any later time. */
  lemma CompleteIsEnabled(s: State, j: nat, at: nat)
    requires Sound(s) && !s.medium.alarm && j in s.flights && s.now <= at
    requires forall k | 0 <= k < |s.flights[j].data| :: k in s.flights[j].moved
    ensures Enabled(s, Complete(j, at)) && Sound(Completed(s, j, at))
  {
    assert FlightOk(s.medium.random, |s.medium.disk|, s.now, s.log, s.flights[j]);
    SoundStep(s, Complete(j, at));
  }

  /** Every state reached by a run can be drained: the platform can always finish, unless a read
      it finishes raises the alarm; with only writes in flight it never does. */
  lemma {:induction false} Drainable(s: State) returns (es: seq<Event>, t: State)
    requires Sound(s) && !s.medium.alarm
    ensures Served(s, es, t) && (t.flights == map[] || t.medium.alarm)
    ensures (forall j | j in s.flights :: s.flights[j].request.write) ==> !t.medium.alarm
    decreases |s.flights.Keys|
  {
    if s.flights.Keys == {} {
      es, t := [], s;
      assert s.flights == map[];
    } else {
      var j :| j in s.flights.Keys;
      var v;
      es, v := FinishOne(s, j);
      if v.medium.alarm {
        t := v;
      } else {
        var gs;
        gs, t := Drainable(v);
        ServedThen(s, es, v, gs, t);
        es := es + gs;
      }
    }
  }

  /** From s to t flight j was finished and nothing else happened. */
  ghost predicate FinishedOne(s: State, t: State, j: nat) {
    && j in s.flights && t.flights.Keys == s.flights.Keys - {j} && t.ready == s.ready + [j]
    && (forall i | i in t.flights :: t.flights[i] == s.flights[i])
    && (s.flights[j].request.write ==> !t.medium.alarm)
    && (!s.flights[j].request.write ==> t.medium.disk == s.medium.disk)
    && t.medium.watermark == Checked(s.medium, s.flights[j]).watermark
  }

  lemma FinishedShape(s: State, u: State, j: nat)
    requires j in s.flights && MovedUpTo(s, u, j, |s.flights[j].data|) && u.flights[j].issued <= u.now
    ensures !s.medium.alarm ==> FinishedOne(s, Completed(u, j, u.now), j)
  {
    var t := Completed(u, j, u.now);
    assert t.flights.Keys == s.flights.Keys - {j};
  }

  lemma FinishOne(s: State, j: nat) returns (es: seq<Event>, t: State)
    requires Sound(s) && !s.medium.alarm && j in s.flights
    ensures Served(s, es, t) && Sound(t) && FinishedOne(s, t, j)
  {
    var fs, u := MoveAll(s, j, |s.flights[j].data|) by {
      assert FlightOk(s.medium.random, |s.medium.disk|, s.now, s.log, s.flights[j]);
    }
    SoundAlways(s, fs, u);
    FinishEvent(s, fs, u, j);
    FinishedShape(s, u, j);
    es, t := fs + [Complete(j, u.now)], Completed(u, j, u.now);
  }

  lemma FinishEvent(s: State, fs: seq<Event>, u: State, j: nat)
    requires j in s.flights && Served(s, fs, u) && Sound(u) && MovedUpTo(s, u, j, |s.flights[j].data|)
      && !s.medium.alarm
    ensures u.flights[j].issued <= u.now && Served(s, fs + [Complete(j, u.now)], Completed(u, j, u.now))
    ensures Sound(Completed(u, j, u.now))
  {
    CompleteIsEnabled(u, j, u.now);
    ServedOneMore(s, fs, u, Complete(j, u.now));
  }

  /** From s to t the first n sectors of flight j were moved and nothing else happened. */
  ghost predicate MovedUpTo(s: State, t: State, j: nat, n: nat) {
    && j in s.flights && t.flights.Keys == s.flights.Keys
    && (forall i | i in s.flights && i != j :: t.flights[i] == s.flights[i])
    && t.flights[j].request == s.flights[j].request && |t.flights[j].data| == |s.flights[j].data|
    && t.ready == s.ready && t.medium == s.medium.(disk := t.medium.disk) && |t.medium.disk| == |s.medium.disk|
    && (!s.flights[j].request.write ==> t.medium.disk == s.medium.disk)
    && (forall k | 0 <= k < n :: k in t.flights[j].moved)
  }

  /** What a read has fetched while nothing was written. */
  ghost predicate FetchedUpTo(t: State, j: nat, n: nat) {
    j in t.flights && n <= |t.flights[j].data| && t.flights[j].request.First() + n <= |t.medium.disk|
    && forall k | 0 <= k < n :: t.flights[j].data[k] == t.medium.disk[t.flights[j].request.First() + k]
  }

  lemma MoveOne(s: State, es: seq<Event>, u: State, j: nat, n: nat) returns (t: State)
    requires Served(s, es, u) && MovedUpTo(s, u, j, n) && n < |u.flights[j].data| && !s.medium.alarm
    requires s.flights[j].request.First() + |s.flights[j].data| <= |s.medium.disk|
    requires !s.flights[j].request.write ==> FetchedUpTo(u, j, n)
    ensures Served(s, es + [Move(j, n)], t) && MovedUpTo(s, t, j, n + 1)
    ensures !s.flights[j].request.write ==> FetchedUpTo(t, j, n + 1)
  {
    ServedOneMore(s, es, u, Move(j, n));
    MovedShape(u, j, n);
    t := Moved(u, j, n);
  }

  lemma {:induction false} MoveAll(s: State, j: nat, n: nat) returns (es: seq<Event>, t: State)
    requires !s.medium.alarm && j in s.flights && n <= |s.flights[j].data|
    requires s.flights[j].request.First() + |s.flights[j].data| <= |s.medium.disk|
    ensures Served(s, es, t) && MovedUpTo(s, t, j, n)
    ensures !s.flights[j].request.write ==> FetchedUpTo(t, j, n)
    decreases n
  {
    if n == 0 {
      return [], s;
    } else {
      var fs, u := MoveAll(s, j, n - 1);
      es := fs + [Move(j, n - 1)];
      t := MoveOne(s, fs, u, j, n - 1);
    }
  }
}
