/** What a run of reads reports of the file it finds, sound or damaged. */
module Detection {
  import opened Pattern
  import opened Protocol
  import opened Integrity

  predicate OnlyReads(log: seq<Request>) {
    forall n | 0 <= n < |log| :: !log[n].write
  }

  /** Submission n has completed. */
  ghost predicate Finished(s: State, n: nat) {
    n < |s.log| && forall j | j in s.flights :: s.flights[j].number != n
  }

  /** What reads have fetched so far is what the file holds. */
  ghost predicate Fetched(m: Medium, f: Flight) {
    forall k | k in f.moved && k < |f.data| ::
      f.request.First() + k < |m.disk| && f.data[k] == m.disk[f.request.First() + k]
  }

  /** Only reads in flight, and what they have fetched is what the file holds. */
  ghost predicate ReadsFetched(flights: map<nat, Flight>, m: Medium) {
    forall j | j in flights :: !flights[j].request.write && Fetched(m, flights[j])
  }

  /** A run of reads changes nothing but the alarm. */
  ghost predicate Undisturbed(s: State, m: Medium) {
    SlotsOk(s) && FlightsOk(s) && s.medium.(alarm := false) == m && ReadsFetched(s.flights, m)
  }

  ghost predicate Reported(s: State, m: Medium) {
    exists n: nat :: Finished(s, n) && Damaged(m, s.log[n])
  }

  lemma FetchedSector(m: Medium, now: nat, log: seq<Request>, f: Flight, k: nat)
    requires FlightOk(m.random, |m.disk|, now, log, f) && Fetched(m, f) && k < |f.data| && k in f.moved
    ensures f.request.offset + SECTOR * k == SECTOR * (f.request.First() + k)
    ensures Intact(m.random, f.request.offset + SECTOR * k, f.data[k]) <==> IntactAt(m, f.request.First() + k)
  {
  }

  /** The check of one finished read. */
  lemma CheckIsExact(m: Medium, now: nat, log: seq<Request>, f: Flight)
    requires FlightOk(m.random, |m.disk|, now, log, f) && Fetched(m, f)
    requires forall k | 0 <= k < |f.data| :: k in f.moved
    ensures Passes(m.random, m.watermark, f.request, f.data) <==> !Damaged(m, f.request)
  {
    var first := f.request.First();
    if Passes(m.random, m.watermark, f.request, f.data) {
      forall i: nat | first <= i < first + f.request.Sectors()
        ensures !SectorDamaged(m, i)
      {
        FetchedSector(m, now, log, f, i - first);
      }
    } else {
      var k :| 0 <= k < |f.data| && f.request.offset + SECTOR * k < m.watermark
        && !Intact(m.random, f.request.offset + SECTOR * k, f.data[k]);
      FetchedSector(m, now, log, f, k);
      assert SectorDamaged(m, first + k);
    }
  }

  lemma FinishedSubmit(s: State, r: Request, at: nat, data: seq<Sector>, n: nat)
    requires SlotsOk(s) && FlightsOk(s) && s.ready != []
    ensures Finished(Submitted(s, r, at, data), n) <==> Finished(s, n)
    ensures n < |s.log| ==> Submitted(s, r, at, data).log[n] == s.log[n]
  {
    var t := Submitted(s, r, at, data);
    assert s.ready[0] in t.flights && t.flights[s.ready[0]].number == |s.log|;
    assert forall j | j in s.flights :: j in t.flights && t.flights[j] == s.flights[j];
  }

  lemma FinishedMove(s: State, j: nat, k: nat, n: nat)
    requires Enabled(s, Move(j, k))
    ensures Finished(Moved(s, j, k), n) <==> Finished(s, n)
  {
    var t := Moved(s, j, k);
    assert forall i | i in s.flights :: i in t.flights && t.flights[i].number == s.flights[i].number;
  }

  lemma FinishedComplete(s: State, j: nat, at: nat, n: nat)
    requires FlightsOk(s) && Enabled(s, Complete(j, at))
    ensures Finished(Completed(s, j, at), n) <==> Finished(s, n) || n == s.flights[j].number
  {
    var t := Completed(s, j, at);
    assert FlightOk(s.medium.random, |s.medium.disk|, s.now, s.log, s.flights[j]);
    assert forall i | i in s.flights && i != j :: i in t.flights && t.flights[i] == s.flights[i];
  }

  lemma FinishedStep(s: State, e: Event, n: nat)
    requires SlotsOk(s) && FlightsOk(s) && Enabled(s, e)
    ensures Finished(Apply(s, e), n) <==> Finished(s, n) || (e.Complete? && n == s.flights[e.slot].number)
    ensures n < |s.log| ==> Apply(s, e).log[n] == s.log[n]
  {
    match e
    case Submit(r, at, data) => FinishedSubmit(s, r, at, data, n);
    case Refuse =>
    case Move(j, k) => FinishedMove(s, j, k, n);
    case Complete(j, at) => FinishedComplete(s, j, at, n);
  }

  lemma FetchedMore(m: Medium, f: Flight, k: nat)
    requires Fetched(m, f) && !f.request.write && k < |f.data| && f.request.First() + k < |m.disk|
    ensures Fetched(m, Transferred(m.disk, f, k))
  {
  }

  lemma ReadsFetchedStep(s: State, e: Event, m: Medium)
    requires ReadsFetched(s.flights, m) && s.medium.(alarm := false) == m && Enabled(s, e)
    requires e.Submit? ==> !e.request.write
    ensures ReadsFetched(Apply(s, e).flights, m) && Apply(s, e).medium.(alarm := false) == m
  {
    if e.Move? {
      FetchedMore(m, s.flights[e.slot], e.k);
    }
  }

  lemma UndisturbedStep(s: State, e: Event, m: Medium)
    requires Undisturbed(s, m) && Enabled(s, e) && OnlyReads(Apply(s, e).log)
    ensures Undisturbed(Apply(s, e), m)
  {
    SlotsStep(s, e);
    FlightsStep(s, e);
    assert e.Submit? ==> Apply(s, e).log[|s.log|] == e.request;
    ReadsFetchedStep(s, e, m);
  }

  lemma {:induction false} ReportedIff(s: State, m: Medium, es: seq<Event>, t: State)
    requires Undisturbed(s, m) && !s.medium.alarm && !Reported(s, m)
    requires Outcome(s, es) == Some(t) && OnlyReads(t.log)
    ensures Undisturbed(t, m) && (t.medium.alarm <==> Reported(t, m))
    decreases |es|
  {
    if es == [] {
    } else {
      var front, e := es[..|es| - 1], es[|es| - 1];
      var u := Prior(s, es);
      assert u.log <= t.log;
      ReportedIff(s, m, front, u);
      UndisturbedStep(u, e, m);
      ReportedStep(u, e, m);
    }
  }

  lemma ReportedStep(s: State, e: Event, m: Medium)
    requires Undisturbed(s, m) && !Reported(s, m) && Enabled(s, e)
    ensures Apply(s, e).medium.alarm <==> Reported(Apply(s, e), m)
  {
    var t := Apply(s, e);
    forall n: nat
      ensures Finished(t, n) <==> Finished(s, n) || (e.Complete? && n == s.flights[e.slot].number)
      ensures n < |s.log| ==> t.log[n] == s.log[n]
    {
      FinishedStep(s, e, n);
    }
    if e.Complete? {
      var f := s.flights[e.slot];
      assert FlightOk(m.random, |m.disk|, s.now, s.log, f);
      CheckIsExact(m, s.now, s.log, f);
      assert Finished(t, f.number) && t.log[f.number] == f.request;
    }
  }

  /** The check is exact over whole runs: whatever the file holds, a run of reads reports an
      integrity error if and only if some finished read covered a damaged sector below the
      watermark. */
  lemma AlarmIff(total: nat, limit: nat, now: nat, m: Medium, es: seq<Event>, t: State)
    requires !m.alarm && Outcome(Start(total, limit, now, m), es) == Some(t) && OnlyReads(t.log)
    ensures t.medium.alarm <==> exists n: nat :: Finished(t, n) && Damaged(m, t.log[n])
  {
    var s := Start(total, limit, now, m);
    StartIsConsistent(total, limit, now, m);
    assert s.medium == m;
    ReportedIff(s, m, es, t);
  }

  /** So the validation of existing files, which begins with the watermark at the start of the
      file, accepts any content. */
  lemma ValidationAcceptsAll(total: nat, limit: nat, now: nat, m: Medium, es: seq<Event>, t: State)
    requires !m.alarm && m.watermark == 0
    requires Outcome(Start(total, limit, now, m), es) == Some(t) && OnlyReads(t.log)
    ensures !t.medium.alarm
  {
    AlarmIff(total, limit, now, m, es, t);
  }
}
