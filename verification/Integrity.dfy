/** What every run keeps true of the file: landed writes are intact, and so is everything
    below the watermark that decides how far reads are checked. */
module Integrity {
  import opened Pattern
  import opened Protocol

  ghost predicate IntactAt(m: Medium, i: nat) {
    i < |m.disk| && Intact(m.random, SECTOR * i, m.disk[i])
  }

  ghost predicate GoodBelow(m: Medium, n: nat) {
    n <= |m.disk| && forall i | 0 <= i < n :: IntactAt(m, i)
  }

  ghost predicate MediumOk(m: Medium) {
    m.watermark % SECTOR == 0 && GoodBelow(m, m.watermark / SECTOR)
  }

  /** A sector that the check must not let through. */
  ghost predicate SectorDamaged(m: Medium, i: nat) {
    SECTOR * i < m.watermark && !IntactAt(m, i)
  }

  /** The request covers such a sector. */
  ghost predicate Damaged(m: Medium, r: Request) {
    exists i: nat :: r.First() <= i < r.First() + r.Sectors() && SectorDamaged(m, i)
  }

  /** Sector k of submission n is still to be moved. */
  ghost predicate Outstanding(s: State, n: nat, k: nat) {
    exists j :: j in s.flights && s.flights[j].number == n && k !in s.flights[j].moved
  }

  /** Every sector of every submitted write is intact on the file or still to be moved. */
  ghost predicate Deposited(s: State) {
    forall n, k | 0 <= n < |s.log| && s.log[n].write && 0 <= k < s.log[n].Sectors() ::
      IntactAt(s.medium, s.log[n].First() + k) || Outstanding(s, n, k)
  }

  ghost predicate Sound(s: State) {
    SlotsOk(s) && FlightsOk(s) && Deposited(s) && MediumOk(s.medium)
  }

  /** The platform only ever lands intact sectors, so intact ones stay so. */
  lemma LandedIntact(random: bool, disk: seq<Sector>, now: nat, log: seq<Request>, f: Flight, k: nat, i: nat)
    requires FlightOk(random, |disk|, now, log, f) && k < |f.data| && i < |disk|
    requires Intact(random, SECTOR * i, disk[i]) || (f.request.write && i == f.request.First() + k)
    ensures Intact(random, SECTOR * i, Landed(disk, f, k)[i])
  {
    assert f.request.offset + SECTOR * k == SECTOR * (f.request.First() + k);
  }

  lemma IntactStays(s: State, e: Event, i: nat)
    requires FlightsOk(s) && Enabled(s, e) && IntactAt(s.medium, i)
    ensures IntactAt(Apply(s, e).medium, i)
  {
    if e.Move? {
      var m := s.medium;
      LandedIntact(m.random, m.disk, s.now, s.log, s.flights[e.slot], e.k, i);
    }
  }

  lemma OutstandingSubmit(s: State, r: Request, at: nat, data: seq<Sector>, n: nat, k: nat)
    requires SlotsOk(s) && s.ready != []
    requires n == |s.log| || Outstanding(s, n, k)
    ensures Outstanding(Submitted(s, r, at, data), n, k)
  {
    var t := Submitted(s, r, at, data);
    if n == |s.log| {
      assert s.ready[0] in t.flights && t.flights[s.ready[0]].number == n;
    } else {
      var j :| j in s.flights && s.flights[j].number == n && k !in s.flights[j].moved;
      assert t.flights[j] == s.flights[j];
    }
  }

  lemma OutstandingMove(s: State, j: nat, k: nat, n: nat, i: nat)
    requires FlightsOk(s) && Enabled(s, Move(j, k)) && Outstanding(s, n, i)
    ensures Outstanding(Moved(s, j, k), n, i) || (n == s.flights[j].number && i == k)
  {
    var t := Moved(s, j, k);
    var p :| p in s.flights && s.flights[p].number == n && i !in s.flights[p].moved;
    assert p in t.flights && t.flights[p].number == n;
    if p == j && i != k {
      assert i !in t.flights[p].moved;
    }
  }

  lemma OutstandingComplete(s: State, j: nat, at: nat, n: nat, k: nat)
    requires FlightsOk(s) && Enabled(s, Complete(j, at)) && Outstanding(s, n, k)
    requires n < |s.log| && k < s.log[n].Sectors()
    ensures Outstanding(Completed(s, j, at), n, k) && n != s.flights[j].number
  {
    var p :| p in s.flights && s.flights[p].number == n && k !in s.flights[p].moved;
    assert FlightOk(s.medium.random, |s.medium.disk|, s.now, s.log, s.flights[p]);
    assert p != j;
    assert p in Completed(s, j, at).flights;
  }

  lemma DepositedMove(s: State, j: nat, i: nat, n: nat, k: nat)
    requires FlightsOk(s) && Enabled(s, Move(j, i)) && Outstanding(s, n, k)
    requires n < |s.log| && s.log[n].write && k < s.log[n].Sectors()
    ensures IntactAt(Moved(s, j, i).medium, s.log[n].First() + k) || Outstanding(Moved(s, j, i), n, k)
  {
    OutstandingMove(s, j, i, n, k);
    if n == s.flights[j].number && k == i {
      var m := s.medium;
      LandedIntact(m.random, m.disk, s.now, s.log, s.flights[j], k, s.log[n].First() + k);
    }
  }

  lemma DepositedCase(s: State, e: Event, n: nat, k: nat)
    requires SlotsOk(s) && FlightsOk(s) && Enabled(s, e)
    requires n < |Apply(s, e).log| && Apply(s, e).log[n].write && k < Apply(s, e).log[n].Sectors()
    requires n < |s.log| ==> Outstanding(s, n, k)
    ensures IntactAt(Apply(s, e).medium, Apply(s, e).log[n].First() + k) || Outstanding(Apply(s, e), n, k)
  {
    match e
    case Submit(r, at, data) => OutstandingSubmit(s, r, at, data, n, k);
    case Refuse =>
      var j :| j in s.flights && s.flights[j].number == n && k !in s.flights[j].moved;
      assert j in Refused(s).flights && Refused(s).flights[j] == s.flights[j];
    case Move(j, i) => DepositedMove(s, j, i, n, k);
    case Complete(j, at) => OutstandingComplete(s, j, at, n, k);
  }

  lemma DepositedStep(s: State, e: Event)
    requires SlotsOk(s) && FlightsOk(s) && Deposited(s) && Enabled(s, e)
    ensures Deposited(Apply(s, e))
  {
    var t := Apply(s, e);
    forall n, k | 0 <= n < |t.log| && t.log[n].write && 0 <= k < t.log[n].Sectors()
      ensures IntactAt(t.medium, t.log[n].First() + k) || Outstanding(t, n, k)
    {
      if n < |s.log| && IntactAt(s.medium, s.log[n].First() + k) {
        IntactStays(s, e, s.log[n].First() + k);
      } else {
        DepositedCase(s, e, n, k);
      }
    }
  }

  lemma NothingOutstanding(s: State, j: nat, at: nat, k: nat)
    requires FlightsOk(s) && Enabled(s, Complete(j, at)) && k < |s.flights[j].data|
    ensures !Outstanding(s, s.flights[j].number, k)
  {
    assert forall p | p in s.flights && s.flights[p].number == s.flights[j].number :: p == j;
  }

  lemma SettledIsIntact(s: State, n: nat, k: nat)
    requires Deposited(s) && n < |s.log| && s.log[n].write && k < s.log[n].Sectors()
    requires !Outstanding(s, n, k)
    ensures IntactAt(s.medium, s.log[n].First() + k)
  {
  }

  /** A finished write has every sector on the file. */
  lemma CompletedIntact(s: State, j: nat, at: nat)
    requires FlightsOk(s) && Deposited(s) && Enabled(s, Complete(j, at)) && s.flights[j].request.write
    ensures var r := s.flights[j].request;
      forall i | r.First() <= i < r.First() + r.Sectors() :: IntactAt(s.medium, i)
  {
    var f := s.flights[j];
    var r := f.request;
    assert FlightOk(s.medium.random, |s.medium.disk|, s.now, s.log, f);
    forall i | r.First() <= i < r.First() + r.Sectors()
      ensures IntactAt(s.medium, i)
    {
      var k := i - r.First();
      NothingOutstanding(s, j, at, k);
      SettledIsIntact(s, f.number, k);
    }
  }

  lemma WatermarkRests(s: State, e: Event)
    requires Sound(s) && Enabled(s, e) && !(e.Complete? && s.flights[e.slot].request.write)
    ensures MediumOk(Apply(s, e).medium) && Apply(s, e).medium.watermark == s.medium.watermark
  {
    forall i | 0 <= i < s.medium.watermark / SECTOR
      ensures IntactAt(Apply(s, e).medium, i)
    {
      IntactStays(s, e, i);
    }
  }

  lemma MediumStep(s: State, e: Event)
    requires Sound(s) && Enabled(s, e)
    ensures MediumOk(Apply(s, e).medium)
    ensures s.medium.watermark <= Apply(s, e).medium.watermark
  {
    if e.Complete? && s.flights[e.slot].request.write {
      CompletedIntact(s, e.slot, e.at);
      WatermarkAdvance(s.medium, s.flights[e.slot].request);
    } else {
      WatermarkRests(s, e);
    }
  }

  lemma WatermarkAdvance(m: Medium, r: Request)
    requires MediumOk(m) && r.Fits(|m.disk|)
    requires forall i | r.First() <= i < r.First() + r.Sectors() :: IntactAt(m, i)
    ensures r.offset == m.watermark ==> MediumOk(m.(watermark := r.offset + r.size))
  {
    var m' := m.(watermark := r.offset + r.size);
    forall i | 0 <= i < (r.offset + r.size) / SECTOR && r.offset == m.watermark
      ensures IntactAt(m', i)
    {
      assert IntactAt(m, i);
    }
  }

  /** What a run from s to t keeps: the watermark never moves back, intact sectors stay
      intact, and the log only grows. */
  ghost predicate Carries(s: State, t: State) {
    && s.medium.watermark <= t.medium.watermark
    && s.medium.random == t.medium.random && |s.medium.disk| == |t.medium.disk|
    && s.total == t.total && s.limit == t.limit
    && s.log <= t.log
    && forall i | 0 <= i < |s.medium.disk| && IntactAt(s.medium, i) :: IntactAt(t.medium, i)
  }

  lemma CarriesStep(s: State, e: Event)
    requires FlightsOk(s) && Enabled(s, e)
    requires s.medium.watermark <= Apply(s, e).medium.watermark
    ensures Carries(s, Apply(s, e))
  {
    forall i | 0 <= i < |s.medium.disk| && IntactAt(s.medium, i)
      ensures IntactAt(Apply(s, e).medium, i)
    {
      IntactStays(s, e, i);
    }
  }

  /** One step of the protocol keeps everything. */
  lemma SoundStep(s: State, e: Event)
    requires Sound(s) && Enabled(s, e)
    ensures Sound(Apply(s, e)) && Carries(s, Apply(s, e))
  {
    SlotsStep(s, e);
    FlightsStep(s, e);
    DepositedStep(s, e);
    MediumStep(s, e);
    CarriesStep(s, e);
  }

  lemma StartIsConsistent(total: nat, limit: nat, now: nat, m: Medium)
    ensures var s := Start(total, limit, now, m); SlotsOk(s) && FlightsOk(s) && Deposited(s)
  {
    var s := Start(total, limit, now, m);
    forall j | 0 <= j < total
      ensures j in s.ready
    {
      assert s.ready[j] == j;
    }
  }

  lemma SoundStart(total: nat, limit: nat, now: nat, m: Medium)
    requires MediumOk(m)
    ensures Sound(Start(total, limit, now, m))
  {
    StartIsConsistent(total, limit, now, m);
    forall i | 0 <= i < m.watermark / SECTOR
      ensures IntactAt(Start(total, limit, now, m).medium, i)
    {
    }
  }

  /** Watermark safety, over every run: whatever was read and written in whatever order,
      all sectors below the watermark are intact and the watermark never decreases. */
  lemma {:induction false} SoundAlways(s: State, es: seq<Event>, t: State)
    requires Sound(s) && Outcome(s, es) == Some(t)
    ensures Sound(t) && Carries(s, t)
    decreases |es|
  {
    if es == [] {
    } else {
      var u := Prior(s, es);
      SoundAlways(s, es[..|es| - 1], u);
      SoundStep(u, es[|es| - 1]);
    }
  }
}
