/** How a read can be overtaken by the watermark: it fetches a sector that is not intact, writes
    move the watermark past that sector, and then the read completes. */
module Overtaking {
  import opened Pattern
  import opened Protocol
  import opened Integrity
  import opened Service
  import opened Limits
  import opened Alarms

  /** A slot is free, no request is larger than `cap`, and `left` more bytes may be submitted. */
  ghost predicate Roomy(s: State, cap: nat, left: nat) {
    && s.open && !s.medium.alarm && s.ready != []
    && (forall j | 0 <= j < |s.stale| :: s.stale[j] <= cap)
    && s.submitted + left <= s.limit
  }

  /** Where the watermark is after requests that complete one after the other. */
  function Advanced(watermark: nat, rs: seq<Request>): nat {
    if rs == [] then watermark
    else
      var w, r := Advanced(watermark, rs[..|rs| - 1]), rs[|rs| - 1];
      if r.write && r.offset == w then r.offset + r.size else w
  }

  lemma AdvancedSnoc(watermark: nat, rs: seq<Request>, r: Request)
    ensures Advanced(watermark, rs + [r]) ==
      var w := Advanced(watermark, rs); if r.write && r.offset == w then r.offset + r.size else w
  {
    assert (rs + [r])[..|rs + [r]| - 1] == rs;
  }

  lemma {:induction false} AdvancedConcat(watermark: nat, rs: seq<Request>, qs: seq<Request>)
    ensures Advanced(watermark, rs + qs) == Advanced(Advanced(watermark, rs), qs)
  {
    if qs == [] {
      assert rs + qs == rs;
    } else {
      AdvancedConcat(watermark, rs, qs[..|qs| - 1]);
      AdvancedSnoc(watermark, rs + qs[..|qs| - 1], qs[|qs| - 1]);
      assert rs + qs == rs + qs[..|qs| - 1] + [qs[|qs| - 1]];
    }
  }

  /** From s to t the requests rs were made, none of them is in flight, and what was in flight is. */
  ghost predicate Made(s: State, t: State, rs: seq<Request>, cap: nat, left: nat) {
    && Roomy(t, cap, left) && t.flights == s.flights
    && t.medium.random == s.medium.random && |t.medium.disk| == |s.medium.disk|
    && t.medium.watermark == Advanced(s.medium.watermark, rs)
    && ((forall n | 0 <= n < |rs| :: !rs[n].write) ==> t.medium.disk == s.medium.disk)
  }

  /** The head of the ring takes a request. */
  lemma HeadTakes(s: State, r: Request, cap: nat, left: nat) returns (t: State)
    requires Sound(s) && Roomy(s, cap, left) && r.Fits(|s.medium.disk|) && r.size <= cap <= left
    ensures var e := Submit(r, s.now, DataFor(s.medium.random, r)); Enabled(s, e) && t == Apply(s, e)
    ensures Sound(t) && s.ready[0] !in s.flights
  {
    var e := Submit(r, s.now, DataFor(s.medium.random, r));
    DataForStamped(s.medium.random, r);
    SoundInBounds(s);
    t := Apply(s, e);
    SoundStep(s, e);
  }

  lemma MadeOne(s: State, u: State, t: State, r: Request, cap: nat, left: nat)
    requires Roomy(s, cap, left) && r.size <= cap <= left && s.ready[0] !in s.flights && s.ready[0] < |s.stale|
    requires u == Submitted(s, r, s.now, DataFor(s.medium.random, r)) && FinishedOne(u, t, s.ready[0])
    requires t.open == u.open && t.stale == u.stale && t.submitted == u.submitted && t.limit == u.limit
    requires t.medium.random == u.medium.random && |t.medium.disk| == |u.medium.disk|
    ensures t.medium.alarm || Made(s, t, [r], cap, left - r.size)
  {
    var j := s.ready[0];
    assert t.flights.Keys == s.flights.Keys;
    assert forall i | i in t.flights :: t.flights[i] == s.flights[i];
    assert t.flights == s.flights;
    assert Advanced(s.medium.watermark, []) == s.medium.watermark;
    AdvancedSnoc(s.medium.watermark, [], r);
    assert [] + [r] == [r];
  }

  lemma FirstThen(s: State, e: Event, u: State, fs: seq<Event>, t: State) returns (es: seq<Event>)
    requires Enabled(s, e) && u == Apply(s, e) && Outcome(u, fs) == Some(t)
    ensures Outcome(s, es) == Some(t)
  {
    OutcomeSnoc(s, [], e);
    assert [] + [e] == [e];
    OutcomeConcat(s, [e], fs);
    es := [e] + fs;
  }

  /** A request is made and finished before anything else happens. */
  lemma Solo(s: State, r: Request, cap: nat, left: nat) returns (es: seq<Event>, t: State)
    requires Sound(s) && Roomy(s, cap, left) && r.Fits(|s.medium.disk|) && r.size <= cap <= left
    ensures Outcome(s, es) == Some(t) && Sound(t) && t.log == s.log + [r]
    ensures t.medium.alarm || Made(s, t, [r], cap, left - r.size)
  {
    var u := HeadTakes(s, r, cap, left);
    var e := Submit(r, s.now, DataFor(s.medium.random, r));
    var fs;
    fs, t := FinishOne(u, s.ready[0]);
    ServedKeeps(u, fs, t);
    es := FirstThen(s, e, u, fs, t);
    MadeOne(s, u, t, r, cap, left);
  }

  lemma MadeMore(s: State, u: State, t: State, rs: seq<Request>, r: Request, cap: nat, left: nat, less: nat)
    requires Made(s, u, rs, cap, left) && Made(u, t, [r], cap, less)
    ensures Made(s, t, rs + [r], cap, less)
  {
    assert Advanced(u.medium.watermark, [r]) == Advanced(s.medium.watermark, rs + [r]) by {
      AdvancedConcat(s.medium.watermark, rs, [r]);
    }
    if forall n | 0 <= n < |rs + [r]| :: !(rs + [r])[n].write {
      assert !(rs + [r])[|rs|].write;
      assert forall n | 0 <= n < |rs| :: !(rs + [r])[n].write;
    }
  }

  /** From s the events led to t, where the requests rs were made, or an alarm ended them early. */
  ghost predicate Tried(s: State, es: seq<Event>, t: State, rs: seq<Request>, n: nat, cap: nat, left: nat) {
    && Outcome(s, es) == Some(t) && Sound(t) && n <= |rs| && t.log == s.log + rs[..n]
    && (t.medium.alarm || (n == |rs| && Made(s, t, rs, cap, left)))
  }

  lemma TryOneMore(s: State, es: seq<Event>, u: State, rs: seq<Request>, r: Request, cap: nat, left: nat)
    returns (fs: seq<Event>, t: State, n: nat)
    requires Tried(s, es, u, rs, |rs|, cap, left) && !u.medium.alarm
    requires r.Fits(|s.medium.disk|) && r.size <= cap <= left
    ensures Tried(s, fs, t, rs + [r], n, cap, left - cap)
  {
    var gs;
    gs, t := Solo(u, r, cap, left);
    OutcomeConcat(s, es, gs);
    fs, n := es + gs, |rs| + 1;
    assert (rs + [r])[..n] == rs + [r] && rs[..|rs|] == rs && s.log + (rs + [r]) == s.log + rs + [r];
    if !t.medium.alarm {
      MadeMore(s, u, t, rs, r, cap, left, left - r.size);
    }
  }

  lemma StillTried(s: State, es: seq<Event>, t: State, rs: seq<Request>, r: Request, n: nat, cap: nat, left: nat,
                   less: nat)
    requires Tried(s, es, t, rs, n, cap, left) && t.medium.alarm
    ensures Tried(s, es, t, rs + [r], n, cap, less)
  {
    assert (rs + [r])[..n] == rs[..n];
  }

  lemma NothingTried(s: State, cap: nat, left: nat)
    requires Sound(s) && Roomy(s, cap, left)
    ensures Tried(s, [], s, [], 0, cap, left)
  {
    assert s.log + [] == s.log;
  }

  /** Bytes enough for n requests. */
  function Budget(n: nat, cap: nat): nat {
    if n == 0 then 0 else Budget(n - 1, cap) + cap
  }

  /** Requests that fit into the file and under the cap. */
  ghost predicate Makeable(rs: seq<Request>, sectors: nat, cap: nat) {
    forall k | 0 <= k < |rs| :: rs[k].Fits(sectors) && rs[k].size <= cap
  }

  lemma MakeableFront(rs: seq<Request>, r: Request, sectors: nat, cap: nat)
    requires Makeable(rs + [r], sectors, cap)
    ensures Makeable(rs, sectors, cap) && r.Fits(sectors) && r.size <= cap
  {
    assert (rs + [r])[|rs|] == r;
    assert forall k | 0 <= k < |rs| :: rs[k] == (rs + [r])[k];
  }

  /** Requests are made one after the other, until an alarm. */
  lemma {:induction false} InTurn(s: State, rs: seq<Request>, cap: nat, left: nat)
    returns (es: seq<Event>, t: State, n: nat)
    requires Sound(s) && Roomy(s, cap, left + Budget(|rs|, cap)) && Makeable(rs, |s.medium.disk|, cap)
    ensures Tried(s, es, t, rs, n, cap, left)
    decreases |rs|
  {
    if rs == [] {
      NothingTried(s, cap, left);
      es, t, n := [], s, 0;
    } else {
      var front, r := rs[..|rs| - 1], rs[|rs| - 1];
      assert front + [r] == rs;
      MakeableFront(front, r, |s.medium.disk|, cap);
      es, t, n := InTurn(s, front, cap, left + cap);
      if t.medium.alarm {
        StillTried(s, es, t, front, r, n, cap, left + cap, left);
      } else {
        es, t, n := TryOneMore(s, es, t, front, r, cap, left + cap);
      }
    }
  }

  /* ---- The run ---- */

  /** Everything the read in slot j asked for is in its buffer as this disk holds it. */
  ghost predicate AllFetched(s: State, j: nat, disk: seq<Sector>) {
    j in s.flights && (forall k | 0 <= k < |s.flights[j].data| :: k in s.flights[j].moved)
    && s.flights[j].request.First() + |s.flights[j].data| <= |disk|
    && forall k | 0 <= k < |s.flights[j].data| :: s.flights[j].data[k] == disk[s.flights[j].request.First() + k]
  }

  /** From s to t slot j has taken the read and fetched all of it; nothing else has happened. */
  ghost predicate ReadEarly(s: State, t: State, j: nat, r: Request) {
    && t.flights.Keys == s.flights.Keys + {j} && (forall k | k in s.flights :: t.flights[k] == s.flights[k])
    && j in t.flights && t.flights[j].request == r && AllFetched(t, j, s.medium.disk) && t.medium == s.medium
  }

  lemma ReadFetched(s: State, u: State, t: State, r: Request, cap: nat, left: nat)
    requires Roomy(s, cap, left) && r.size <= cap <= left && !r.write && s.ready[0] !in s.flights
    requires s.ready[0] < |s.stale| && r.First() + r.Sectors() <= |s.medium.disk|
    requires u == Submitted(s, r, s.now, DataFor(s.medium.random, r)) && MovedUpTo(u, t, s.ready[0], r.Sectors())
    requires FetchedUpTo(t, s.ready[0], r.Sectors())
    requires t.open == u.open && t.stale == u.stale && t.submitted == u.submitted && t.limit == u.limit
    ensures ReadEarly(s, t, s.ready[0], r) && (|s.ready| >= 2 ==> Roomy(t, cap, left - r.size))
  {
    assert forall k | k in s.flights :: t.flights[k] == u.flights[k] == s.flights[k];
  }

  /** The read fetches its sectors at once and stays in flight. */
  lemma EarlyRead(s: State, r: Request, cap: nat, left: nat) returns (es: seq<Event>, t: State)
    requires Sound(s) && Roomy(s, cap, left) && r.Fits(|s.medium.disk|) && r.size <= cap <= left && !r.write
    ensures Outcome(s, es) == Some(t) && Sound(t) && t.log == s.log + [r]
    ensures ReadEarly(s, t, s.ready[0], r) && (|s.ready| >= 2 ==> Roomy(t, cap, left - r.size))
  {
    var j := s.ready[0];
    var u := HeadTakes(s, r, cap, left);
    var e := Submit(r, s.now, DataFor(s.medium.random, r));
    var fs;
    fs, t := MoveAll(u, j, r.Sectors());
    ServedKeeps(u, fs, t);
    ReadFetched(s, u, t, r, cap, left);
    SoundAlways(u, fs, t);
    es := FirstThen(s, e, u, fs, t);
  }

  lemma {:induction false} ReadsDoNotAdvance(watermark: nat, rs: seq<Request>)
    requires forall n | 0 <= n < |rs| :: !rs[n].write
    ensures Advanced(watermark, rs) == watermark
  {
    if rs == [] {
    } else {
      ReadsDoNotAdvance(watermark, rs[..|rs| - 1]);
    }
  }

  /** The early read completes below the watermark and fails the check. */
  lemma AlarmRaised(s: State, j: nat, m: Medium, i: nat)
    requires Sound(s) && !s.medium.alarm && j in s.flights && !s.flights[j].request.write
    requires AllFetched(s, j, m.disk) && s.medium.random == m.random && i < |m.disk| && !IntactAt(m, i)
    requires s.flights[j].request.First() <= i < s.flights[j].request.First() + s.flights[j].request.Sectors()
    requires SECTOR * i < s.medium.watermark
    ensures Enabled(s, Complete(j, s.now)) && Apply(s, Complete(j, s.now)).medium.alarm
    ensures Apply(s, Complete(j, s.now)).log == s.log
  {
    var f := s.flights[j];
    assert FlightOk(s.medium.random, |s.medium.disk|, s.now, s.log, f);
    var k := i - f.request.First();
    assert f.request.offset + SECTOR * k == SECTOR * i && f.data[k] == m.disk[i];
    assert !Passes(s.medium.random, s.medium.watermark, f.request, f.data);
  }

  /** The events lead from s, where nothing was submitted, to an alarm, and the submissions are
      the first n of rs. */
  ghost predicate Alarmed(s: State, es: seq<Event>, t: State, rs: seq<Request>, n: nat) {
    Outcome(s, es) == Some(t) && t.medium.alarm && n <= |rs| && t.log == rs[..n]
  }

  lemma PartOfSum(rs: seq<Request>, qs: seq<Request>, k: nat)
    requires k <= |qs|
    ensures (rs + qs)[..|rs| + k] == rs + qs[..k]
  {
  }

  lemma EndInAlarm(s: State, es: seq<Event>, t: State, j: nat, m: Medium, i: nat)
    returns (fs: seq<Event>, u: State)
    requires Outcome(s, es) == Some(t) && Sound(t) && j in t.flights && !t.flights[j].request.write
    requires AllFetched(t, j, m.disk) && t.medium.random == m.random && i < |m.disk| && !IntactAt(m, i)
    requires t.flights[j].request.First() <= i < t.flights[j].request.First() + t.flights[j].request.Sectors()
    requires SECTOR * i < t.medium.watermark && !t.medium.alarm
    ensures Outcome(s, fs) == Some(u) && u.medium.alarm && u.log == t.log
  {
    AlarmRaised(t, j, m, i);
    OutcomeSnoc(s, es, Complete(j, t.now));
    fs, u := es + [Complete(j, t.now)], Apply(t, Complete(j, t.now));
  }

  /** From the state in which the read waits, the writes raise the watermark and the read completes. */
  lemma Overtake(s: State, es: seq<Event>, v: State, j: nat, m: Medium, log: seq<Request>, after: seq<Request>,
                 i: nat, cap: nat)
    returns (fs: seq<Event>, t: State, n: nat)
    requires Outcome(s, es) == Some(v) && Sound(v) && v.log == log && Roomy(v, cap, Budget(|after|, cap))
    requires j in v.flights && !v.flights[j].request.write && AllFetched(v, j, m.disk) && i < |m.disk|
      && !IntactAt(m, i)
    requires v.flights[j].request.First() <= i < v.flights[j].request.First() + v.flights[j].request.Sectors()
    requires v.medium.random == m.random && Makeable(after, |v.medium.disk|, cap)
    requires SECTOR * i < Advanced(v.medium.watermark, after)
    ensures Alarmed(s, fs, t, log + after, n)
  {
    var gs, k;
    gs, t, k := InTurn(v, after, cap, 0);
    OutcomeConcat(s, es, gs);
    fs, n := es + gs, |log| + k;
    PartOfSum(log, after, k);
    if !t.medium.alarm {
      fs, t := EndInAlarm(s, fs, t, j, m, i);
    }
  }

  /** From a state with an idle queue and the file as it was, the read is made and overtaken. */
  lemma ReadAndOvertake(s: State, es: seq<Event>, u: State, m: Medium, r: Request, after: seq<Request>, i: nat,
                        cap: nat)
    returns (fs: seq<Event>, t: State, n: nat)
    requires Outcome(s, es) == Some(u) && Sound(u) && Roomy(u, cap, Budget(|after|, cap) + cap)
    requires u.flights == map[] && u.total >= 2 && u.medium == m
    requires !r.write && r.First() <= i < r.First() + r.Sectors() && i < |m.disk| && !IntactAt(m, i)
    requires r.Fits(|m.disk|) && r.size <= cap && Makeable(after, |m.disk|, cap)
    requires SECTOR * i < Advanced(m.watermark, after)
    ensures Alarmed(s, fs, t, u.log + [r] + after, n)
  {
    var gs, v := EarlyRead(u, r, cap, Budget(|after|, cap) + cap);
    OutcomeConcat(s, es, gs);
    fs, t, n := Overtake(s, es + gs, v, u.ready[0], m, u.log + [r], after, i, cap);
  }

  /** With two slots: reads, then a read of a sector that is not intact, then requests that raise
      the watermark past it. Made in this order they can be scheduled to end in an alarm. */
  lemma OvertakenRead(total: nat, m: Medium, before: seq<Request>, r: Request, after: seq<Request>, i: nat, cap: nat)
    returns (limit: nat, es: seq<Event>, t: State, n: nat)
    requires MediumOk(m) && !m.alarm && total >= 2
    requires Makeable(before, |m.disk|, cap) && Makeable(after, |m.disk|, cap) && r.Fits(|m.disk|) && r.size <= cap
    requires (forall k | 0 <= k < |before| :: !before[k].write) && !r.write
    requires r.First() <= i < r.First() + r.Sectors() && i < |m.disk| && !IntactAt(m, i)
    requires SECTOR * i < Advanced(m.watermark, after)
    ensures Alarmed(Start(total, limit, 0, m), es, t, before + [r] + after, n)
  {
    var left := Budget(|after|, cap) + cap;
    limit := left + Budget(|before|, cap);
    var s := Start(total, limit, 0, m);
    SoundStart(total, limit, 0, m);
    var u;
    es, u, n := InTurn(s, before, cap, left);
    if u.medium.alarm {
      t := u;
      assert (before + [r] + after)[..n] == before[..n] && s.log + before[..n] == before[..n];
    } else {
      ReadsDoNotAdvance(m.watermark, before);
      SoundAlways(s, es, u);
      assert u.log == before;
      es, t, n := ReadAndOvertake(s, es, u, m, r, after, i, cap);
    }
  }

  /** One-sector requests in order. */
  function Blocks(from: nat, n: nat): seq<Request> {
    seq(n, k requires 0 <= k < n => Request(SECTOR * (from + k), SECTOR, true))
  }

  lemma {:induction false} BlocksAdvance(from: nat, n: nat)
    ensures Advanced(SECTOR * from, Blocks(from, n)) == SECTOR * (from + n)
  {
    if n == 0 {
    } else {
      assert Blocks(from, n) == Blocks(from, n - 1) + [Request(SECTOR * (from + n - 1), SECTOR, true)];
      AdvancedSnoc(SECTOR * from, Blocks(from, n - 1), Request(SECTOR * (from + n - 1), SECTOR, true));
      BlocksAdvance(from, n - 1);
    }
  }

  lemma BlocksMakeable(from: nat, n: nat, sectors: nat)
    requires from + n <= sectors
    ensures Makeable(Blocks(from, n), sectors, SECTOR)
  {
  }

  /** A sector that is not intact is read early and overtaken by writes of one sector each. */
  lemma BlocksOvertake(total: nat, m: Medium, i: nat) returns (limit: nat, es: seq<Event>, t: State)
    requires MediumOk(m) && !m.alarm && total >= 2 && i < |m.disk| && !IntactAt(m, i)
    ensures Outcome(Start(total, limit, 0, m), es) == Some(t) && t.medium.alarm
  {
    var first := m.watermark / SECTOR;
    assert first <= i;
    BlocksAdvance(first, i + 1 - first);
    BlocksMakeable(first, i + 1 - first, |m.disk|);
    var n;
    limit, es, t, n := OvertakenRead(total, m, [], Request(SECTOR * i, SECTOR, false), Blocks(first, i + 1 - first),
                                     i, SECTOR);
  }

  /** No run on a queue of this depth raises an alarm, whatever the workload. */
  ghost predicate NeverAlarms(total: nat, m: Medium) {
    forall limit: nat, now: nat, es: seq<Event> ::
      var t := Outcome(Start(total, limit, now, m), es);
      t.Some? ==> !t.value.medium.alarm
  }

  /** With arbitrary reads and writes, no run alarms if and only if the queue has a single slot or
      the file is intact from end to end when the run begins. */
  lemma ArbitraryQuietIff(total: nat, m: Medium)
    requires MediumOk(m) && !m.alarm
    ensures NeverAlarms(total, m) <==> total <= 1 || GoodBelow(m, |m.disk|)
  {
    if total <= 1 || GoodBelow(m, |m.disk|) {
      forall limit: nat, now: nat, es: seq<Event> | Outcome(Start(total, limit, now, m), es).Some?
        ensures !Outcome(Start(total, limit, now, m), es).value.medium.alarm
      {
        NoFalseAlarm(total, limit, now, m, es, Outcome(Start(total, limit, now, m), es).value);
      }
    } else {
      var i :| 0 <= i < |m.disk| && !IntactAt(m, i);
      var limit, es, t := BlocksOvertake(total, m, i);
      assert Outcome(Start(total, limit, 0, m), es).Some?;
    }
  }
}
