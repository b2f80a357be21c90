/** A whole session: tests run one after the other on the same file, each drained before the next. */
module Campaign {
  import opened Xorshift
  import opened Pattern
  import opened Protocol
  import opened Integrity
  import opened Alarms
  import opened Detection
  import opened Preparation

  /** One test: its queue, and what happened from its creation to its end. */
  datatype Phase = Phase(total: nat, limit: nat, now: nat, events: seq<Event>) {
    ghost function From(m: Medium): Option<State> {
      Outcome(Start(total, limit, now, m), events)
    }
  }

  /** What a sequence of tests leaves behind; a test ends drained, unless by an alarm. */
  ghost function After(m: Medium, phases: seq<Phase>): Option<Medium> {
    if phases == [] then Some(m)
    else
      match After(m, phases[..|phases| - 1])
      case None => None
      case Some(u) =>
        match phases[|phases| - 1].From(u)
        case None => None
        case Some(t) => if t.flights == map[] || t.medium.alarm then Some(t.medium) else None
  }

  /** A test that only reads, only writes, or has one slot. */
  ghost predicate Tame(p: Phase) {
    p.total <= 1
    || forall e, f | e in p.events && f in p.events && e.Submit? && f.Submit? :: e.request.write == f.request.write
  }

  /** Only submissions enter the log. */
  lemma {:induction false} LogIsSubmissions(s: State, es: seq<Event>, t: State, n: nat)
    requires s.log == [] && Outcome(s, es) == Some(t) && n < |t.log|
    ensures exists e :: e in es && e.Submit? && e.request == t.log[n]
    decreases |es|
  {
    if es == [] {
    } else {
      var front, e := es[..|es| - 1], es[|es| - 1];
      var u := Prior(s, es);
      if n < |u.log| {
        LogIsSubmissions(s, front, u, n);
        var d :| d in front && d.Submit? && d.request == u.log[n];
        assert d in es && u.log[n] == t.log[n];
      } else {
        assert e in es && e.Submit? && e.request == t.log[n];
      }
    }
  }

  lemma TameIsPure(m: Medium, p: Phase, t: State)
    requires p.From(m) == Some(t) && Tame(p)
    ensures Pure(t.log) || p.total <= 1
  {
    if p.total > 1 {
      forall i, k | 0 <= i < |t.log| && 0 <= k < |t.log|
        ensures t.log[i].write == t.log[k].write
      {
        LogIsSubmissions(Start(p.total, p.limit, p.now, m), p.events, t, i);
        LogIsSubmissions(Start(p.total, p.limit, p.now, m), p.events, t, k);
      }
    }
  }

  /** What holds between tests. */
  ghost predicate Calm(m: Medium) {
    MediumOk(m) && !m.alarm
  }

  /** One test keeps the file fit for the next and raises no alarm. */
  lemma CalmPhase(m: Medium, p: Phase, t: State)
    requires Calm(m) && p.From(m) == Some(t)
    requires Tame(p) || GoodBelow(m, |m.disk|)
    ensures Calm(t.medium) && (GoodBelow(m, |m.disk|) ==> GoodBelow(t.medium, |t.medium.disk|))
  {
    var s := Start(p.total, p.limit, p.now, m);
    if Tame(p) {
      TameIsPure(m, p, t);
    }
    NoFalseAlarm(p.total, p.limit, p.now, m, p.events, t);
    SoundStart(p.total, p.limit, p.now, m);
    SoundAlways(s, p.events, t);
    if GoodBelow(m, |m.disk|) {
      forall i | 0 <= i < |t.medium.disk|
        ensures IntactAt(t.medium, i)
      {
        assert IntactAt(m, i);
        assert IntactAt(s.medium, i);
      }
    }
  }

  lemma {:induction false} CalmCampaign(m: Medium, phases: seq<Phase>, u: Medium)
    requires Calm(m) && After(m, phases) == Some(u)
    requires (forall p | p in phases :: Tame(p)) || GoodBelow(m, |m.disk|)
    ensures Calm(u) && (GoodBelow(m, |m.disk|) ==> GoodBelow(u, |u.disk|))
  {
    if phases == [] {
    } else {
      var front, p := phases[..|phases| - 1], phases[|phases| - 1];
      var v := After(m, front).value;
      CalmCampaign(m, front, v);
      CalmPhase(v, p, p.From(v).value);
    }
  }

  /** No false alarms, end to end: after any tests, at any moment of the next one, no integrity
      error has been reported, if every test only reads, only writes or has one slot. */
  lemma NoAlarmInSession(m: Medium, phases: seq<Phase>, u: Medium, p: Phase, t: State)
    requires Calm(m) && After(m, phases) == Some(u) && p.From(u) == Some(t)
    requires (forall q | q in phases + [p] :: Tame(q)) || GoodBelow(m, |m.disk|)
    ensures !u.alarm && !t.medium.alarm
  {
    assert p in phases + [p] && forall q | q in phases :: q in phases + [p];
    CalmCampaign(m, phases, u);
    CalmPhase(u, p, t);
  }

  /** The whole program on a new file: after the preparation and the cut, tests of any kind, mixed
      reads and writes included, never report an integrity error if a full queue of the requests
      that prepared the file fits into it; and in any case tests of the kinds above do not. */
  lemma NoAlarmAfterPreparation(total: nat, size: nat, m: Medium, now: nat, es: seq<Event>, prepared: State,
                                beyond: nat -> Sector, phases: seq<Phase>, u: Medium, p: Phase, t: State)
    requires m.watermark == 0 && !m.alarm && size > 0 && size % SECTOR == 0 && size <= FileSize(m)
    requires Ends(total, size, m, now, es, prepared)
    requires total * size <= FileSize(m) || forall q | q in phases + [p] :: Tame(q)
    requires After(Cut(prepared.medium, prepared.writeTally.bytes, beyond), phases) == Some(u) && p.From(u) == Some(t)
    ensures !u.alarm && !t.medium.alarm
  {
    CutIsSound(total, size, m, now, es, prepared, beyond);
    NoAlarmInSession(Cut(prepared.medium, prepared.writeTally.bytes, beyond), phases, u, p, t);
  }

  /** One word of the file changed. */
  function Corrupted(m: Medium, i: nat, k: nat, w: Word): Medium
    requires i < |m.disk| && k < WORDS
  {
    m.(disk := m.disk[i := m.disk[i][k := w]])
  }

  lemma CorruptedIsDamaged(m: Medium, i: nat, k: nat, w: Word)
    requires MediumOk(m) && SECTOR * i < m.watermark && k < WORDS && i < |m.disk| && w != m.disk[i][k]
    ensures SectorDamaged(Corrupted(m, i, k, w), i)
  {
    assert IntactAt(m, i);
    SingleWordIsCaught(m.random, SECTOR * i, m.disk[i], k, w);
    ChainedIffIntact(m.random, SECTOR * i, m.disk[i][k := w]);
  }

  /** The scheme does its job: after any session, let one word below the watermark change; then in
      any run of reads in which a request that covers its sector finishes, the alarm is raised. */
  lemma CorruptionIsReported(start: Medium, phases: seq<Phase>, m: Medium, i: nat, k: nat, w: Word,
                             p: Phase, t: State, n: nat)
    requires Calm(start) && After(start, phases) == Some(m)
    requires (forall q | q in phases :: Tame(q)) || GoodBelow(start, |start.disk|)
    requires SECTOR * i < m.watermark && i < |m.disk| && k < WORDS && w != m.disk[i][k]
    requires p.From(Corrupted(m, i, k, w)) == Some(t) && OnlyReads(t.log)
    requires Finished(t, n) && t.log[n].First() <= i < t.log[n].First() + t.log[n].Sectors()
    ensures t.medium.alarm
  {
    CalmCampaign(start, phases, m);
    CorruptedIsDamaged(m, i, k, w);
    AlarmIff(p.total, p.limit, p.now, Corrupted(m, i, k, w), p.events, t);
    assert Damaged(Corrupted(m, i, k, w), t.log[n]);
  }
}
