/** The request queue as a transition system: one driver thread submits, refuses and is told
    of completions; the platform moves sectors and completes requests in any order. */
module Protocol {
  import opened Pattern

  datatype Option<+T> = None | Some(value: T)

  datatype Request = Request(offset: nat, size: nat, write: bool) {
    function Sectors(): nat { size / SECTOR }

    function First(): nat { offset / SECTOR }

    /** Whole sectors of a file of n sectors. */
    predicate Fits(n: nat) {
      size > 0 && size % SECTOR == 0 && offset % SECTOR == 0 && offset + size <= SECTOR * n
    }
  }

  /** A request owned by the platform. `number` counts submissions, `data` is the slot's buffer
      and `moved` the sectors transferred so far. */
  datatype Flight = Flight(request: Request, number: nat, issued: nat, data: seq<Sector>, moved: set<nat>)

  /** The per-direction counters of a workload. */
  datatype Tally = Tally(requests: nat, bytes: nat, elapsed: nat, minimum: nat, maximum: nat) {
    function Record(size: nat, latency: nat): Tally {
      Tally(requests + 1, bytes + size, elapsed + latency,
            if requests == 0 || latency < minimum then latency else minimum,
            if requests == 0 || latency > maximum then latency else maximum)
    }
  }

  /** What outlives a queue: the file, the watermark, and whether an integrity error ended the run. */
  datatype Medium = Medium(random: bool, watermark: nat, disk: seq<Sector>, alarm: bool)

  /** `ready` is the ring of free slots, `stale` the size each slot was last used with. */
  datatype State = State(
    total: nat, limit: nat, open: bool,
    ready: seq<nat>, stale: seq<nat>, flights: map<nat, Flight>,
    log: seq<Request>, submitted: nat, readTally: Tally, writeTally: Tally,
    now: nat, medium: Medium)

  const NO_TALLY := Tally(0, 0, 0, 0, 0)

  /** A worker that has just created its queue. */
  function Start(total: nat, limit: nat, now: nat, medium: Medium): State {
    State(total, limit, true,
          seq(total, i => i), seq(total, i => 0), map[],
          [], 0, NO_TALLY, NO_TALLY, now, medium)
  }

  datatype Event =
    | Submit(request: Request, at: nat, data: seq<Sector>)
    | Refuse
    | Move(slot: nat, k: nat)
    | Complete(slot: nat, at: nat)

  /** Data fit to be written: every sector carries its own pattern. */
  ghost predicate Stamped(random: bool, r: Request, data: seq<Sector>) {
    forall k | 0 <= k < |data| :: Intact(random, r.offset + SECTOR * k, data[k])
  }

  /** The check made on a completed read: the sectors below the watermark must be intact. */
  ghost predicate Passes(random: bool, watermark: nat, r: Request, data: seq<Sector>) {
    forall k | 0 <= k < |data| && r.offset + SECTOR * k < watermark ::
      Intact(random, r.offset + SECTOR * k, data[k])
  }

  predicate WithinLimit(s: State)
    requires s.ready != [] && s.ready[0] < |s.stale|
  {
    s.submitted + s.stale[s.ready[0]] <= s.limit
  }

  ghost predicate Enabled(s: State, e: Event) {
    && !s.medium.alarm
    && match e
       case Submit(r, at, data) =>
         && s.open && s.ready != [] && s.ready[0] < |s.stale| && WithinLimit(s)
         && r.Fits(|s.medium.disk|) && s.now <= at
         && |data| == r.Sectors() && (r.write ==> Stamped(s.medium.random, r, data))
       case Refuse =>
         s.open && s.ready != [] && s.ready[0] < |s.stale| && !WithinLimit(s)
       case Move(j, k) =>
         && j in s.flights && k < |s.flights[j].data|
         && s.flights[j].request.First() + k < |s.medium.disk|
       case Complete(j, at) =>
         && j in s.flights && s.now <= at && s.flights[j].issued <= at
         && forall k | 0 <= k < |s.flights[j].data| :: k in s.flights[j].moved
  }

  ghost function Submitted(s: State, r: Request, at: nat, data: seq<Sector>): State
    requires s.ready != [] && s.ready[0] < |s.stale|
  {
    var j := s.ready[0];
    s.(ready := s.ready[1..],
       stale := s.stale[j := r.size],
       flights := s.flights[j := Flight(r, |s.log|, at, data, {})],
       log := s.log + [r],
       submitted := s.submitted + r.size,
       now := at)
  }

  /** The limit check puts the slot back at the tail and ends the submission loop. */
  function Refused(s: State): State
    requires s.ready != []
  {
    s.(ready := s.ready[1..] + [s.ready[0]], open := false)
  }

  /** Sector k of a write reaches the file. */
  function Landed(disk: seq<Sector>, f: Flight, k: nat): seq<Sector>
    requires k < |f.data| && f.request.First() + k < |disk|
  {
    if f.request.write then disk[f.request.First() + k := f.data[k]] else disk
  }

  /** Sector k of the file reaches the buffer of a read. */
  function Transferred(disk: seq<Sector>, f: Flight, k: nat): Flight
    requires k < |f.data| && f.request.First() + k < |disk|
  {
    f.(data := if f.request.write then f.data else f.data[k := disk[f.request.First() + k]],
       moved := f.moved + {k})
  }

  function Moved(s: State, j: nat, k: nat): State
    requires j in s.flights && k < |s.flights[j].data|
    requires s.flights[j].request.First() + k < |s.medium.disk|
  {
    var f := s.flights[j];
    s.(medium := s.medium.(disk := Landed(s.medium.disk, f, k)),
       flights := s.flights[j := Transferred(s.medium.disk, f, k)])
  }

  /** A finished write moves the watermark if it begins there; a finished read is checked. */
  ghost function Checked(m: Medium, f: Flight): Medium {
    if f.request.write then
      m.(watermark := if f.request.offset == m.watermark then f.request.offset + f.request.size else m.watermark)
    else
      m.(alarm := !Passes(m.random, m.watermark, f.request, f.data))
  }

  /** The completion callback: the request is counted and checked. */
  ghost function CalledBack(s: State, f: Flight, at: nat): State
    requires f.issued <= at
  {
    var latency := at - f.issued;
    s.(now := at,
       readTally := if f.request.write then s.readTally else s.readTally.Record(f.request.size, latency),
       writeTally := if f.request.write then s.writeTally.Record(f.request.size, latency) else s.writeTally,
       medium := Checked(s.medium, f))
  }

  function Recycled(s: State, j: nat): State {
    s.(ready := s.ready + [j], flights := s.flights - {j})
  }

  ghost function Completed(s: State, j: nat, at: nat): State
    requires j in s.flights && s.flights[j].issued <= at
  {
    Recycled(CalledBack(s, s.flights[j], at), j)
  }

  ghost function Apply(s: State, e: Event): State
    requires Enabled(s, e)
  {
    match e
    case Submit(r, at, data) => Submitted(s, r, at, data)
    case Refuse => Refused(s)
    case Move(j, k) => Moved(s, j, k)
    case Complete(j, at) => Completed(s, j, at)
  }

  /** Where a sequence of events leads, if each is possible in its turn. */
  ghost function Outcome(s: State, es: seq<Event>): Option<State> {
    if es == [] then Some(s)
    else
      match Outcome(s, es[..|es| - 1])
      case None => None
      case Some(t) => if Enabled(t, es[|es| - 1]) then Some(Apply(t, es[|es| - 1])) else None
  }

  lemma OutcomeSnoc(s: State, es: seq<Event>, e: Event)
    ensures Outcome(s, es + [e]) ==
      match Outcome(s, es)
      case None => None
      case Some(t) => if Enabled(t, e) then Some(Apply(t, e)) else None
  {
    assert (es + [e])[..|es + [e]| - 1] == es;
  }

  lemma {:induction false} OutcomeConcat(s: State, es: seq<Event>, fs: seq<Event>)
    requires Outcome(s, es).Some?
    ensures Outcome(s, es + fs) == Outcome(Outcome(s, es).value, fs)
  {
    if fs == [] {
      assert es + fs == es;
    } else {
      var gs, f := fs[..|fs| - 1], fs[|fs| - 1];
      OutcomeConcat(s, es, gs);
      OutcomeSnoc(s, es + gs, f);
      assert es + fs == es + gs + [f];
    }
  }

  /** The state before the last event of a run. */
  lemma Prior(s: State, es: seq<Event>) returns (t: State)
    requires es != [] && Outcome(s, es).Some?
    ensures Outcome(s, es[..|es| - 1]) == Some(t)
    ensures Enabled(t, es[|es| - 1]) && Outcome(s, es) == Some(Apply(t, es[|es| - 1]))
  {
    t := Outcome(s, es[..|es| - 1]).value;
  }

  /* ---- Slots: the ring and the flights partition the queue ---- */

  ghost predicate SlotsOk(s: State) {
    && |s.stale| == s.total
    && (forall i | 0 <= i < |s.ready| :: s.ready[i] < s.total && s.ready[i] !in s.flights)
    && (forall i, k | 0 <= i < k < |s.ready| :: s.ready[i] != s.ready[k])
    && (forall j | j in s.flights :: j < s.total)
    && (forall j | 0 <= j < s.total :: j in s.ready || j in s.flights)
    && |s.ready| + |s.flights| == s.total
  }

  lemma SlotsSubmit(s: State, r: Request, at: nat, data: seq<Sector>)
    requires SlotsOk(s) && s.ready != []
    ensures SlotsOk(Submitted(s, r, at, data))
  {
    var t := Submitted(s, r, at, data);
    assert s.ready == [s.ready[0]] + t.ready;
  }

  lemma SlotsRefuse(s: State)
    requires SlotsOk(s) && s.ready != []
    ensures SlotsOk(Refused(s))
  {
    var t := Refused(s);
    assert s.ready == [s.ready[0]] + s.ready[1..];
  }

  lemma SlotsComplete(s: State, j: nat, at: nat)
    requires SlotsOk(s) && j in s.flights && s.flights[j].issued <= at
    ensures SlotsOk(Completed(s, j, at))
  {
    var t := Completed(s, j, at);
    assert t.flights.Keys == s.flights.Keys - {j};
    assert t.ready == s.ready + [j];
  }

  lemma SlotsStep(s: State, e: Event)
    requires SlotsOk(s) && Enabled(s, e)
    ensures SlotsOk(Apply(s, e))
  {
    match e
    case Submit(r, at, data) => SlotsSubmit(s, r, at, data);
    case Refuse => SlotsRefuse(s);
    case Move(j, k) => assert Apply(s, e).flights.Keys == s.flights.Keys;
    case Complete(j, at) => SlotsComplete(s, j, at);
  }

  /* ---- Flights: what the platform holds is what was submitted ---- */

  ghost predicate FlightOk(random: bool, sectors: nat, now: nat, log: seq<Request>, f: Flight) {
    && f.request.Fits(sectors)
    && |f.data| == f.request.Sectors()
    && f.issued <= now
    && f.number < |log| && log[f.number] == f.request
    && (f.request.write ==> Stamped(random, f.request, f.data))
  }

  ghost predicate FlightsOk(s: State) {
    && (forall j | j in s.flights ::
      && FlightOk(s.medium.random, |s.medium.disk|, s.now, s.log, s.flights[j])
      && j < |s.stale| && s.stale[j] == s.flights[j].request.size)
    && (forall i, j | i in s.flights && j in s.flights && i != j :: s.flights[i].number != s.flights[j].number)
    && (forall n | 0 <= n < |s.log| :: s.log[n].Fits(|s.medium.disk|))
  }

  /** A flight stays sound while time passes and the log grows. */
  lemma FlightLater(random: bool, sectors: nat, now: nat, later: nat, log: seq<Request>, longer: seq<Request>,
                    f: Flight)
    requires FlightOk(random, sectors, now, log, f) && now <= later && log <= longer
    ensures FlightOk(random, sectors, later, longer, f)
  {
  }

  lemma FlightsSubmit(s: State, r: Request, at: nat, data: seq<Sector>)
    requires SlotsOk(s) && FlightsOk(s) && Enabled(s, Submit(r, at, data))
    ensures FlightsOk(Submitted(s, r, at, data))
  {
    var t := Submitted(s, r, at, data);
    forall j | j in s.flights
      ensures FlightOk(t.medium.random, |t.medium.disk|, t.now, t.log, s.flights[j])
    {
      FlightLater(s.medium.random, |s.medium.disk|, s.now, at, s.log, t.log, s.flights[j]);
    }
    assert forall j | j in s.flights :: s.flights[j].number < |s.log|;
  }

  lemma FlightsComplete(s: State, j: nat, at: nat)
    requires SlotsOk(s) && FlightsOk(s) && Enabled(s, Complete(j, at))
    ensures FlightsOk(Completed(s, j, at))
  {
    var t := Completed(s, j, at);
    assert |t.medium.disk| == |s.medium.disk| && t.log == s.log && t.stale == s.stale && t.now == at;
    forall i | i in t.flights
      ensures i in s.flights && t.flights[i] == s.flights[i]
      ensures FlightOk(t.medium.random, |t.medium.disk|, t.now, t.log, s.flights[i])
    {
      FlightLater(s.medium.random, |s.medium.disk|, s.now, at, s.log, s.log, s.flights[i]);
    }
  }

  lemma FlightTransferred(random: bool, disk: seq<Sector>, now: nat, log: seq<Request>, f: Flight, k: nat)
    requires FlightOk(random, |disk|, now, log, f) && k < |f.data|
    ensures f.request.First() + k < |disk|
    ensures FlightOk(random, |disk|, now, log, Transferred(disk, f, k))
  {
  }

  lemma FlightsMove(s: State, j: nat, k: nat)
    requires SlotsOk(s) && FlightsOk(s) && Enabled(s, Move(j, k))
    ensures FlightsOk(Moved(s, j, k))
  {
    var t := Moved(s, j, k);
    FlightTransferred(s.medium.random, s.medium.disk, s.now, s.log, s.flights[j], k);
    assert |t.medium.disk| == |s.medium.disk|;
    forall i | i in t.flights
      ensures FlightOk(t.medium.random, |t.medium.disk|, t.now, t.log, t.flights[i])
      ensures t.flights[i].number == s.flights[i].number && t.flights[i].request == s.flights[i].request
    {
      if i != j {
        assert t.flights[i] == s.flights[i];
      }
    }
  }

  lemma FlightsStep(s: State, e: Event)
    requires SlotsOk(s) && FlightsOk(s) && Enabled(s, e)
    ensures FlightsOk(Apply(s, e))
  {
    match e
    case Submit(r, at, data) => FlightsSubmit(s, r, at, data);
    case Refuse =>
    case Move(j, k) => FlightsMove(s, j, k);
    case Complete(j, at) => FlightsComplete(s, j, at);
  }
}
