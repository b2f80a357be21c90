/** The asynchronous queue: slots with their own part of the I/O buffer, a ring of free slots,
    the platform that completes requests, and the worker loop that drives it. */
module Queue {
  import opened Xorshift
  import opened Pattern
  import opened Protocol
  import opened Integrity
  import opened Buffers
  import opened Service
  import opened Worker

  /** A call of the platform's wait: whether it may block, and what the queue had by then. */
  datatype WaitCall = WaitCall(block: bool, received: nat, free: nat)

  /** Only a wait for missing events, or for a slot, may block. */
  predicate BlocksFor(calls: seq<WaitCall>, events: nat) {
    forall i | 0 <= i < |calls| :: calls[i].block <==> calls[i].received < events || calls[i].free == 0
  }

  lemma OneMoreCall(calls: seq<WaitCall>, call: WaitCall, events: nat)
    requires BlocksFor(calls, events) && (call.block <==> call.received < events || call.free == 0)
    ensures BlocksFor(calls + [call], events)
  {
  }

  class AsyncQueue {
    const worker: IoWorker
    const total: nat
    /** Bytes of buffer per slot. */
    const capacity: nat

    var free: nat
    var active: nat
    var ready: seq<nat>
    var slots: seq<Slot>

    var submitted: nat
    var readTally: Tally
    var writeTally: Tally
    var maxActive: nat

    /** The platform's side: the clock and the requests it holds. */
    var now: nat
    var pending: map<nat, Held>

    /** History: all submissions, and whether the limit check has not yet ended them. */
    ghost var log: seq<Request>
    ghost var open: bool

    /** What the platform holds, with the data in the buffers. */
    ghost var flights: map<nat, Flight>

    ghost predicate Layout()
      reads `ready, `slots, `pending
    {
      && |slots| == total
      && (forall i | 0 <= i < |ready| :: ready[i] < total)
      && Placed(slots, capacity, worker.buf.Length) && HeldInSlots(slots, pending)
    }

    ghost function Stale(): seq<nat>
      reads `slots
    {
      StaleSizes(slots)
    }

    /** The state of the transition system that this object implements. */
    ghost function Abs(): State
      reads this, worker`iolimit, worker`watermark, worker`disk, worker`alarm
    {
      State(total, worker.iolimit, open, ready, Stale(), flights, log, submitted, readTally, writeTally, now,
        worker.AsMedium())
    }

    ghost predicate Tied()
      reads `ready, `slots, `pending, `flights, worker.buf
    {
      Layout() && flights == FlightsOf(worker.buf[..], slots, capacity, pending)
    }

    /** The counters agree with the ring. */
    ghost predicate Ready()
      reads `ready, `slots, `pending, `flights, `free, `active, worker.buf
    {
      Tied() && free == |ready| && free + active == total
    }

    /** Splits the I/O buffer into one page-aligned part per slot; all slots start out ready. */
    constructor (worker: IoWorker, depth: nat, pageSize: nat, now: nat)
      requires depth > 0 && pageSize > 0 && pageSize % SECTOR == 0
      requires WORD_BYTES * worker.buf.Length / depth >= pageSize
      ensures Ready() && this.worker == worker
      ensures Abs() == Start(depth, worker.iolimit, now, worker.AsMedium())
      ensures capacity == Share(WORD_BYTES * worker.buf.Length, depth, pageSize)
      ensures capacity >= pageSize && capacity % pageSize == 0
      ensures WORD_BYTES * worker.buf.Length / depth < capacity + pageSize
      ensures forall j | 0 <= j < total :: slots[j].base == BaseOf(capacity, j)
    {
      var bufsize := WORD_BYTES * worker.buf.Length / depth;
      bufsize := bufsize - bufsize % pageSize;
      BufferParts(worker.buf.Length, depth, pageSize, bufsize);
      this.worker := worker;
      total, capacity := depth, bufsize;
      free, active := depth, 0;
      submitted, maxActive := 0, 0;
      readTally, writeTally := NO_TALLY, NO_TALLY;
      this.now := now;
      pending, flights, log, open := map[], map[], [], true;
      var ring, entries := Entries(depth, bufsize);
      ready, slots := ring, entries;
    }

    /** All slots ready, in order, each with its part of the buffer and nothing in it. */
    static method Entries(depth: nat, capacity: nat) returns (ring: seq<nat>, entries: seq<Slot>)
      ensures ring == seq(depth, i => i) && StaleSizes(entries) == seq(depth, i => 0)
      ensures |entries| == depth && forall j | 0 <= j < depth ::
        entries[j] == Slot(Request(0, 0, false), 0, BaseOf(capacity, j))
    {
      ring, entries := [], [];
      var i := 0;
      while i < depth
        invariant 0 <= i <= depth && |entries| == i && |ring| == i
        invariant forall j | 0 <= j < i :: ring[j] == j
        invariant forall j | 0 <= j < i :: entries[j] == Slot(Request(0, 0, false), 0, BaseOf(capacity, j))
      {
        ring := ring + [i];
        entries := entries + [Slot(Request(0, 0, false), 0, BaseOf(capacity, i))];
        i := i + 1;
      }
    }

    /** The clock: later than before, by any amount. */
    method Now() returns (t: nat)
      modifies this`now
      ensures t == now && old(now) <= now && Abs() == old(Abs()).(now := t)
    {
      var passed: int := *;
      if passed > 0 {
        now := now + passed;
      }
      t := now;
    }

    /** The platform moves one sector of a request it holds. */
    method MoveSector(j: nat, k: nat)
      requires Ready() && j in pending && k < slots[j].request.Sectors()
      requires slots[j].request.First() + k < |worker.disk|
      modifies this`pending, this`flights, worker`disk, worker.buf
      ensures Ready() && Abs() == Moved(old(Abs()), j, k)
      ensures pending == old(pending)[j := old(pending)[j].(moved := old(pending)[j].moved + {k})]
    {
      ghost var words, disk := worker.buf[..], worker.disk;
      var held := pending[j].(moved := pending[j].moved + {k});
      Transfer(slots[j], k);
      FlightAfterFetch(words, worker.buf[..], slots[j], pending[j], k, disk);
      FlightsAfterMove(words, worker.buf[..], slots, capacity, pending, j, held);
      pending := pending[j := held];
      flights := flights[j := Transferred(disk, flights[j], k)];
    }

    /** To the file from the slot's buffer, or from the file into it. */
    method Transfer(slot: Slot, k: nat)
      requires slot.base + slot.request.size / WORD_BYTES <= worker.buf.Length && slot.request.size % SECTOR == 0
      requires k < slot.request.Sectors() && slot.request.First() + k < |worker.disk|
      modifies worker`disk, worker.buf
      ensures slot.request.write ==>
        && worker.buf[..] == old(worker.buf[..])
        && worker.disk == old(worker.disk)[slot.request.First() + k := SectorIn(worker.buf[..], slot.base, k)]
      ensures !slot.request.write ==>
        && worker.disk == old(worker.disk)
        && SectorIn(worker.buf[..], slot.base, k) == worker.disk[slot.request.First() + k]
      ensures forall p | 0 <= p < worker.buf.Length && !(slot.base + WORDS * k <= p < slot.base + WORDS * k + WORDS) ::
        worker.buf[p] == old(worker.buf[p])
    {
      var i := slot.request.First() + k;
      if slot.request.write {
        worker.disk := worker.disk[i := SectorIn(worker.buf[..], slot.base, k)];
      } else {
        Fetch(slot.base + WORDS * k, worker.disk[i]);
      }
    }

    /** The platform copies a sector of the file into the buffer. */
    method Fetch(at: nat, sector: Sector)
      requires at + WORDS <= worker.buf.Length
      modifies worker.buf
      ensures worker.buf[at..at + WORDS] == sector
      ensures forall p | 0 <= p < worker.buf.Length && !(at <= p < at + WORDS) :: worker.buf[p] == old(worker.buf[p])
    {
      var p := 0;
      while p < WORDS
        invariant 0 <= p <= WORDS
        invariant forall q | 0 <= q < p :: worker.buf[at + q] == sector[q]
        invariant forall q | 0 <= q < worker.buf.Length && !(at <= q < at + WORDS) ::
          worker.buf[q] == old(worker.buf[q])
      {
        worker.buf[at + p] := sector[p];
        p := p + 1;
      }
    }

    /** One more completion in the counters of a direction. */
    static method Count(tally: Tally, size: nat, elapsed: nat) returns (t: Tally)
      ensures t == tally.Record(size, elapsed)
    {
      var minimum, maximum := tally.minimum, tally.maximum;
      if tally.requests == 0 {
        minimum, maximum := elapsed, elapsed;
      } else {
        if elapsed < minimum {
          minimum := elapsed;
        }
        if elapsed > maximum {
          maximum := elapsed;
        }
      }
      t := Tally(tally.requests + 1, tally.bytes + size, tally.elapsed + elapsed, minimum, maximum);
    }

    /** A finished read is counted and checked; the alarm is the program's exit. */
    method ReadComplete(j: nat)
      requires Ready() && j in pending && !slots[j].request.write && slots[j].preSubmission <= now
      modifies this`now, this`readTally, worker`alarm
      ensures old(now) <= now
      ensures Abs() == CalledBack(old(Abs()), flights[j], now)
    {
      var slot := slots[j];
      var completed := Now();
      readTally := Count(readTally, slot.request.size, completed - slot.preSubmission);
      Check(slot, flights[j].data);
    }

    /** An integrity error raises the alarm. */
    method Check(slot: Slot, ghost data: seq<Sector>)
      requires slot.base + slot.request.size / WORD_BYTES <= worker.buf.Length && slot.request.size % SECTOR == 0
      requires data == DataOf(worker.buf[..], slot.base, slot.request.Sectors())
      modifies worker`alarm
      ensures worker.alarm == !Passes(worker.random, worker.watermark, slot.request, data)
    {
      var ok := CheckPattern(worker.buf, slot.base, slot.request.offset, slot.request.size, worker.watermark,
                             worker.random);
      assert forall k | 0 <= k < |data| :: data[k] == SectorIn(worker.buf[..], slot.base, k);
      worker.alarm := !ok;
    }

    /** A finished write is counted; the watermark follows writes that arrive in order. */
    method WriteComplete(j: nat)
      requires Ready() && j in pending && slots[j].request.write && slots[j].preSubmission <= now
      modifies this`now, this`writeTally, worker`watermark
      ensures old(now) <= now
      ensures Abs() == CalledBack(old(Abs()), flights[j], now)
    {
      var slot := slots[j];
      var completed := Now();
      writeTally := Count(writeTally, slot.request.size, completed - slot.preSubmission);
      if slot.request.offset == worker.watermark {
        worker.watermark := slot.request.offset + slot.request.size;
      }
    }

    /** A finished slot returns to the tail of the ring. */
    method Recycle(j: nat)
      requires Ready() && j in pending && active > 0
      modifies this`free, this`active, this`ready, this`pending, this`flights
      ensures Ready() && Abs() == Recycled(old(Abs()), j) && pending == old(pending) - {j} && active == old(active) - 1
    {
      FlightsAfterComplete(worker.buf[..], slots, capacity, pending, j);
      pending := pending - {j};
      flights := flights - {j};
      ready := ready + [j];
      free := free + 1;
      active := active - 1;
    }

    /** Called by the platform when a request is finished. */
    method Notify(j: nat)
      requires Ready() && j in pending && slots[j].preSubmission <= now && active > 0 && !worker.alarm
      modifies this`now, this`readTally, this`writeTally, this`free, this`active, this`ready, this`pending, this`flights
      modifies worker`watermark, worker`alarm
      ensures Ready() && old(now) <= now && Abs() == Completed(old(Abs()), j, now)
      ensures pending == old(pending) - {j} && active == old(active) - 1
    {
      if slots[j].request.write {
        WriteComplete(j);
      } else {
        ReadComplete(j);
      }
      Recycle(j);
    }

    /** The head of the ring goes back to the tail: its last size would pass the limit. */
    method Refuse()
      requires Ready() && ready != []
      modifies this`ready, this`open
      ensures Ready() && Abs() == Refused(old(Abs())) && !open && ready == old(ready[1..] + [ready[0]])
    {
      var j := ready[0];
      ready := ready[1..];
      ready := ready + [j];
      open := false;
    }

    /** Fills the slot's buffer if the request is a write. */
    method Prepare(slot: Slot)
      requires slot.base + slot.request.size / WORD_BYTES <= worker.buf.Length && slot.request.size % SECTOR == 0
      modifies worker`seed, worker.buf
      ensures worker.seed == SeedAfter(worker.random, old(worker.seed), slot.request)
      ensures slot.request.write ==>
        Filled(worker.buf[..], slot.base, slot.request.Sectors(), slot.request.offset, worker.random,
               old(worker.seed))
      ensures slot.request.write ==>
        Stamped(worker.random, slot.request, DataOf(worker.buf[..], slot.base, slot.request.Sectors()))
      ensures forall p | 0 <= p < worker.buf.Length && !(slot.base <= p < slot.base + slot.request.size / WORD_BYTES) ::
        worker.buf[p] == old(worker.buf[p])
    {
      if slot.request.write {
        ghost var seed := worker.seed;
        var next := FillPattern(worker.buf, slot.base, slot.request.offset, slot.request.size, worker.random,
                                 worker.seed);
        worker.seed := next;
        FilledIsStamped(worker.buf[..], slot.base, slot.request, worker.random, seed);
      }
    }

    /** Slot j, its buffer filled for a request, is handed to the platform. */
    method HandOver(j: nat, slot: Slot, ghost words: seq<Word>)
      requires Layout() && |words| == worker.buf.Length && flights == FlightsOf(words, slots, capacity, pending)
      requires j < total && j !in pending && slot.base == slots[j].base
      requires slot.request.size <= capacity && slot.request.size % SECTOR == 0
      requires forall p | 0 <= p < |words| && !(slot.base <= p < slot.base + slot.request.size / WORD_BYTES) ::
        worker.buf[p] == words[p]
      modifies this`slots, this`pending, this`flights
      ensures Tied()
      ensures slots == old(slots)[j := slot] && pending.Keys == old(pending.Keys) + {j}
      ensures flights == old(flights)[j := FlightAt(worker.buf[..], slot, Held(|log|, {}))]
    {
      var held := Held(|log|, {});
      FlightsAfterSubmit(words, worker.buf[..], slots, capacity, pending, j, slot, held);
      slots := slots[j := slot];
      pending := pending[j := held];
      flights := flights[j := FlightAt(worker.buf[..], slot, held)];
    }

    method Launch(j: nat, slot: Slot)
      requires Tied() && j < total && j !in pending && slot.base == slots[j].base
      requires slot.request.size <= capacity && slot.request.size % SECTOR == 0
      modifies this`slots, this`pending, this`flights, worker`seed, worker.buf
      ensures Tied() && j in flights && pending.Keys == old(pending.Keys) + {j}
      ensures worker.seed == SeedAfter(worker.random, old(worker.seed), slot.request)
      ensures Abs() == old(Abs()).(
        stale := old(Stale())[j := slot.request.size],
        flights := old(flights)[j := Flight(slot.request, |log|, slot.preSubmission, flights[j].data, {})])
      ensures |flights[j].data| == slot.request.Sectors()
      ensures slot.request.write ==> Stamped(worker.random, slot.request, flights[j].data)
    {
      ghost var words := worker.buf[..];
      Prepare(slot);
      HandOver(j, slot, words);
      assert Stale() == old(Stale())[j := slot.request.size];
    }

    method TakeHead() returns (j: nat)
      requires Ready() && ready != []
      modifies this`ready, this`free, this`active
      ensures Tied() && free == |ready| && free + active == total
      ensures j == old(ready[0]) && active == old(active) + 1 && Abs() == old(Abs()).(ready := old(ready)[1..])
    {
      j := ready[0];
      ready := ready[1..];
      free := free - 1;
      active := active + 1;
    }

    method Account(r: Request)
      modifies this`submitted, this`log, this`maxActive
      ensures Abs() == old(Abs()).(submitted := old(submitted) + r.size, log := old(log) + [r])
      ensures maxActive == if active > old(maxActive) then active else old(maxActive)
    {
      submitted := submitted + r.size;
      log := log + [r];
      if active > maxActive {
        maxActive := active;
      }
    }

    /** The head of the ring takes a request, which is not yet counted. */
    method Occupy(r: Request)
      requires Ready() && ready != [] && ready[0] !in pending
      requires r.size <= capacity && r.size % SECTOR == 0
      modifies this`ready, this`free, this`active, this`slots, this`now, this`pending, this`flights
      modifies worker`seed, worker.buf
      ensures Ready() && old(now) <= now && old(ready[0]) in flights
      ensures pending.Keys == old(pending.Keys) + {old(ready[0])} && active == old(active) + 1
      ensures worker.seed == SeedAfter(worker.random, old(worker.seed), r)
      ensures Abs() == Submitted(old(Abs()), r, now, flights[old(ready[0])].data).(
        log := old(log), submitted := old(submitted))
      ensures |flights[old(ready[0])].data| == r.Sectors()
      ensures r.write ==> Stamped(worker.random, r, flights[old(ready[0])].data)
    {
      var j := TakeHead();
      var t := Now();
      Launch(j, Slot(r, t, slots[j].base));
    }

    /** Takes the head of the ring for a request and submits it. */
    method Submit(r: Request)
      requires Ready() && ready != [] && ready[0] !in pending
      requires r.size <= capacity && r.size % SECTOR == 0
      modifies this`ready, this`free, this`active, this`slots, this`now, this`pending, this`flights, this`log
      modifies this`submitted, this`maxActive, worker`seed, worker.buf
      ensures Ready() && old(now) <= now && old(ready[0]) in flights
      ensures pending.Keys == old(pending.Keys) + {old(ready[0])} && active == old(active) + 1
      ensures !r.write || !worker.random ==> worker.seed == old(worker.seed)
      ensures r.write && worker.random ==> worker.seed == Draws(old(worker.seed), 62 * r.Sectors())
      ensures maxActive >= active && maxActive >= old(maxActive) && maxActive in {active, old(maxActive)}
      ensures Abs() == Submitted(old(Abs()), r, now, flights[old(ready[0])].data)
      ensures |flights[old(ready[0])].data| == r.Sectors()
      ensures r.write ==> Stamped(worker.random, r, flights[old(ready[0])].data)
    {
      Occupy(r);
      Account(r);
    }

    /** The platform at work: the queue is consistent and its events lead here from s. */
    ghost predicate Serving(s: State, es: seq<Event>)
      reads this, worker, worker.buf
    {
      && Ready() && active == |pending.Keys|
      && InBounds(flights, |worker.disk|, now)
      && Served(s, es, Abs())
    }

    /** One more sector moved, as an event of the platform. */
    method MoveStep(j: nat, k: nat, ghost s: State, ghost es: seq<Event>) returns (ghost fs: seq<Event>)
      requires Serving(s, es) && !worker.alarm && j in pending && k < slots[j].request.Sectors()
      modifies this`pending, this`flights, worker`disk, worker.buf
      ensures Serving(s, fs)
      ensures pending.Keys == old(pending.Keys) && pending[j].moved == old(pending[j].moved) + {k}
    {
      InBoundsMove(Abs(), j, k);
      ServedOneMore(s, es, Abs(), Move(j, k));
      MoveSector(j, k);
      fs := es + [Move(j, k)];
      assert pending.Keys == old(pending.Keys);
    }

    /** Meanwhile the platform moves any sectors of what it holds, in any order. */
    method Transfers(ghost s: State, ghost es: seq<Event>) returns (ghost fs: seq<Event>)
      requires Serving(s, es) && !worker.alarm
      modifies this`pending, this`flights, worker`disk, worker.buf
      ensures Serving(s, fs) && pending.Keys == old(pending.Keys)
    {
      fs := es;
      var steps: int := *;
      while steps > 0 && pending.Keys != {}
        invariant Serving(s, fs) && pending.Keys == old(pending.Keys)
        decreases steps
      {
        var j :| j in pending.Keys;
        assert j in flights;
        var k: nat :| k < slots[j].request.Sectors();
        fs := MoveStep(j, k, s, fs);
        steps := steps - 1;
      }
    }

    /** Before a request can complete, its first n sectors and finally all of them are moved. */
    method Finish(j: nat, n: nat, ghost s: State, ghost es: seq<Event>) returns (ghost fs: seq<Event>)
      requires Serving(s, es) && !worker.alarm && j in pending && n <= slots[j].request.Sectors()
      modifies this`pending, this`flights, worker`disk, worker.buf
      ensures Serving(s, fs) && pending.Keys == old(pending.Keys)
      ensures AllMoved(pending[j].moved, n)
      decreases n
    {
      fs := es;
      if n > 0 {
        fs := Finish(j, n - 1, s, es);
        ghost var moved := pending[j].moved;
        OneMoreMoved(moved, n - 1);
        if n - 1 !in pending[j].moved {
          fs := MoveStep(j, n - 1, s, fs);
          assert pending[j].moved == moved + {n - 1};
        }
      }
    }

    /** One completion, as an event of the platform. */
    method CompleteStep(j: nat, ghost s: State, ghost es: seq<Event>) returns (ghost fs: seq<Event>)
      requires Serving(s, es) && !worker.alarm && j in pending
      requires AllMoved(pending[j].moved, slots[j].request.Sectors())
      modifies this`now, this`readTally, this`writeTally, this`free, this`active, this`ready, this`pending, this`flights
      modifies worker`watermark, worker`alarm
      ensures Serving(s, fs) && pending.Keys == old(pending.Keys) - {j} && active == old(active) - 1
    {
      assert j in pending.Keys && flights[j].moved == pending[j].moved;
      ghost var t := Abs();
      Notify(j);
      InBoundsComplete(t, j, now);
      fs := es + [Complete(j, now)];
      ServedOneMore(s, es, t, Complete(j, now));
      assert pending.Keys == old(pending.Keys) - {j};
    }

    /** One request is finished and completes, and the platform goes on moving sectors. */
    method CompleteNext(j: nat, ghost s: State, ghost es: seq<Event>) returns (ghost fs: seq<Event>)
      requires Serving(s, es) && !worker.alarm && j in pending
      modifies this`now, this`readTally, this`writeTally, this`free, this`active, this`ready, this`pending, this`flights
      modifies worker`watermark, worker`alarm, worker`disk, worker.buf
      ensures Serving(s, fs) && pending.Keys == old(pending.Keys) - {j} && active == old(active) - 1
    {
      fs := Finish(j, slots[j].request.Sectors(), s, es);
      fs := CompleteStep(j, s, fs);
      if !worker.alarm {
        fs := Transfers(s, fs);
      }
    }

    /** The platform's wait: some of what it holds completes, at least one request if told to block. */
    method QueueWait(block: bool, received: nat, ghost s: State, ghost es: seq<Event>)
      returns (ghost fs: seq<Event>, ghost call: WaitCall)
      requires Serving(s, es) && !worker.alarm
      modifies this`now, this`readTally, this`writeTally, this`free, this`active, this`ready, this`pending, this`flights
      modifies worker`watermark, worker`alarm, worker`disk, worker.buf
      ensures Serving(s, fs) && active <= old(active)
      ensures block && old(active) > 0 ==> active < old(active)
      ensures call == WaitCall(block, received, old(free))
    {
      call := WaitCall(block, received, free);
      fs := Transfers(s, es);
      var done: set<nat> :| done <= pending.Keys && (block && pending.Keys != {} ==> done != {});
      while done != {} && !worker.alarm
        invariant Serving(s, fs) && done <= pending.Keys && active <= old(active)
        invariant block && old(active) > 0 ==> done != {} || active < old(active)
        invariant worker.alarm ==> active < old(active)
        decreases done
      {
        var j :| j in done;
        done := done - {j};
        fs := CompleteNext(j, s, fs);
      }
    }

    /** Harvests completions: blocks while fewer than `events` have arrived or no slot is free,
        and stops when a wait that need not block brings none. */
    method Wait(events: nat, ghost s: State, ghost es: seq<Event>)
      returns (received: nat, ghost fs: seq<Event>, ghost calls: seq<WaitCall>)
      requires Serving(s, es) && !worker.alarm && total > 0
      modifies this`now, this`readTally, this`writeTally, this`free, this`active, this`ready, this`pending, this`flights
      modifies worker`watermark, worker`alarm, worker`disk, worker.buf
      ensures Serving(s, fs)
      ensures worker.alarm || (received == old(active) - active && free > 0 && (received >= events || active == 0))
      ensures BlocksFor(calls, events)
    {
      received, fs, calls := 0, es, [];
      while active > 0 && !worker.alarm
        invariant Serving(s, fs) && BlocksFor(calls, events)
        invariant worker.alarm || received == old(active) - active
        decreases active
      {
        var oldActive := active;
        var block := received < events || free == 0;
        ghost var call;
        fs, call := QueueWait(block, received, s, fs);
        OneMoreCall(calls, call, events);
        calls := calls + [call];
        if oldActive - active <= 0 {
          break;
        }
        received := received + (oldActive - active);
      }
    }

    /** Waits for everything in flight. */
    method Barrier(ghost s: State, ghost es: seq<Event>) returns (received: nat, ghost fs: seq<Event>)
      requires Serving(s, es) && !worker.alarm && total > 0
      modifies this`now, this`readTally, this`writeTally, this`free, this`active, this`ready, this`pending, this`flights
      modifies worker`watermark, worker`alarm, worker`disk, worker.buf
      ensures Serving(s, fs)
      ensures worker.alarm || (received == old(active) && active == 0 && free == total && flights == map[])
    {
      ghost var calls;
      received, fs, calls := Wait(active, s, es);
      if active == 0 {
        assert pending.Keys == {};
        assert flights.Keys == {};
      }
    }

    /** The worker at work: the queue is consistent and its events since s lead here. */
    ghost predicate Running(s: State, es: seq<Event>)
      reads this, worker, worker.buf
    {
      && Ready() && active == |pending.Keys| && total > 0
      && InBounds(flights, |worker.disk|, now)
      && Outcome(s, es) == Some(Abs())
    }

    /** A submission, as an event of the run. */
    method SubmitStep(r: Request, ghost s: State, ghost es: seq<Event>) returns (ghost fs: seq<Event>)
      requires Running(s, es) && !worker.alarm && open && ready != [] && ready[0] !in pending
      requires submitted + slots[ready[0]].request.size <= worker.iolimit
      requires r.Fits(|worker.disk|) && r.size <= capacity
      modifies this, worker`seed, worker.buf
      ensures Running(s, fs) && log == old(log) + [r] && open == old(open)
      ensures worker.seed == SeedAfter(worker.random, old(worker.seed), r)
    {
      ghost var t := Abs();
      Submit(r);
      ghost var data := flights[t.ready[0]].data;
      RunSubmit(s, es, t, r, now, data);
      fs := es + [Event.Submit(r, now, data)];
    }

    /** The wait of the loop, as events of the run. */
    method Harvest(ghost s: State, ghost es: seq<Event>, events: nat)
      returns (received: nat, ghost fs: seq<Event>, ghost calls: seq<WaitCall>)
      requires Running(s, es) && !worker.alarm
      modifies this`now, this`readTally, this`writeTally, this`free, this`active, this`ready, this`pending, this`flights
      modifies worker`watermark, worker`alarm, worker`disk, worker.buf
      ensures Running(s, fs) && |worker.disk| == |old(worker.disk)|
      ensures worker.alarm || (received == old(active) - active && free > 0 && (received >= events || active == 0))
      ensures BlocksFor(calls, events)
    {
      ghost var t := Abs();
      ghost var gs;
      received, gs, calls := Wait(events, t, []);
      RunServed(s, es, t, gs, Abs());
      ServedKeeps(t, gs, Abs());
      fs := es + gs;
    }

    /** The limit check ends the submissions, as an event of the run. */
    method RefuseStep(ghost s: State, ghost es: seq<Event>) returns (ghost fs: seq<Event>)
      requires Running(s, es) && !worker.alarm && open && ready != []
      requires submitted + slots[ready[0]].request.size > worker.iolimit
      modifies this`ready, this`open
      ensures Running(s, fs) && !open && ready == old(ready[1..] + [ready[0]])
    {
      RunRefuse(s, es, Abs());
      Refuse();
      fs := es + [Event.Refuse];
    }

    /** A new queue on a sound file. */
    ghost predicate New()
      reads this, worker, worker.buf
    {
      && Ready() && total > 0 && MediumOk(worker.AsMedium())
      && Abs() == Start(total, worker.iolimit, now, worker.AsMedium())
    }

    lemma NewIsRunning()
      requires New()
      ensures Running(Abs(), []) && Sound(Abs()) && open && free > 0 && log == []
    {
      SoundStart(total, worker.iolimit, now, worker.AsMedium());
      assert pending.Keys == flights.Keys == {};
    }

    /** The barrier at the end of the run, as events of it. */
    method Drain(ghost s: State, ghost es: seq<Event>) returns (ghost fs: seq<Event>)
      requires Running(s, es) && !worker.alarm
      modifies this`now, this`readTally, this`writeTally, this`free, this`active, this`ready, this`pending, this`flights
      modifies worker`watermark, worker`alarm, worker`disk, worker.buf
      ensures Running(s, fs)
      ensures worker.alarm || (flights == map[] && active == 0 && free == total)
    {
      ghost var t := Abs();
      ghost var gs;
      var received;
      received, gs := Barrier(t, []);
      RunServed(s, es, t, gs, Abs());
      ServedKeeps(t, gs, Abs());
      fs := es + gs;
    }
  }
}
