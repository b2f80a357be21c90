/** Where slots keep their data in the one I/O buffer of a worker. */
module Buffers {
  import opened Arithmetic
  import opened Xorshift
  import opened Pattern
  import opened Protocol

  /** A queue entry: its last request and the word of the I/O buffer where its own buffer begins. */
  datatype Slot = Slot(request: Request, preSubmission: nat, base: nat)

  /** The sectors of a slot's buffer. */
  function DataOf(words: seq<Word>, base: nat, n: nat): seq<Sector>
    requires base + WORDS * n <= |words|
  {
    seq(n, k requires 0 <= k < n => SectorIn(words, base, k))
  }

  lemma DataFrame(before: seq<Word>, after: seq<Word>, base: nat, n: nat)
    requires |after| == |before| && base + WORDS * n <= |before|
    requires forall p | base <= p < base + WORDS * n :: after[p] == before[p]
    ensures DataOf(after, base, n) == DataOf(before, base, n)
  {
    forall k | 0 <= k < n
      ensures SectorIn(after, base, k) == SectorIn(before, base, k)
    {
      SectorFrame(before, after, base, k);
    }
  }

  /** The seed after the buffer of a request has been filled: a write with random data uses up 62
      draws a sector, any other request none. */
  function SeedAfter(random: bool, seed: Word, r: Request): Word {
    if r.write && random then Draws(seed, 62 * r.Sectors()) else seed
  }

  function StaleSizes(slots: seq<Slot>): seq<nat> {
    seq(|slots|, j requires 0 <= j < |slots| => slots[j].request.size)
  }

  lemma FilledIsStamped(words: seq<Word>, base: nat, r: Request, random: bool, seed: Word)
    requires Filled(words, base, r.Sectors(), r.offset, random, seed)
    ensures Stamped(random, r, DataOf(words, base, r.Sectors()))
  {
    var data := DataOf(words, base, r.Sectors());
    forall k | 0 <= k < |data|
      ensures Intact(random, r.offset + SECTOR * k, data[k])
    {
      assert data[k] == PatternSector(random, r.offset + SECTOR * k, SeedAt(random, seed, k));
    }
  }

  /** Slots with consecutive, in-bounds buffers of whole sectors, each request within its own. */
  ghost predicate Placed(slots: seq<Slot>, capacity: nat, words: nat) {
    && capacity % SECTOR == 0
    && (forall j | 0 <= j < |slots| ::
      && slots[j].base == BaseOf(capacity, j) && slots[j].base + capacity / WORD_BYTES <= words
      && slots[j].request.size <= capacity && slots[j].request.size % SECTOR == 0)
  }

  /** The share of the I/O buffer that each of `depth` slots gets, in whole pages. */
  function Share(bufsize: nat, depth: nat, pageSize: nat): nat
    requires depth > 0 && pageSize > 0
  {
    bufsize / depth - bufsize / depth % pageSize
  }

  /** The word where the buffer of slot j begins. */
  function BaseOf(capacity: nat, j: nat): nat {
    j * (capacity / WORD_BYTES)
  }

  lemma Apart(slots: seq<Slot>, capacity: nat, words: nat, i: nat, j: nat)
    requires Placed(slots, capacity, words) && i < |slots| && j < |slots| && i != j
    ensures slots[i].base + capacity / WORD_BYTES <= slots[j].base
      || slots[j].base + capacity / WORD_BYTES <= slots[i].base
  {
    PartsApart(capacity / WORD_BYTES, if i < j then i else j, if i < j then j else i);
  }

  /** A request held by the platform: the sectors moved so far, and which submission it is. */
  datatype Held = Held(ghost number: nat, moved: set<nat>)

  /** The first n sectors have been moved. */
  predicate AllMoved(moved: set<nat>, n: nat) {
    forall k | 0 <= k < n :: k in moved
  }

  lemma OneMoreMoved(moved: set<nat>, n: nat)
    requires AllMoved(moved, n)
    ensures AllMoved(moved + {n}, n + 1)
    ensures n in moved ==> AllMoved(moved, n + 1)
  {
  }

  ghost predicate HeldInSlots(slots: seq<Slot>, pending: map<nat, Held>) {
    forall j | j in pending :: j < |slots|
  }

  /** What the platform holds, as the transition system sees it. */
  ghost function FlightAt(words: seq<Word>, slot: Slot, held: Held): Flight
    requires slot.base + WORDS * slot.request.Sectors() <= |words|
  {
    Flight(slot.request, held.number, slot.preSubmission, DataOf(words, slot.base, slot.request.Sectors()), held.moved)
  }

  ghost function FlightsOf(words: seq<Word>, slots: seq<Slot>, capacity: nat, pending: map<nat, Held>): map<nat, Flight>
    requires Placed(slots, capacity, |words|) && HeldInSlots(slots, pending)
  {
    map j | j in pending :: FlightAt(words, slots[j], pending[j])
  }

  /** Buffers do not overlap: what happens in the buffer of slot j changes no other flight. */
  lemma FlightsAfterMove(words: seq<Word>, words': seq<Word>, slots: seq<Slot>, capacity: nat,
                         pending: map<nat, Held>, j: nat, held: Held)
    requires |words| == |words'| && Placed(slots, capacity, |words|) && HeldInSlots(slots, pending)
    requires j in pending
    requires forall p | 0 <= p < |words| && !(slots[j].base <= p < slots[j].base + capacity / WORD_BYTES) ::
      words'[p] == words[p]
    ensures HeldInSlots(slots, pending[j := held])
    ensures FlightsOf(words', slots, capacity, pending[j := held]) ==
      FlightsOf(words, slots, capacity, pending)[j := FlightAt(words', slots[j], held)]
  {
    forall i | i in pending && i != j
      ensures FlightAt(words', slots[i], pending[i]) == FlightAt(words, slots[i], pending[i])
    {
      if i != j {
        Apart(slots, capacity, |words|, i, j);
      }
      DataFrame(words, words', slots[i].base, slots[i].request.Sectors());
    }
  }

  lemma FlightAfterFetch(words: seq<Word>, words': seq<Word>, slot: Slot, held: Held, k: nat, disk: seq<Sector>)
    requires |words| == |words'| && slot.base + WORDS * slot.request.Sectors() <= |words|
    requires k < slot.request.Sectors() && slot.request.First() + k < |disk|
    requires slot.request.write ==> words' == words
    requires !slot.request.write ==>
      && SectorIn(words', slot.base, k) == disk[slot.request.First() + k]
      && forall p | 0 <= p < |words| && !(slot.base + WORDS * k <= p < slot.base + WORDS * k + WORDS) ::
        words'[p] == words[p]
    ensures FlightAt(words', slot, held.(moved := held.moved + {k}))
      == Transferred(disk, FlightAt(words, slot, held), k)
  {
    var n := slot.request.Sectors();
    var data := DataOf(words, slot.base, n);
    if !slot.request.write {
      forall i | 0 <= i < n && i != k
        ensures SectorIn(words', slot.base, i) == SectorIn(words, slot.base, i)
      {
        SectorFrame(words, words', slot.base, i);
      }
      assert DataOf(words', slot.base, n) == data[k := disk[slot.request.First() + k]];
    }
  }

  /** Filling slot j for a new request puts that flight in the air and touches no other. */
  lemma FlightsAfterSubmit(words: seq<Word>, words': seq<Word>, slots: seq<Slot>, capacity: nat,
                           pending: map<nat, Held>, j: nat, slot: Slot, held: Held)
    requires |words| == |words'| && Placed(slots, capacity, |words|) && HeldInSlots(slots, pending)
    requires j < |slots| && j !in pending && slot.base == slots[j].base
    requires slot.request.size <= capacity && slot.request.size % SECTOR == 0
    requires forall p | 0 <= p < |words| && !(slot.base <= p < slot.base + slot.request.size / WORD_BYTES) ::
      words'[p] == words[p]
    ensures Placed(slots[j := slot], capacity, |words|) && HeldInSlots(slots[j := slot], pending[j := held])
    ensures FlightsOf(words', slots[j := slot], capacity, pending[j := held]) ==
      FlightsOf(words, slots, capacity, pending)[j := FlightAt(words', slot, held)]
  {
    forall i | i in pending
      ensures FlightAt(words', slots[i], pending[i]) == FlightAt(words, slots[i], pending[i])
    {
      if i != j {
        Apart(slots, capacity, |words|, i, j);
      }
      DataFrame(words, words', slots[i].base, slots[i].request.Sectors());
    }
  }

  lemma FlightsAfterComplete(words: seq<Word>, slots: seq<Slot>, capacity: nat, pending: map<nat, Held>, j: nat)
    requires Placed(slots, capacity, |words|) && HeldInSlots(slots, pending)
    ensures HeldInSlots(slots, pending - {j})
    ensures FlightsOf(words, slots, capacity, pending - {j}) == FlightsOf(words, slots, capacity, pending) - {j}
  {
  }

  lemma PartsFit(words: nat, depth: nat, part: nat, whole: nat)
    requires WORD_BYTES * part <= whole && whole * depth <= WORD_BYTES * words
    ensures depth * part <= words
  {
    TimesMonotone(WORD_BYTES * part, whole, depth);
    assert WORD_BYTES * part * depth == WORD_BYTES * (depth * part);
  }

  lemma PageAligned(whole: nat, pageSize: nat)
    requires pageSize > 0 && pageSize % SECTOR == 0 && whole >= pageSize
    ensures var capacity := whole - whole % pageSize;
      capacity % pageSize == 0 && capacity % SECTOR == 0 && pageSize <= capacity <= whole < capacity + pageSize
  {
    var pages := whole / pageSize;
    assert whole == pages * pageSize + whole % pageSize;
    Remainder(pages * pageSize, pageSize, pages, 0);
    MultipleTimes(pageSize, pages, SECTOR);
    if pages > 0 {
      TimesMonotone(1, pages, pageSize);
    }
  }

  lemma PartsApart(part: nat, i: nat, j: nat)
    requires i < j
    ensures i * part + part <= j * part
  {
    TimesMonotone(i + 1, j, part);
    assert (i + 1) * part == i * part + part;
  }

  /** The share is the largest number of whole pages that all slots can have. */
  lemma ShareIsLargest(bufsize: nat, depth: nat, pageSize: nat, pages: nat)
    requires depth > 0 && pageSize > 0
    ensures pages * pageSize <= Share(bufsize, depth, pageSize) <==> pages * pageSize * depth <= bufsize
  {
    var whole := bufsize / depth;
    QuotientBounds(bufsize, depth);
    QuotientBounds(whole, pageSize);
    Whole(whole, pageSize);
    if pages * pageSize <= Share(bufsize, depth, pageSize) {
      TimesMonotone(pages * pageSize, whole, depth);
    } else {
      CancelFactor(whole / pageSize, pages, pageSize);
      TimesMonotone(whole / pageSize + 1, pages, pageSize);
      TimesMonotone(whole + 1, pages * pageSize, depth);
    }
  }

  /** The parts are whole sectors, disjoint, and inside the buffer, and no larger ones would be. */
  lemma BufferParts(words: nat, depth: nat, pageSize: nat, capacity: nat)
    requires depth > 0 && pageSize > 0 && pageSize % SECTOR == 0
    requires WORD_BYTES * words / depth >= pageSize
    requires capacity == Share(WORD_BYTES * words, depth, pageSize)
    ensures capacity % pageSize == 0 && capacity % SECTOR == 0 && capacity >= pageSize
    ensures WORD_BYTES * words / depth < capacity + pageSize
    ensures forall j | 0 <= j < depth :: BaseOf(capacity, j) + capacity / WORD_BYTES <= words
  {
    var whole := WORD_BYTES * words / depth;
    var part := capacity / WORD_BYTES;
    PageAligned(whole, pageSize);
    QuotientBounds(WORD_BYTES * words, depth);
    PartsFit(words, depth, part, whole);
    forall j | 0 <= j < depth
      ensures BaseOf(capacity, j) + part <= words
    {
      PartsApart(part, j, depth);
    }
  }
}
