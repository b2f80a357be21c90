/** The content every sector must carry, and the loops that write it and check it. */
module Pattern {
  import opened Stamps
  import opened Xorshift

  const SECTOR: nat := 512
  const WORDS: nat := 64
  const WORD_BYTES: nat := 8
  const FILLER: Word := 0xABCD_EF98_7654_3210

  type Sector = s: seq<Word> | |s| == WORDS witness seq(64, _ => 0)

  /** Reference content: the stamp, then the seed and its 62 draws, or 63 fillers. */
  function PatternWord(random: bool, offset: nat, seed: Word, k: nat): Word {
    if k == 0 then Stamp(offset) else if random then Draws(seed, k - 1) else FILLER
  }

  function PatternSector(random: bool, offset: nat, seed: Word): Sector {
    seq(WORDS, k requires 0 <= k < WORDS => PatternWord(random, offset, seed, k))
  }

  /** Word by word: the stamp, and then either the seed and after it each word the draw from the one
      before, or one constant. */
  lemma SectorLayout(random: bool, offset: nat, seed: Word)
    ensures var s := PatternSector(random, offset, seed);
      && s[0] == Stamp(offset)
      && (random ==> s[1] == seed && forall k | 2 <= k < 64 :: s[k] == Step(s[k - 1]))
      && (!random ==> forall k | 1 <= k < 64 :: s[k] == 0xABCDEF9876543210)
  {
    var s := PatternSector(random, offset, seed);
    forall k | 2 <= k < 64 && random
      ensures s[k] == Step(s[k - 1])
    {
      assert s[k] == PatternWord(random, offset, seed, k) && s[k - 1] == PatternWord(random, offset, seed, k - 1);
    }
  }

  /** A sector is intact at an offset when some seed explains all of its words. */
  ghost predicate Intact(random: bool, offset: nat, s: Sector) {
    exists seed: Word :: s == PatternSector(random, offset, seed)
  }

  /** What the checker looks at, word by word. */
  predicate Chained(random: bool, offset: nat, s: Sector) {
    && s[0] == Stamp(offset)
    && (random ==> forall k | 2 <= k < WORDS :: s[k] == Step(s[k - 1]))
    && (!random ==> forall k | 1 <= k < WORDS :: s[k] == FILLER)
  }

  lemma {:induction false} ChainIsDraws(offset: nat, s: Sector, k: nat)
    requires Chained(true, offset, s) && 1 <= k < WORDS
    ensures s[k] == Draws(s[1], k - 1)
  {
    if k == 1 {
    } else {
      ChainIsDraws(offset, s, k - 1);
    }
  }

  /** The checker is exact: it passes a sector if and only if some seed explains it. */
  lemma ChainedIffIntact(random: bool, offset: nat, s: Sector)
    ensures Chained(random, offset, s) <==> Intact(random, offset, s)
  {
    if Chained(random, offset, s) {
      forall k | 0 <= k < WORDS
        ensures s[k] == PatternWord(random, offset, s[1], k)
      {
        if random && k > 0 {
          ChainIsDraws(offset, s, k);
        }
      }
      assert s == PatternSector(random, offset, s[1]);
    }
    if Intact(random, offset, s) {
      var seed: Word :| s == PatternSector(random, offset, seed);
      assert forall k | 0 <= k < WORDS :: s[k] == PatternWord(random, offset, seed, k);
    }
  }

  /** Two intact random sectors that agree in any one word after the stamp agree in all of them. */
  lemma OneWordDecides(offset: nat, other: nat, s: Sector, t: Sector, k: nat)
    requires Intact(true, offset, s) && Intact(true, other, t)
    requires 1 <= k < WORDS && s[k] == t[k]
    ensures s[1..] == t[1..]
  {
    var a: Word :| s == PatternSector(true, offset, a);
    var b: Word :| t == PatternSector(true, other, b);
    assert s[k] == PatternWord(true, offset, a, k) && t[k] == PatternWord(true, other, b, k);
    DrawsInjective(a, b, k - 1);
    forall i | 1 <= i < WORDS
      ensures s[i] == t[i]
    {
      assert s[i] == PatternWord(true, offset, a, i) && t[i] == PatternWord(true, other, b, i);
    }
  }

  /** A sector that passes and shares a payload word with an intact one is that sector. */
  lemma PassingMeansUndamaged(random: bool, offset: nat, s: Sector, t: Sector)
    requires Intact(random, offset, s) && Chained(random, offset, t)
    requires !random || exists k | 1 <= k < WORDS :: t[k] == s[k]
    ensures t == s
  {
    ChainedIffIntact(random, offset, s);
    ChainedIffIntact(random, offset, t);
    if random {
      var k :| 1 <= k < WORDS && t[k] == s[k];
      OneWordDecides(offset, offset, t, s, k);
      assert t == [t[0]] + t[1..] && s == [s[0]] + s[1..];
    }
  }

  /** Any damage that leaves the stamp wrong, or spares at least one of the words after it
      while changing another, is rejected. In constant mode all damage is rejected. */
  lemma DamageIsRejected(random: bool, offset: nat, s: Sector, damaged: Sector)
    requires Intact(random, offset, s) && damaged != s
    requires damaged[0] != s[0] || !random || exists k | 1 <= k < WORDS :: damaged[k] == s[k]
    ensures !Chained(random, offset, damaged)
  {
    ChainedIffIntact(random, offset, s);
    if Chained(random, offset, damaged) {
      PassingMeansUndamaged(random, offset, s, damaged);
    }
  }

  /** In particular no change of a single word survives. */
  lemma SingleWordIsCaught(random: bool, offset: nat, s: Sector, k: nat, w: Word)
    requires Intact(random, offset, s) && k < WORDS && w != s[k]
    ensures !Chained(random, offset, s[k := w])
  {
    var damaged := s[k := w];
    var spared := if k == 1 then 2 else 1;
    assert damaged[k] != s[k] && damaged[spared] == s[spared];
    DamageIsRejected(random, offset, s, damaged);
  }

  /** Intact content read back from the wrong place passes only where the offsets agree modulo
      2^64: in a file of up to 2^64 bytes it never does. */
  lemma MisplacedIsCaught(random: bool, offset: nat, other: nat, s: Sector)
    requires Intact(random, offset, s)
    ensures Chained(random, other, s) <==> offset % TWO64 == other % TWO64
  {
    ChainedIffIntact(random, offset, s);
    StampIs(offset, other);
  }

  /** The seed that sector k of a request starts from: each random sector uses up 62 draws. */
  function SeedAt(random: bool, seed: Word, k: nat): Word {
    if random then Draws(seed, 62 * k) else seed
  }

  lemma SeedAtStep(random: bool, seed: Word, k: nat)
    ensures SeedAt(random, seed, k + 1)
      == if random then Draws(SeedAt(random, seed, k), 62) else SeedAt(random, seed, k)
  {
    if random {
      DrawsCompose(seed, 62 * k, 62);
      assert 62 * k + 62 == 62 * (k + 1);
    }
  }

  /** Sector k of the request data that starts at word `base` of the buffer. */
  function SectorIn(words: seq<Word>, base: nat, k: nat): Sector
    requires base + WORDS * k + WORDS <= |words|
  {
    words[base + WORDS * k..base + WORDS * k + WORDS]
  }

  /** The first n sectors at `base` hold the pattern of a write at `offset`. */
  ghost predicate Filled(words: seq<Word>, base: nat, n: nat, offset: nat, random: bool, seed: Word) {
    && base + WORDS * n <= |words|
    && forall k | 0 <= k < n ::
      SectorIn(words, base, k) == PatternSector(random, offset + SECTOR * k, SeedAt(random, seed, k))
  }

  lemma FilledOneMore(before: seq<Word>, after: seq<Word>, base: nat, n: nat, offset: nat, random: bool, seed: Word)
    requires Filled(before, base, n, offset, random, seed)
    requires |after| == |before| && base + WORDS * n + WORDS <= |after|
    requires forall p | base <= p < base + WORDS * n :: after[p] == before[p]
    requires SectorIn(after, base, n) == PatternSector(random, offset + SECTOR * n, SeedAt(random, seed, n))
    ensures Filled(after, base, n + 1, offset, random, seed)
  {
    forall k | 0 <= k < n
      ensures SectorIn(after, base, k) == SectorIn(before, base, k)
    {
      SectorFrame(before, after, base, k);
    }
  }

  lemma SectorFrame(before: seq<Word>, after: seq<Word>, base: nat, k: nat)
    requires |after| == |before| && base + WORDS * k + WORDS <= |after|
    requires forall p | base + WORDS * k <= p < base + WORDS * k + WORDS :: after[p] == before[p]
    ensures SectorIn(after, base, k) == SectorIn(before, base, k)
  {
  }

  /** Fills a request's data before it is written. */
  method FillPattern(buf: array<Word>, base: nat, offset: nat, size: nat, random: bool, seed: Word)
    returns (next: Word)
    requires size % SECTOR == 0 && base + size / WORD_BYTES <= buf.Length
    modifies buf
    ensures next == SeedAt(random, seed, size / SECTOR)
    ensures Filled(buf[..], base, size / SECTOR, offset, random, seed)
    ensures forall p | 0 <= p < buf.Length && !(base <= p < base + size / WORD_BYTES) :: buf[p] == old(buf[p])
  {
    next := seed;
    var i, p := 0, base;
    ghost var done := 0;
    while i < size
      invariant i == SECTOR * done && p == base + WORDS * done && i <= size
      invariant next == SeedAt(random, seed, done)
      invariant Filled(buf[..], base, done, offset, random, seed)
      invariant forall q | 0 <= q < buf.Length && !(base <= q < p) :: buf[q] == old(buf[q])
    {
      ghost var before := buf[..];
      next := FillSector(buf, p, offset + i, random, next);
      SeedAtStep(random, seed, done);
      FilledOneMore(before, buf[..], base, done, offset, random, seed);
      done := done + 1;
      i, p := i + SECTOR, p + WORDS;
    }
  }

  /** The body of the filling loop: one sector. */
  method FillSector(buf: array<Word>, p: nat, offset: nat, random: bool, seed: Word)
    returns (next: Word)
    requires p + WORDS <= buf.Length
    modifies buf
    ensures buf[p..p + WORDS] == PatternSector(random, offset, seed)
    ensures next == if random then Draws(seed, 62) else seed
    ensures forall q | 0 <= q < buf.Length && !(p <= q < p + WORDS) :: buf[q] == old(buf[q])
  {
    next := seed;
    var k := 0;
    buf[p] := Stamp(offset);
    k := 1;
    if random {
      buf[p + 1] := next;
      k := 2;
      while k < WORDS
        invariant 2 <= k <= WORDS
        invariant next == Draws(seed, k - 2)
        invariant forall j | 0 <= j < k :: buf[p + j] == PatternWord(random, offset, seed, j)
        invariant forall q | 0 <= q < buf.Length && !(p <= q < p + WORDS) :: buf[q] == old(buf[q])
      {
        next := RandomUint64(next);
        buf[p + k] := next;
        k := k + 1;
      }
    } else {
      while k < WORDS
        invariant 1 <= k <= WORDS
        invariant forall j | 0 <= j < k :: buf[p + j] == PatternWord(random, offset, seed, j)
        invariant forall q | 0 <= q < buf.Length && !(p <= q < p + WORDS) :: buf[q] == old(buf[q])
      {
        buf[p + k] := FILLER;
        k := k + 1;
      }
    }
  }

  /** Checks the data of a finished read up to the watermark; false is the integrity error. */
  method CheckPattern(buf: array<Word>, base: nat, offset: nat, size: nat, watermark: nat, random: bool)
    returns (ok: bool)
    requires size % SECTOR == 0 && base + size / WORD_BYTES <= buf.Length
    ensures ok <==> forall k | 0 <= k < size / SECTOR && offset + SECTOR * k < watermark ::
      Intact(random, offset + SECTOR * k, SectorIn(buf[..], base, k))
  {
    var i, p, off := 0, base, offset;
    ghost var done := 0;
    while i < size && off < watermark
      invariant i == SECTOR * done && p == base + WORDS * done && i <= size && off == offset + i
      invariant forall k | 0 <= k < done ::
        Intact(random, offset + SECTOR * k, SectorIn(buf[..], base, k))
    {
      var same := CheckSector(buf, p, off, random);
      if !same {
        assert !Intact(random, offset + SECTOR * done, SectorIn(buf[..], base, done));
        return false;
      }
      done := done + 1;
      i, p := i + SECTOR, p + WORDS;
      off := offset + i;
    }
    return true;
  }

  /** The body of the checking loop: one sector. */
  method CheckSector(buf: array<Word>, p: nat, offset: nat, random: bool) returns (ok: bool)
    requires p + WORDS <= buf.Length
    ensures ok <==> Intact(random, offset, buf[p..p + WORDS])
  {
    ghost var s := buf[p..p + WORDS];
    ChainedIffIntact(random, offset, s);
    if buf[p] != Stamp(offset) {
      return false;
    }
    if random {
      var seed := buf[p + 1];
      var k := 2;
      while k < WORDS
        invariant 2 <= k <= WORDS
        invariant seed == s[k - 1]
        invariant forall j | 2 <= j < k :: s[j] == Step(s[j - 1])
      {
        seed := RandomUint64(seed);
        if buf[p + k] != seed {
          assert s[k] != Step(s[k - 1]);
          return false;
        }
        k := k + 1;
      }
    } else {
      var k := 1;
      while k < WORDS
        invariant 1 <= k <= WORDS
        invariant forall j | 1 <= j < k :: s[j] == FILLER
      {
        if buf[p + k] != FILLER {
          assert s[k] != FILLER;
          return false;
        }
        k := k + 1;
      }
    }
    return true;
  }
}
