/** Draws that make the mixed workload walk where it is wanted, with requests of its smallest size. */
module MixedPlans {
  import opened Stamps
  import opened Protocol
  import opened Weights
  import opened MixedGenerator
  import opened Overtaking

  /** A backward sequential read, a forward and a backward sequential write. */
  const READ_BACK: nat := 32
  const WRITE_ON: nat := 0xFFFF_FFE1
  const WRITE_BACK: nat := 0xFFFF_FFE0

  lemma SmallestPicked(lo: nat, draw: nat)
    requires lo < SIZES && draw < TWO32
    ensures Pick(lo, draw) == lo
  {
    SizeCanBeDrawn(RANDOM_BASE, lo, lo);
    SizeCanBeDrawn(SEQUENTIAL_BASE, lo, lo);
    ChosenIff(RANDOM_BASE, lo, 0, lo);
    ChosenIff(SEQUENTIAL_BASE, lo, 0, lo);
  }

  lemma DrawsChoose()
    ensures Choose(READ_BACK) == Choice(false, true, false)
    ensures Choose(WRITE_ON) == Choice(true, true, true) && Choose(WRITE_BACK) == Choice(true, true, false)
  {
  }

  /** Some draws make these requests and leave the walks here. */
  ghost predicate Runs(lo: nat, f: nat, rs: seq<Request>, w: Walks)
    requires lo < SIZES && MAX_IO_SIZE <= f
  {
    exists draws :: AreDraws(draws) && MixedRun(lo, f, draws) == (rs, w)
  }

  lemma RunsNothing(lo: nat, f: nat)
    requires lo < SIZES && MAX_IO_SIZE <= f
    ensures Runs(lo, f, [], Walks(0, 0, 0, 0))
  {
    assert AreDraws([]) && MixedRun(lo, f, []) == ([], Walks(0, 0, 0, 0));
  }

  lemma RunsOneMore(lo: nat, f: nat, rs: seq<Request>, w: Walks, draw: nat)
    requires lo < SIZES && MAX_IO_SIZE <= f && draw < TWO64 && Runs(lo, f, rs, w)
    ensures var (r, w') := MixedRequest(w, lo, f, draw); Runs(lo, f, rs + [r], w')
  {
    var draws :| AreDraws(draws) && MixedRun(lo, f, draws) == (rs, w);
    MixedRunSnoc(lo, f, draws, draw);
    assert AreDraws(draws + [draw]);
  }

  /** The length of n requests of one size. */
  function Span(n: nat, s: nat): nat {
    if n == 0 then 0 else Span(n - 1, s) + s
  }

  lemma {:induction false} SpanIs(n: nat, s: nat)
    ensures Span(n, s) == n * s
  {
    if n == 0 {
    } else {
      SpanIs(n - 1, s);
      assert n * s == (n - 1) * s + s;
    }
  }

  lemma {:induction false} SpanOrder(n: nat, k: nat, s: nat)
    requires n <= k
    ensures Span(n, s) <= Span(k, s) && (n < k ==> Span(n, s) + s <= Span(k, s))
    decreases k
  {
    if n == k {
    } else {
      SpanOrder(n, k - 1, s);
    }
  }

  /** Requests from the end of the file down. */
  function Down(write: bool, s: nat, f: nat, n: nat): seq<Request>
    requires Span(n, s) <= f
  {
    if n == 0 then [] else Down(write, s, f, n - 1) + [Request(f - Span(n, s), s, write)]
  }

  /** Writes from the start of the file up. */
  function Up(s: nat, n: nat): seq<Request> {
    if n == 0 then [] else Up(s, n - 1) + [Request(Span(n - 1, s), s, true)]
  }

  /** Where a backward walk stands after n of them. */
  function DownTo(p: nat, s: nat, f: nat, n: nat): nat
    requires Span(n, s) <= f
  {
    if n == 0 then p else f - Span(n, s)
  }

  lemma RunOnce(lo: nat, f: nat, rs: seq<Request>, w: Walks, draw: nat, rs': seq<Request>, w': Walks)
    requires lo < SIZES && MAX_IO_SIZE <= f && draw < TWO32 && Choose(draw).sequential && Runs(lo, f, rs, w)
    requires var c := Choose(draw); var (offset, p) := Stride(c.forward, w.At(c.write, c.forward), SizeAt(lo), f);
      rs' == rs + [Request(offset, SizeAt(lo), c.write)] && w' == w.With(c.write, c.forward, p)
    ensures Runs(lo, f, rs', w')
  {
    SmallestPicked(lo, draw);
    RunsOneMore(lo, f, rs, w, draw);
  }

  /** One step of a walk back. */
  lemma StepBack(p: nat, s: nat, f: nat, n: nat)
    requires n > 0 && p < s <= f && Span(n, s) <= f
    ensures Stride(false, DownTo(p, s, f, n - 1), s, f) == (f - Span(n, s), DownTo(p, s, f, n))
  {
  }

  lemma WriteOn(lo: nat, f: nat, rs: seq<Request>, w: Walks, n: nat, s: nat, rs': seq<Request>)
    requires lo < SIZES && MAX_IO_SIZE <= f && s == SizeAt(lo) && n > 0 && Span(n, s) <= f
    requires w.pos3 == Span(n - 1, s) && Runs(lo, f, rs, w)
    requires rs' == rs + [Request(Span(n - 1, s), s, true)]
    ensures Runs(lo, f, rs', w.(pos3 := Span(n, s)))
  {
    DrawsChoose();
    RunOnce(lo, f, rs, w, WRITE_ON, rs', w.(pos3 := Span(n, s)));
  }

  lemma {:induction false} WritesUp(lo: nat, f: nat, rs: seq<Request>, w: Walks, n: nat, s: nat)
    requires lo < SIZES && MAX_IO_SIZE <= f && s == SizeAt(lo) && Span(n, s) <= f
    requires Runs(lo, f, rs, w) && w.pos3 == 0
    ensures Runs(lo, f, rs + Up(s, n), w.(pos3 := Span(n, s)))
  {
    if n == 0 {
      assert rs + Up(s, 0) == rs && w.(pos3 := 0) == w;
    } else {
      WritesUp(lo, f, rs, w, n - 1, s);
      assert rs + Up(s, n) == rs + Up(s, n - 1) + [Request(Span(n - 1, s), s, true)];
      WriteOn(lo, f, rs + Up(s, n - 1), w.(pos3 := Span(n - 1, s)), n, s, rs + Up(s, n));
    }
  }

  /** One more backward request. */
  lemma DownOnce(lo: nat, f: nat, rs: seq<Request>, w: Walks, p: nat, n: nat, s: nat, write: bool, rs': seq<Request>)
    requires lo < SIZES && MAX_IO_SIZE <= f && s == SizeAt(lo) && n > 0 && p < s && Span(n, s) <= f
    requires w.At(write, false) == DownTo(p, s, f, n - 1) && Runs(lo, f, rs, w)
    requires rs' == rs + [Request(f - Span(n, s), s, write)]
    ensures Runs(lo, f, rs', w.With(write, false, DownTo(p, s, f, n)))
  {
    DrawsChoose();
    StepBack(p, s, f, n);
    RunOnce(lo, f, rs, w, if write then WRITE_BACK else READ_BACK, rs', w.With(write, false, DownTo(p, s, f, n)));
  }

  lemma {:induction false} ReadsDown(lo: nat, f: nat, n: nat, s: nat)
    requires lo < SIZES && MAX_IO_SIZE <= f && s == SizeAt(lo) && Span(n, s) <= f
    ensures Runs(lo, f, Down(false, s, f, n), Walks(0, DownTo(0, s, f, n), 0, 0))
  {
    if n == 0 {
      RunsNothing(lo, f);
    } else {
      ReadsDown(lo, f, n - 1, s);
      DownOnce(lo, f, Down(false, s, f, n - 1), Walks(0, DownTo(0, s, f, n - 1), 0, 0), 0, n, s, false,
               Down(false, s, f, n));
    }
  }

  lemma MoreDown(rs: seq<Request>, s: nat, f: nat, n: nat)
    requires n > 0 && Span(n, s) <= f
    ensures rs + Down(true, s, f, n) == rs + Down(true, s, f, n - 1) + [Request(f - Span(n, s), s, true)]
  {
  }

  lemma WriteBack(lo: nat, f: nat, rs: seq<Request>, w: Walks, p: nat, n: nat, s: nat, rs': seq<Request>)
    requires lo < SIZES && MAX_IO_SIZE <= f && s == SizeAt(lo) && n > 0 && p < s && Span(n, s) <= f
    requires w.pos4 == DownTo(p, s, f, n - 1) && Runs(lo, f, rs, w)
    requires rs' == rs + [Request(f - Span(n, s), s, true)]
    ensures Runs(lo, f, rs', w.(pos4 := DownTo(p, s, f, n)))
  {
    DownOnce(lo, f, rs, w, p, n, s, true, rs');
  }

  lemma {:induction false} WritesDown(lo: nat, f: nat, rs: seq<Request>, w: Walks, n: nat, s: nat)
    requires lo < SIZES && MAX_IO_SIZE <= f && s == SizeAt(lo) && Span(n, s) <= f
    requires Runs(lo, f, rs, w) && w.pos4 < s
    ensures Runs(lo, f, rs + Down(true, s, f, n), w.(pos4 := DownTo(w.pos4, s, f, n)))
  {
    if n == 0 {
      assert rs + Down(true, s, f, 0) == rs && w.(pos4 := w.pos4) == w;
    } else {
      WritesDown(lo, f, rs, w, n - 1, s);
      MoreDown(rs, s, f, n);
      WriteBack(lo, f, rs + Down(true, s, f, n - 1), w.(pos4 := DownTo(w.pos4, s, f, n - 1)), w.pos4, n, s,
                rs + Down(true, s, f, n));
    }
  }

  /** Backward writes over the whole grid, q requests a time, p times. */
  function Sweeps(s: nat, f: nat, q: nat, p: nat): seq<Request>
    requires Span(q, s) <= f
  {
    if p == 0 then [] else Sweeps(s, f, q, p - 1) + Down(true, s, f, q)
  }

  lemma {:induction false} WritesInSweeps(lo: nat, f: nat, rs: seq<Request>, w: Walks, q: nat, p: nat, s: nat)
    returns (w': Walks)
    requires lo < SIZES && MAX_IO_SIZE <= f && s == SizeAt(lo) && Span(q, s) <= f < Span(q, s) + s
    requires Runs(lo, f, rs, w) && w.pos4 < s
    ensures Runs(lo, f, rs + Sweeps(s, f, q, p), w') && w'.pos4 < s
  {
    if p == 0 {
      w' := w;
      assert rs + Sweeps(s, f, q, 0) == rs;
    } else {
      w' := WritesInSweeps(lo, f, rs, w, q, p - 1, s);
      WritesDown(lo, f, rs + Sweeps(s, f, q, p - 1), w', q, s);
      w' := w'.(pos4 := DownTo(w'.pos4, s, f, q));
      assert rs + Sweeps(s, f, q, p) == rs + Sweeps(s, f, q, p - 1) + Down(true, s, f, q);
    }
  }

  /* ---- What the writes do to the watermark ---- */

  lemma {:induction false} UpAdvances(s: nat, n: nat, a: nat)
    requires s > 0
    ensures Advanced(Span(a, s), Up(s, n)) == if n <= a then Span(a, s) else Span(n, s)
  {
    if n == 0 {
    } else {
      UpAdvances(s, n - 1, a);
      AdvancedSnoc(Span(a, s), Up(s, n - 1), Request(Span(n - 1, s), s, true));
      if n <= a {
        SpanOrder(n - 1, a, s);
      }
    }
  }

  /** A pass raises a watermark on its grid once. */
  lemma {:induction false} DownAdvances(s: nat, f: nat, n: nat, c: nat, a: nat)
    requires s > 0 && Span(n, s) <= f && 0 < c && Span(c, s) <= f && a == f - Span(c, s)
    ensures Advanced(a, Down(true, s, f, n)) == if n < c then a else a + s
  {
    if n == 0 {
    } else {
      DownAdvances(s, f, n - 1, c, a);
      AdvancedSnoc(a, Down(true, s, f, n - 1), Request(f - Span(n, s), s, true));
      if n < c {
        SpanOrder(n, c, s);
      } else {
        SpanOrder(c, n, s);
      }
    }
  }

  lemma {:induction false} SweepsAdvance(s: nat, f: nat, q: nat, p: nat, c: nat, a: nat)
    requires s > 0 && p <= c <= q && Span(q, s) <= f && Span(c, s) <= f && a == f - Span(c, s)
    ensures Span(c - p, s) <= f && Advanced(a, Sweeps(s, f, q, p)) == f - Span(c - p, s)
  {
    if p == 0 {
    } else {
      SweepsAdvance(s, f, q, p - 1, c, a);
      DownAdvances(s, f, q, c - (p - 1), f - Span(c - (p - 1), s));
      AdvancedConcat(a, Sweeps(s, f, q, p - 1), Down(true, s, f, q));
    }
  }
}
