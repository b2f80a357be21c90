/** The 64-bit generator that seeds, positions and payloads are drawn from. */
module Xorshift {
  type Word = bv64

  /** The seed of a new worker. */
  const FIRST_SEED: Word := 88172645463325252

  function XorLeft13(x: Word): Word { x ^ (x << 13) }

  function XorRight7(x: Word): Word { x ^ (x >> 7) }

  function XorLeft17(x: Word): Word { x ^ (x << 17) }

  /** One draw: the new seed, which is also the value returned. */
  function Step(seed: Word): Word {
    XorLeft17(XorRight7(XorLeft13(seed)))
  }

  /* Each xor-with-own-shift is undone by xoring all the multiples of the shift. */
  function UnLeft13(y: Word): Word { y ^ (y << 13) ^ (y << 26) ^ (y << 39) ^ (y << 52) }

  function UnRight7(y: Word): Word {
    y ^ (y >> 7) ^ (y >> 14) ^ (y >> 21) ^ (y >> 28) ^ (y >> 35) ^ (y >> 42) ^ (y >> 49) ^ (y >> 56) ^ (y >> 63)
  }

  function UnLeft17(y: Word): Word { y ^ (y << 17) ^ (y << 34) ^ (y << 51) }

  function Unstep(value: Word): Word {
    UnLeft13(UnRight7(UnLeft17(value)))
  }

  lemma Left13Unwinds(x: Word)
    ensures UnLeft13(x ^ (x << 13)) == x
  {
  }

  lemma Right7Unwinds(x: Word)
    ensures UnRight7(x ^ (x >> 7)) == x
  {
  }

  lemma Left17Unwinds(x: Word)
    ensures UnLeft17(x ^ (x << 17)) == x
  {
  }

  /** A draw loses nothing: the seed before it can be computed from the one after. */
  lemma StepIsUndone(s: Word)
    ensures Unstep(Step(s)) == s
  {
    var a := XorLeft13(s);
    var b := XorRight7(a);
    Left13Unwinds(s);
    Right7Unwinds(a);
    Left17Unwinds(b);
    assert UnLeft17(XorLeft17(b)) == b;
    assert UnRight7(XorRight7(a)) == a;
  }

  /** Distinct seeds draw distinct values, and a live generator never dies at zero. */
  lemma StepInjective(s: Word, t: Word)
    ensures Step(s) == Step(t) <==> s == t
    ensures Step(s) == 0 <==> s == 0
  {
    StepIsUndone(s);
    StepIsUndone(t);
    StepIsUndone(0);
    assert XorLeft13(0) == 0 && XorRight7(0) == 0 && XorLeft17(0) == 0;
  }

  /** The seed after n draws. */
  function Draws(seed: Word, n: nat): Word {
    if n == 0 then seed else Step(Draws(seed, n - 1))
  }

  lemma {:induction false} DrawsCompose(seed: Word, m: nat, n: nat)
    ensures Draws(Draws(seed, m), n) == Draws(seed, m + n)
  {
    if n == 0 {
    } else {
      DrawsCompose(seed, m, n - 1);
    }
  }

  lemma {:induction false} DrawsInjective(s: Word, t: Word, n: nat)
    ensures Draws(s, n) == Draws(t, n) <==> s == t
    ensures Draws(s, n) == 0 <==> s == 0
  {
    if n == 0 {
    } else {
      DrawsInjective(s, t, n - 1);
      StepInjective(Draws(s, n - 1), Draws(t, n - 1));
    }
  }

  /** The first two draws of a new worker. */
  lemma FirstDraws()
    ensures Step(FIRST_SEED) == 8748534153485358512 && Step(8748534153485358512) == 3040900993826735515
  {
  }

  /** The draw as the program makes it, in three in-place updates of the seed. */
  method RandomUint64(seed: Word) returns (next: Word)
    ensures next == Step(seed)
  {
    next := seed;
    next := XorLeft13(next);
    next := XorRight7(next);
    next := XorLeft17(next);
  }
}
