/** Go's `uint32`: values below 2^32 whose arithmetic wraps around. */
module Word32 {
  const WORD: int := 0x1_0000_0000

  type u32 = n: int | 0 <= n < 0x1_0000_0000

  function Wrap(n: int): u32 {
    n % WORD
  }

  function Add(a: u32, b: u32): u32 {
    if a + b < WORD then a + b else a + b - WORD
  }

  function Sub(a: u32, b: u32): u32 {
    if b <= a then a - b else a - b + WORD
  }

  function Mul(a: u32, b: u32): u32 {
    Wrap(a * b)
  }

  /** Two integers denote the same word when they differ by a multiple of 2^32. */
  lemma WrapShift(n: int, k: int)
    ensures Wrap(n + k * WORD) == Wrap(n)
  {
  }

  lemma WrapSmall(a: u32)
    ensures Wrap(a) == a
  {
  }

  lemma AddWraps(a: u32, b: u32)
    ensures Add(a, b) == Wrap(a + b)
    ensures Sub(a, b) == Wrap(a - b)
  {
  }

  lemma WrapAdd(a: int, b: int)
    ensures Wrap(Wrap(a) + b) == Wrap(a + b)
    ensures Wrap(a + Wrap(b)) == Wrap(a + b)
  {
  }

  lemma WrapSum(a: int, b: int)
    ensures Add(Wrap(a), Wrap(b)) == Wrap(a + b)
  {
    AddWraps(Wrap(a), Wrap(b));
    WrapAdd(a, Wrap(b));
    WrapAdd(a, b);
  }

  lemma WrapMul(a: int, b: int)
    ensures Wrap(Wrap(a) * b) == Wrap(a * b)
    ensures Wrap(a * Wrap(b)) == Wrap(a * b)
  {
    WrapMulLeft(a, b);
    WrapMulLeft(b, a);
  }

  lemma WrapMulLeft(a: int, b: int)
    ensures Wrap(Wrap(a) * b) == Wrap(a * b)
  {
    var q := a / WORD;
    assert a == Wrap(a) + q * WORD;
    assert a * b == Wrap(a) * b + (q * b) * WORD;
    WrapShift(Wrap(a) * b, q * b);
  }
}
