/** The machine's 64-bit unsigned arithmetic, written out over the integers. */
module U64 {
  /** 2^64: counters wrap around at this value. */
  const SIZE: nat := 0x1_0000_0000_0000_0000

  type u64 = x: int | 0 <= x < SIZE

  /** Addition as the machine does it. */
  function WrapAdd(a: nat, b: nat): (r: u64)
  {
    (a + b) % SIZE
  }

  /** Subtraction as the machine does it. */
  function WrapSub(a: u64, b: u64): (r: u64)
    ensures r == if a >= b then a - b else a - b + SIZE
  {
    (a - b) % SIZE
  }

  lemma AddToWrapped(a: nat, b: nat)
    ensures WrapAdd(a % SIZE, b) == (a + b) % SIZE
  {
  }

  /** A difference of two wrapped counters never exceeds the difference of the true ones. */
  lemma WrappedDifference(earlier: nat, later: nat)
    requires earlier <= later
    requires earlier % SIZE <= later % SIZE
    ensures later % SIZE - earlier % SIZE <= later - earlier
  {
    var d := later - earlier;
    assert (earlier % SIZE + d) % SIZE == later % SIZE;
    if d < SIZE {
      assert earlier % SIZE + d < 2 * SIZE;
    }
  }

  /** Wrapped subtraction finds what was added, however often the counter wrapped around. */
  lemma DifferenceOfSum(a: nat, b: nat)
    ensures WrapSub((a + b) % SIZE, a % SIZE) == b % SIZE
  {
    var p, q := a / SIZE, (a + b) / SIZE;
    assert a == p * SIZE + a % SIZE && a + b == q * SIZE + (a + b) % SIZE;
    assert (a + b) % SIZE - a % SIZE == b - (q - p) * SIZE;
    SameRemainder(b, q - p);
  }

  lemma SameRemainder(b: nat, k: int)
    ensures (b - k * SIZE) % SIZE == b % SIZE
  {
    assert b - k * SIZE == (b / SIZE - k) * SIZE + b % SIZE;
  }
}
