/** Integer base-2 logarithm (bpf/c/syscall_lat.c, log2_u64). */
module Log2 {
  import opened U64

  function Pow2(n: nat): (r: nat)
    ensures r >= 1
  {
    if n == 0 then 1 else 2 * Pow2(n - 1)
  }

  /** The position of the highest set bit; 0 for 0. */
  function FloorLog2(v: nat): nat
  {
    if v < 2 then 0 else 1 + FloorLog2(v / 2)
  }

  lemma {:induction false} FloorLog2Brackets(v: nat)
    requires v > 0
    ensures Pow2(FloorLog2(v)) <= v < 2 * Pow2(FloorLog2(v))
  {
    if v >= 2 {
      FloorLog2Brackets(v / 2);
    }
  }

  lemma {:induction false} Pow2Monotone(a: nat, b: nat)
    requires a <= b
    ensures Pow2(a) <= Pow2(b)
  {
    if a < b {
      Pow2Monotone(a, b - 1);
    }
  }

  /** The bracket determines the logarithm. */
  lemma FloorLog2Unique(v: nat, r: nat)
    requires Pow2(r) <= v < 2 * Pow2(r)
    ensures FloorLog2(v) == r
  {
    FloorLog2Brackets(v);
    if FloorLog2(v) < r {
      Pow2Monotone(FloorLog2(v) + 1, r);
    }
  }

  lemma {:induction false} FloorLog2Shift(v: nat, n: nat)
    requires v >= Pow2(n)
    ensures FloorLog2(v) == n + FloorLog2(v / Pow2(n))
  {
    if n > 0 {
      Pow2Monotone(1, n);
      assert v / Pow2(n) == v / 2 / Pow2(n - 1) by { DivTwice(v, Pow2(n - 1)); }
      FloorLog2Shift(v / 2, n - 1);
    }
  }

  lemma DivTwice(v: nat, m: nat)
    requires m > 0
    ensures v / (2 * m) == v / 2 / m
  {
    var half := v / 2;
    var q, rest := half / m, half % m;
    var doubled := 2 * rest + v % 2;
    assert v == 2 * (q * m) + doubled;
    TwiceTimes(q, m);
    DivUnique(v, 2 * m, q, doubled);
  }

  lemma TwiceTimes(q: nat, m: nat)
    ensures q * (2 * m) == 2 * (q * m)
  {
  }

  lemma DivUnique(h: nat, m: nat, q: nat, rest: nat)
    requires rest < m && h == q * m + rest
    ensures h / m == q
  {
    MulGap(h / m - q, m);
    assert (h / m - q) * m == rest - h % m;
  }

  lemma MulGap(x: int, m: int)
    requires m >= 0
    ensures x > 0 ==> x * m >= m
    ensures x < 0 ==> x * m <= -m
  {
  }

  /** Smaller values have smaller logarithms. */
  lemma FloorLog2Monotone(v: nat, w: nat)
    requires 0 < v <= w
    ensures FloorLog2(v) <= FloorLog2(w)
  {
    FloorLog2Brackets(v);
    FloorLog2Brackets(w);
    if FloorLog2(v) > FloorLog2(w) {
      Pow2Monotone(FloorLog2(w) + 1, FloorLog2(v));
    }
  }

  /** One step of the reduction: when v needs more than n bits, those n bits are shifted out. */
  lemma ReductionStep(v: nat, n: nat)
    ensures v >= Pow2(n) ==> FloorLog2(v) == n + FloorLog2(v / Pow2(n))
    ensures v < Pow2(2 * n) ==> v / Pow2(n) < Pow2(n)
  {
    if v >= Pow2(n) {
      FloorLog2Shift(v, n);
    }
    if v < Pow2(2 * n) {
      Pow2Sum(n, n);
      QuotientBelow(v, Pow2(n));
    }
  }

  lemma QuotientBelow(v: nat, m: nat)
    requires v < m * m
    ensures v / m < m
  {
    MulGap(v / m - m, m);
    assert (v / m - m) * m == v - v % m - m * m;
  }

  lemma Powers()
    ensures Pow2(1) == 2 && Pow2(2) == 4 && Pow2(4) == 16 && Pow2(8) == 0x100
    ensures Pow2(16) == 0x10000 && Pow2(32) == 0x1_0000_0000 && Pow2(64) == SIZE
  {
    assert Pow2(3) == 8 && Pow2(5) == 32 && Pow2(6) == 64 && Pow2(7) == 128;
    Pow2Sum(8, 8);
    Pow2Sum(16, 16);
    Pow2Sum(32, 32);
  }

  lemma {:induction false} Pow2Sum(a: nat, b: nat)
    ensures Pow2(a + b) == Pow2(a) * Pow2(b)
  {
    if a > 0 {
      Pow2Sum(a - 1, b);
    }
  }

  /** A comparison as C sees it: 1 when it holds and 0 otherwise. */
  function Bit(holds: bool): bv32
  {
    if holds then 1 else 0
  }

  /** Setting a clear bit below bits that are multiples of twice its value adds it. */
  lemma OrAddsBit(r: bv32, n: bv32)
    requires n == 16 || n == 8 || n == 4 || n == 2 || n == 1
    requires r < 64 && r % (2 * n) == 0
    ensures (r | n) as nat == r as nat + n as nat && (r | n) < 64 && (r | n) % n == 0
    ensures r | 0 == r && r % n == 0
  {
  }

  /** The bit (v > limit) << log is 2^log or zero. */
  lemma Shifts(log: bv32, n: bv32, holds: bool)
    requires (log == 4 && n == 16) || (log == 3 && n == 8) || (log == 2 && n == 4) || (log == 1 && n == 2)
    ensures Bit(holds) << log == if holds then n else 0
  {
  }

  /** What a middle step does to r, in numbers, when its comparison holds and when it does not. */
  lemma BitSet(r: bv32, log: bv32, n: bv32)
    requires (log == 4 && n == 16) || (log == 3 && n == 8) || (log == 2 && n == 4) || (log == 1 && n == 2)
    requires r < 64 && r % (2 * n) == 0
    ensures Bit(true) << log == n
    ensures (r | n) as nat == r as nat + n as nat && (r | n) < 64 && (r | n) % n == 0
  {
    Shifts(log, n, true);
    OrAddsBit(r, n);
  }

  lemma BitClear(r: bv32, log: bv32, n: bv32)
    requires (log == 4 && n == 16) || (log == 3 && n == 8) || (log == 2 && n == 4) || (log == 1 && n == 2)
    requires r < 64 && r % (2 * n) == 0
    ensures Bit(false) << log == 0
    ensures r | 0 == r && r % n == 0
  {
    Shifts(log, n, false);
    OrAddsBit(r, n);
  }

  lemma StepBits(r: bv32, log: bv32, n: bv32, holds: bool) returns (shift: nat, r': nat)
    requires (log == 4 && n == 16) || (log == 3 && n == 8) || (log == 2 && n == 4) || (log == 1 && n == 2)
    requires r < 64 && r % (2 * n) == 0
    ensures shift == (Bit(holds) << log) as nat == if holds then n as nat else 0
    ensures r' == (r | (Bit(holds) << log)) as nat == r as nat + shift
    ensures (r | (Bit(holds) << log)) < 64 && (r | (Bit(holds) << log)) % n == 0
  {
    if holds {
      BitSet(r, log, n);
      shift, r' := n as nat, (r | n) as nat;
    } else {
      BitClear(r, log, n);
      shift, r' := 0, r as nat;
    }
  }

  /** What is left of value after shifting out the bits counted in r. */
  ghost predicate Reduced(value: nat, v: nat, r: nat, width: nat)
  {
    && FloorLog2(value) == r + FloorLog2(v)
    && v < Pow2(width)
  }

  lemma ReducedNext(value: nat, v: nat, r: nat, width: nat, shift: nat)
    requires Reduced(value, v, r, 2 * width) && shift == if v >= Pow2(width) then width else 0
    ensures Reduced(value, v / Pow2(shift), r + shift, width)
  {
    if v >= Pow2(width) {
      ReductionStep(v, width);
    } else {
      assert Pow2(0) == 1;
    }
  }

  /** One of the middle steps: shift = (v > limit) << log, v >>= shift, r |= shift. */
  method ReduceBy(ghost value: nat, v: nat, r: bv32, limit: nat, log: bv32, ghost n: bv32)
    returns (v': nat, r': bv32)
    requires (log == 4 && n == 16) || (log == 3 && n == 8) || (log == 2 && n == 4) || (log == 1 && n == 2)
    requires limit == Pow2(n as nat) - 1
    requires Reduced(value, v, r as nat, 2 * n as nat) && r < 64 && r % (2 * n) == 0
    ensures Reduced(value, v', r' as nat, n as nat) && r' < 64 && r' % n == 0
  {
    ghost var shift0, r0 := StepBits(r, log, n, v > limit);
    ReducedNext(value, v, r as nat, n as nat, shift0);
    var shift := Bit(v > limit) << log;
    v' := v / Pow2(shift as nat);
    r' := r | shift;
  }

  lemma FirstShift(holds: bool)
    ensures Bit(holds) << 5 == if holds then 32 else 0
    ensures (Bit(holds) << 5) as nat == if holds then 32 else 0
  {
  }

  lemma LastBit(v: nat)
    requires v < Pow2(2)
    ensures v < 4 && FloorLog2(v) == v / 2 && (v / 2) as bv32 == Bit(v >= 2)
  {
    assert Pow2(2) == 4;
    assert v / 2 == 0 || v / 2 == 1;
  }

  lemma LastStep(r: bv32, bit: bv32, holds: bool)
    requires r < 64 && r % 2 == 0 && bit == Bit(holds)
    ensures (r | bit) as nat == r as nat + if holds then 1 else 0
  {
    OrAddsBit(r, 1);
  }

  /** The first step: r = (v > 0xFFFFFFFF) << 5, v >>= r. */
  method ReduceFirst(value: u64) returns (v: nat, r: bv32)
    ensures Reduced(value, v, r as nat, 32) && r < 64 && r % 32 == 0
  {
    Powers();
    ReductionStep(value, 32);
    FirstShift(value > 0xFFFF_FFFF);
    r := Bit(value > 0xFFFF_FFFF) << 5;
    v := value / Pow2(r as nat);
  }

  /** The last step: r |= v >> 1. */
  method ReduceLast(ghost value: nat, v: nat, r: bv32) returns (r': bv32)
    requires Reduced(value, v, r as nat, 2) && r < 64 && r % 2 == 0
    ensures r' as nat == FloorLog2(value)
  {
    LastBit(v);
    var bit := (v / 2) as bv32;
    r' := r | bit;
    LastStep(r, bit, v >= 2);
  }

  /** The six-step reduction. */
  method Log2U64(value: u64) returns (r: bv32)
    ensures r as nat == FloorLog2(value)
    ensures value > 0 ==> Pow2(r as nat) <= value < 2 * Pow2(r as nat)
  {
    Powers();
    var v: nat;
    v, r := ReduceFirst(value);
    v, r := ReduceBy(value, v, r, 0xFFFF, 4, 16);
    v, r := ReduceBy(value, v, r, 0xFF, 3, 8);
    v, r := ReduceBy(value, v, r, 0xF, 2, 4);
    v, r := ReduceBy(value, v, r, 0x3, 1, 2);
    r := ReduceLast(value, v, r);
    if value > 0 {
      FloorLog2Brackets(value);
    }
  }
}
