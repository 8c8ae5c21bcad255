/** Aligned allocation sizes (cpp/xft/memory.h). All sizes are 64-bit
    `size_t` values: additions and products wrap modulo 2^64, and the
    bit-mask in `align_size` is modelled by a bitwise AND on naturals, so the
    model computes exactly what the expression does, including the wrap. */
module XftAlignedMemory {
  import opened Wrappers

  const Modulus: int := 0x1_0000_0000_0000_0000
  const SizeMax: int := Modulus - 1

  /** A `size_t` value. */
  type SizeT = x: int | 0 <= x < 0x1_0000_0000_0000_0000

  /** Reduction modulo 2^64: what unsigned arithmetic keeps. */
  function Wrap(x: int): (r: SizeT)
    ensures 0 <= x < Modulus ==> r == x
  {
    x % Modulus
  }

  /** Adding a multiple of 2^64 does not change the wrapped value. */
  lemma WrapShift(x: int, q: int)
    ensures Wrap(x + Modulus * q) == Wrap(x)
  {
    var w := x / Modulus;
    assert x == Modulus * w + Wrap(x);
    assert x + Modulus * q == Modulus * (w + q) + Wrap(x);
    ModUnique(x + Modulus * q, Modulus, w + q, Wrap(x));
  }

  /** Wrapping an operand of a sum first does not change the wrapped sum. */
  lemma WrapAdd(a: int, b: int)
    ensures Wrap(Wrap(a) + b) == Wrap(a + b)
  {
    var q := a / Modulus;
    assert a + b == (Wrap(a) + b) + Modulus * q;
    WrapShift(Wrap(a) + b, q);
  }

  /** Wrapping a factor of a product first does not change the wrapped
      product. */
  lemma WrapMul(a: int, b: int)
    ensures Wrap(Wrap(a) * b) == Wrap(a * b)
  {
    var q := a / Modulus;
    assert a == Wrap(a) + Modulus * q;
    assert a * b == Wrap(a) * b + Modulus * (q * b);
    WrapShift(Wrap(a) * b, q * b);
  }

  /** `sizeof(void*)` on x86_64. */
  const PointerSize: nat := 8

  /** `DEFAULT_ALIGNMENT`: 32 bytes, the AVX2 vector width. */
  const DefaultAlignment: SizeT := 32

  function Pow2(k: nat): (p: nat)
    ensures p >= 1
  {
    if k == 0 then 1 else 2 * Pow2(k - 1)
  }

  predicate IsPowerOfTwo(a: nat)
  {
    a == 1 || (a >= 2 && a % 2 == 0 && IsPowerOfTwo(a / 2))
  }

  /** Every power of two is 2^k for some k. */
  lemma {:induction false} LogOf(a: nat) returns (k: nat)
    requires IsPowerOfTwo(a)
    ensures Pow2(k) == a
  {
    if a == 1 {
      k := 0;
    } else {
      var j := LogOf(a / 2);
      k := j + 1;
    }
  }

  /** The exponent of a power of two below 2^m is below m. */
  lemma {:induction false} LogBelow(a: nat, m: nat) returns (k: nat)
    requires IsPowerOfTwo(a)
    ensures Pow2(k) == a
    ensures a < Pow2(m) ==> k < m
    decreases m
  {
    if a == 1 || m == 0 {
      k := LogOf(a);
    } else {
      var j := LogBelow(a / 2, m - 1);
      k := j + 1;
    }
  }

  lemma {:induction false} Pow2IsPowerOfTwo(k: nat)
    ensures IsPowerOfTwo(Pow2(k))
  {
    if k > 0 {
      Pow2IsPowerOfTwo(k - 1);
      assert Pow2(k) / 2 == Pow2(k - 1);
    }
  }

  lemma {:induction false} Pow2Monotone(j: nat, k: nat)
    requires j <= k
    ensures Pow2(j) <= Pow2(k)
    decreases k
  {
    if j < k {
      Pow2Monotone(j, k - 1);
    }
  }

  lemma {:induction false} Pow2Add(a: nat, b: nat)
    ensures Pow2(a + b) == Pow2(a) * Pow2(b)
    decreases a
  {
    if a > 0 {
      Pow2Add(a - 1, b);
      assert Pow2(a + b) == 2 * Pow2(a - 1 + b);
    }
  }

  lemma Pow2Of64()
    ensures Pow2(64) == Modulus
  {
    assert Pow2(2) == 4;
    Pow2Add(2, 2);
    assert Pow2(4) == 16;
    Pow2Add(4, 4);
    assert Pow2(8) == 256;
    Pow2Add(8, 8);
    assert Pow2(16) == 65536;
    Pow2Add(16, 16);
    assert Pow2(32) == 4294967296;
    Pow2Add(32, 32);
  }

  /** `x & y` on unsigned integers, one bit at a time from the least
      significant end. */
  function BitAnd(x: nat, y: nat): (r: nat)
    ensures r <= x && r <= y
    decreases x
  {
    if x == 0 || y == 0 then 0
    else 2 * BitAnd(x / 2, y / 2) + (if x % 2 == 1 && y % 2 == 1 then 1 else 0)
  }

  /** `~y` on a `size_t`. */
  function Complement(y: SizeT): (r: SizeT)
    ensures r + y == SizeMax
  {
    SizeMax - y
  }

  /** `align_size(size, alignment)`: `(size + alignment - 1) & ~(alignment - 1)`
      evaluated in `size_t`. */
  function AlignSize(size: SizeT, alignment: SizeT): SizeT
  {
    var mask := Wrap(alignment - 1);
    BitAnd(Wrap(size + mask), Complement(mask))
  }

  /** The remainder modulo 2p in terms of the remainder of half the number
      modulo p. */
  lemma HalveMod(x: nat, p: nat)
    requires p >= 1
    ensures x % (2 * p) == 2 * ((x / 2) % p) + x % 2
  {
    var q := x / 2;
    var b := q % p;
    var a := q / p;
    assert q == p * a + b;
    assert x == (2 * p) * a + (2 * b + x % 2);
    ModUnique(x, 2 * p, a, 2 * b + x % 2);
  }

  /** Division with remainder is unique. */
  lemma ModUnique(x: int, d: int, q: int, r: int)
    requires d >= 1 && 0 <= r < d && x == d * q + r
    ensures x % d == r && x / d == q
  {
    var q0, r0 := x / d, x % d;
    assert x == d * q0 + r0 && 0 <= r0 < d;
    assert d * (q - q0) == r0 - r;
    SmallMultiple(d, q - q0);
  }

  /** A multiple of a positive d strictly between -d and d is zero. */
  lemma SmallMultiple(d: int, t: int)
    requires d > 0 && -d < d * t < d
    ensures t == 0
  {
  }

  /** ANDing with a mask of the n low bits keeps a number below 2^n. */
  lemma {:induction false} AndLowMask(n: nat, x: nat)
    requires x < Pow2(n)
    ensures BitAnd(x, Pow2(n) - 1) == x
  {
    if n > 0 && x > 0 {
      var y := Pow2(n) - 1;
      assert y / 2 == Pow2(n - 1) - 1 && y % 2 == 1;
      AndLowMask(n - 1, x / 2);
    }
  }

  /** ANDing a number below 2^n with 2^n - 2^k clears exactly its k low
      bits, that is, rounds it down to a multiple of 2^k. */
  lemma {:induction false} AndClearsLowBits(n: nat, k: nat, x: nat, mask: nat)
    requires k <= n && x < Pow2(n) && mask == Pow2(n) - Pow2(k)
    ensures BitAnd(x, mask) == x - x % Pow2(k)
    decreases k
  {
    if k == 0 {
      AndLowMask(n, x);
      assert x % Pow2(k) == 0;
    } else if k == n {
      ModUnique(x, Pow2(k), 0, x);
      assert mask == 0;
    } else if x == 0 {
      ModUnique(x, Pow2(k), 0, 0);
    } else {
      var p := Pow2(k - 1);
      var h := x / 2;
      Pow2Monotone(k, n - 1);
      HalveMask(n, k, mask);
      AndClearsLowBits(n - 1, k - 1, h, mask / 2);
      AndEvenMask(x, mask);
      HalveMod(x, p);
    }
  }

  /** Halving 2^n - 2^k gives 2^(n-1) - 2^(k-1), with nothing lost. */
  lemma HalveMask(n: nat, k: nat, mask: nat)
    requires 0 < k < n && mask == Pow2(n) - Pow2(k)
    ensures mask % 2 == 0 && mask / 2 == Pow2(n - 1) - Pow2(k - 1)
  {
  }

  /** ANDing with an even mask clears bit 0 and ANDs the rest. */
  lemma AndEvenMask(x: nat, mask: nat)
    requires mask % 2 == 0
    ensures BitAnd(x, mask) == 2 * BitAnd(x / 2, mask / 2)
  {
  }

  /** For a power-of-two alignment and a sum that does not wrap,
      `align_size` is the least multiple of the alignment that is at least
      the size. */
  lemma AlignSizeIsLeastMultiple(size: SizeT, alignment: SizeT)
    requires IsPowerOfTwo(alignment)
    requires size + alignment - 1 <= SizeMax
    ensures AlignSize(size, alignment) % alignment == 0
    ensures size <= AlignSize(size, alignment) < size + alignment
  {
    var s := size + alignment - 1;
    AlignSizeNoWrap(size, alignment);
    ClearLowBits64(s, alignment);
    RoundDown(s, alignment);
  }

  /** Without wrap-around, `align_size` is the sum ANDed with 2^64 minus
      the alignment. */
  lemma AlignSizeNoWrap(size: SizeT, alignment: SizeT)
    requires alignment >= 1 && size + alignment - 1 <= SizeMax
    ensures AlignSize(size, alignment) == BitAnd(size + alignment - 1, Modulus - alignment)
  {
    assert Wrap(alignment - 1) == alignment - 1;
    assert Wrap(size + (alignment - 1)) == size + alignment - 1;
  }

  /** ANDing a `size_t` with 2^64 minus a power of two a rounds it down to
      a multiple of a. */
  lemma ClearLowBits64(s: SizeT, a: SizeT)
    requires IsPowerOfTwo(a)
    ensures BitAnd(s, Modulus - a) == s - s % a
  {
    Pow2Of64();
    var k := LogBelow(a, 64);
    AndClearsLowBits(64, k, s, Modulus - a);
  }

  /** Rounding down to a multiple of a loses less than a. */
  lemma RoundDown(s: int, a: int)
    requires a >= 1 && s >= 0
    ensures (s - s % a) % a == 0 && s - a < s - s % a <= s
  {
    var q := s / a;
    assert s - s % a == a * q;
    ModUnique(s - s % a, a, q, 0);
  }

  /** The least-multiple characterisation determines the result. */
  lemma LeastMultipleUnique(size: int, a: int, r: int, m: int)
    requires a >= 1
    requires r % a == 0 && size <= r < size + a
    requires m % a == 0 && size <= m < size + a
    ensures r == m
  {
    ModUnique(r, a, r / a, 0);
    ModUnique(m, a, m / a, 0);
    var i, j := r / a, m / a;
    assert a * (i - j) == r - m;
    SmallMultiple(a, i - j);
  }

  /** A positive multiple of a positive number has a positive factor. */
  lemma PositiveFactor(a: int, t: int)
    requires a >= 1 && a * t > 0
    ensures t >= 1
  {
  }

  /** A positive multiple of a is at least a. */
  lemma {:induction false} MulAtLeast(a: int, t: int)
    requires a >= 0 && t >= 1
    ensures a * t >= a
    decreases t
  {
    if t > 1 {
      MulAtLeast(a, t - 1);
      assert a * t == a * (t - 1) + a;
    }
  }

  /** An already aligned size is left unchanged (such a size can never make
      the sum wrap), so `align_size` is idempotent. */
  lemma AlignSizeIdempotent(size: SizeT, alignment: SizeT)
    requires IsPowerOfTwo(alignment) && size % alignment == 0
    ensures AlignSize(size, alignment) == size
  {
    Pow2Of64();
    var k := LogBelow(alignment, 64);
    AlignedPowers(k, 64);
    AlignedBelow(size, alignment, Modulus);
    AlignSizeIsLeastMultiple(size, alignment);
    LeastMultipleUnique(size, alignment, AlignSize(size, alignment), size);
  }

  /** A multiple of a below a larger multiple m of a is at most m - a. */
  lemma AlignedBelow(x: int, a: int, m: int)
    requires a >= 1 && x % a == 0 && m % a == 0 && 0 <= x < m
    ensures x + a <= m
  {
    var q, w := x / a, m / a;
    ModUnique(x, a, q, 0);
    ModUnique(m, a, w, 0);
    assert a * (w - q) == m - x;
    PositiveFactor(a, w - q);
    MulAtLeast(a, w - q);
  }

  lemma AlignedPowers(j: nat, k: nat)
    requires j <= k
    ensures Pow2(k) % Pow2(j) == 0
  {
    Pow2Add(j, k - j);
    ModUnique(Pow2(k), Pow2(j), Pow2(k - j), 0);
  }

  /** The (size, alignment, result) triples the tests check: zero stays
      zero, and sizes round up to the next multiple of the alignment. */
  const AlignSizeCases: seq<(SizeT, SizeT, SizeT)> :=
    [(0, 32, 0), (1, 32, 32), (32, 32, 32), (33, 32, 64), (64, 32, 64), (65, 32, 96),
     (50, 16, 64), (100, 64, 128)]

  lemma AlignSizeExamples(i: nat)
    requires i < |AlignSizeCases|
    ensures AlignSize(AlignSizeCases[i].0, AlignSizeCases[i].1) == AlignSizeCases[i].2
  {
    var (size, a, m) := AlignSizeCases[i];
    assert IsPowerOfTwo(16) && IsPowerOfTwo(32) && IsPowerOfTwo(64);
    AlignSizeIs(size, a, m);
  }

  /** Any multiple of the alignment less than one alignment above the size
      is the rounded size. */
  lemma AlignSizeIs(size: SizeT, a: SizeT, m: int)
    requires IsPowerOfTwo(a) && size + a - 1 <= SizeMax
    requires m % a == 0 && size <= m < size + a
    ensures AlignSize(size, a) == m
  {
    AlignSizeIsLeastMultiple(size, a);
    LeastMultipleUnique(size, a, AlignSize(size, a), m);
  }

  /** The sum in `align_size` wraps for sizes near `SIZE_MAX`: the largest
      size rounds to 0 rather than up. */
  lemma AlignSizeWraps()
    ensures AlignSize(SizeMax, DefaultAlignment) == 0
  {
    Pow2Of64();
    assert Pow2(5) == 32;
    assert Wrap(SizeMax + 31) == 30;
    assert Complement(31) == Pow2(64) - Pow2(5);
    AndClearsLowBits(64, 5, 30, Complement(31));
  }

  /** `calculate_aligned_size(n, e, alignment)`: the byte count `n * e`
      (in `size_t`) passed through `align_size`. When neither the product
      nor the rounding wraps, it is the least multiple of the alignment that
      holds n elements of e bytes. */
  function CalculateAlignedSize(numElements: SizeT, elementSize: SizeT, alignment: SizeT): (r: SizeT)
    ensures IsPowerOfTwo(alignment) && numElements * elementSize + alignment - 1 <= SizeMax ==>
              r % alignment == 0 && numElements * elementSize <= r < numElements * elementSize + alignment
  {
    var bytes := numElements * elementSize;
    MulNonNegative(numElements, elementSize);
    if IsPowerOfTwo(alignment) && bytes + alignment - 1 <= SizeMax then
      AlignSizeIsLeastMultiple(bytes, alignment);
      AlignSize(Wrap(bytes), alignment)
    else
      AlignSize(Wrap(bytes), alignment)
  }

  lemma MulNonNegative(a: nat, b: nat)
    ensures a * b >= 0
  {
  }

  /** The (elements, element size, result) triples the tests check, with
      the default alignment. */
  const AlignedSizeCases: seq<(SizeT, SizeT, SizeT)> := [(10, 4, 64), (100, 4, 416), (1000, 8, 8000)]

  lemma CalculateAlignedSizeExamples(i: nat)
    requires i < |AlignedSizeCases|
    ensures CalculateAlignedSize(AlignedSizeCases[i].0, AlignedSizeCases[i].1, DefaultAlignment) == AlignedSizeCases[i].2
  {
    var (n, e, m) := AlignedSizeCases[i];
    assert IsPowerOfTwo(32);
    AlignSizeIs(n * e, 32, m);
  }

  /** `alignment & (alignment - 1) == 0` is the power-of-two test: a
      positive number has a single set bit exactly when it is a power of
      two. */
  lemma {:induction false} PowerOfTwoTest(a: nat)
    requires a >= 1
    ensures BitAnd(a, a - 1) == 0 <==> IsPowerOfTwo(a)
    decreases a
  {
    if a == 1 {
    } else if a % 2 == 0 {
      assert (a - 1) / 2 == a / 2 - 1 && (a - 1) % 2 == 1;
      assert BitAnd(a, a - 1) == 2 * BitAnd(a / 2, a / 2 - 1);
      PowerOfTwoTest(a / 2);
    } else {
      assert (a - 1) / 2 == a / 2 && (a - 1) % 2 == 0;
      AndSelf(a / 2);
      assert BitAnd(a, a - 1) == 2 * (a / 2);
    }
  }

  lemma {:induction false} AndSelf(x: nat)
    ensures BitAnd(x, x) == x
    decreases x
  {
    if x > 0 {
      AndSelf(x / 2);
    }
  }

  /** The outcome of `alloc_aligned`: a null pointer or a block of the
      given (rounded) byte count. */
  datatype Allocation = NullPointer | Block(bytes: SizeT)

  /** `alloc_aligned(size, alignment)`. A zero size gives a null pointer
      before the alignment is looked at; an alignment below `sizeof(void*)`
      or not a power of two is an invalid argument; otherwise the size is
      rounded with `align_size` and handed to `posix_memalign`, whose
      success is the parameter `memalignSucceeds` (a failure gives a null
      pointer). */
  function AllocAligned(size: SizeT, alignment: SizeT, memalignSucceeds: bool): (r: Result<Allocation>)
    ensures size == 0 ==> r == Ok(NullPointer)
    ensures r.Err? <==> size != 0 && (alignment < PointerSize || !IsPowerOfTwo(alignment))
    ensures r.Err? ==> r.error == InvalidArgument
    ensures r.Ok? && r.value.Block? ==> memalignSucceeds && IsPowerOfTwo(alignment)
    ensures r.Ok? && r.value.Block? && size + alignment - 1 <= SizeMax ==>
              r.value.bytes % alignment == 0 && size <= r.value.bytes < size + alignment
    ensures size != 0 && alignment >= PointerSize && IsPowerOfTwo(alignment) ==>
              r == Ok(if memalignSucceeds then Block(AlignSize(size, alignment)) else NullPointer)
  {
    if size == 0 then Ok(NullPointer)
    else if alignment < PointerSize then Err(InvalidArgument)
    else
      PowerOfTwoTest(alignment);
      if BitAnd(alignment, Wrap(alignment - 1)) != 0 then Err(InvalidArgument)
      else if !memalignSucceeds then Ok(NullPointer)
      else
        if size + alignment - 1 <= SizeMax then
          AlignSizeIsLeastMultiple(size, alignment);
          Ok(Block(AlignSize(size, alignment)))
        else
          Ok(Block(AlignSize(size, alignment)))
  }

  /** The default alignment passes the checks. */
  lemma DefaultAlignmentValid()
    ensures IsPowerOfTwo(DefaultAlignment) && DefaultAlignment >= PointerSize
  {
  }
}
