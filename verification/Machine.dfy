/** Machine arithmetic shared by the model: fixed-width ranges, the `& MASK` idiom of the
    power-of-two containers, and the optional value that stands for std::optional. */
module Machine {

  const TWO_TO_THE_31: int := 0x8000_0000
  const TWO_TO_THE_32: int := 0x1_0000_0000
  const TWO_TO_THE_64: int := 0x1_0000_0000_0000_0000

  datatype Option<+T> = None | Some(value: T)

  function Min(a: nat, b: nat): nat {
    if a <= b then a else b
  }

  function Pow2(k: nat): (p: nat)
    ensures p > 0
  {
    if k == 0 then 1 else 2 * Pow2(k - 1)
  }

  ghost predicate IsPowerOfTwo(n: nat) {
    exists k: nat :: n == Pow2(k)
  }

  /** Bitwise conjunction, bit by bit from the low end. */
  function BitAnd(x: nat, y: nat): nat {
    if x == 0 || y == 0 then 0
    else 2 * BitAnd(x / 2, y / 2) + (if x % 2 == 1 && y % 2 == 1 then 1 else 0)
  }

  lemma ProductAtLeast(d: int, k: int)
    requires d > 0 && k >= 1
    ensures d * k >= d
  {
    assert d * k == d + d * (k - 1);
  }

  lemma NoMultipleBetween(d: int, k: int, gap: int)
    requires d > 0 && d * k == gap && -d < gap < d
    ensures k == 0
  {
    if k >= 1 {
      ProductAtLeast(d, k);
    } else if k <= -1 {
      ProductAtLeast(d, -k);
    }
  }

  /** A quotient and a small remainder determine `/` and `%`. */
  lemma RemainderUnique(x: int, d: int, q: int, r: int)
    requires d > 0 && x == d * q + r && 0 <= r < d
    ensures x % d == r && x / d == q
  {
    var q', r' := x / d, x % d;
    assert x == d * q' + r';
    Difference(d, q, q', r' - r);
    NoMultipleBetween(d, q - q', r' - r);
  }

  lemma Difference(d: int, a: int, b: int, gap: int)
    requires d * a - d * b == gap
    ensures d * (a - b) == gap
  {
  }

  lemma {:induction false} MaskIsRemainder(x: nat, k: nat)
    ensures BitAnd(x, Pow2(k) - 1) == x % Pow2(k)
  {
    if k == 0 {
    } else {
      var half := Pow2(k - 1);
      MaskIsRemainder(x / 2, k - 1);
      DoubledRemainder(x, half);
      MaskStep(x, half);
    }
  }

  lemma MaskStep(x: nat, half: nat)
    requires half > 0
    ensures BitAnd(x, 2 * half - 1) == 2 * BitAnd(x / 2, half - 1) + x % 2
  {
    var mask: nat := 2 * half - 1;
    assert mask / 2 == half - 1 && mask % 2 == 1;
  }

  lemma DoubledRemainder(x: nat, half: nat)
    requires half > 0
    ensures x % (2 * half) == 2 * ((x / 2) % half) + x % 2
  {
    var q, r := (x / 2) / half, (x / 2) % half;
    var hq := half * q;
    assert x / 2 == hq + r;
    assert x == 2 * hq + 2 * r + x % 2;
    assert 2 * hq == (2 * half) * q;
    RemainderUnique(x, 2 * half, q, 2 * r + x % 2);
  }

  /** The source's `x & (capacity - 1)`: for a power of two it is the remainder. */
  function Mask(x: nat, capacity: nat): (r: nat)
    requires IsPowerOfTwo(capacity)
    ensures capacity > 0 && r == x % capacity && r < capacity
  {
    MaskOfPower(x, capacity);
    BitAnd(x, capacity - 1)
  }

  lemma MaskOfPower(x: nat, capacity: nat)
    requires IsPowerOfTwo(capacity)
    ensures capacity > 0 && BitAnd(x, capacity - 1) == x % capacity
  {
    var k: nat :| capacity == Pow2(k);
    MaskIsRemainder(x, k);
  }

  lemma RemainderOfSmall(x: nat, d: nat)
    requires x <= d && d > 0
    ensures x % d == if x == d then 0 else x
  {
    if x == d {
      RemainderUnique(x, d, 1, 0);
    } else {
      RemainderUnique(x, d, 0, x);
    }
  }

  /** Two indices that share a slot are a whole number of laps apart. */
  lemma SameSlotFarApart(i: nat, j: nat, capacity: nat)
    requires capacity > 0 && i % capacity == j % capacity && i < j
    ensures j - i >= capacity
  {
    var qi, qj := i / capacity, j / capacity;
    Difference(capacity, qj, qi, j - i);
    if j - i < capacity {
      NoMultipleBetween(capacity, qj - qi, j - i);
    }
  }

  /** Indices less than a lap apart have slots of their own. */
  lemma SlotsApart(i: nat, j: nat, capacity: nat)
    requires capacity > 0 && i < j < i + capacity
    ensures i % capacity != j % capacity
  {
    if i % capacity == j % capacity {
      SameSlotFarApart(i, j, capacity);
    }
  }

  lemma NextLap(i: nat, capacity: nat)
    requires capacity > 0
    ensures (i + capacity) % capacity == i % capacity
  {
    RemainderUnique(i + capacity, capacity, i / capacity + 1, i % capacity);
  }

  lemma SubsetSize<T>(small: set<T>, big: set<T>)
    requires small <= big
    ensures |small| <= |big|
  {
    assert big == small + (big - small);
  }

  // ---- Counters that wrap ----

  lemma {:induction false} Pow2Sum(a: nat, b: nat)
    ensures Pow2(a + b) == Pow2(a) * Pow2(b)
  {
    if a > 0 {
      Pow2Sum(a - 1, b);
      assert Pow2(a) * Pow2(b) == 2 * Pow2(a - 1) * Pow2(b);
    }
  }

  lemma WordSizes()
    ensures Pow2(32) == TWO_TO_THE_32 && Pow2(64) == TWO_TO_THE_64
  {
    SixteenBits();
    hide Pow2;
    Pow2Sum(16, 16);
    Pow2Sum(32, 32);
  }

  lemma SixteenBits()
    ensures Pow2(16) == 0x1_0000
  {
    assert Pow2(4) == 16;
    Pow2Sum(4, 4);
    Pow2Sum(8, 8);
  }

  lemma {:induction false} Pow2Grows(a: nat, b: nat)
    requires a < b
    ensures Pow2(a) < Pow2(b)
  {
    if a + 1 < b {
      Pow2Grows(a, b - 1);
    }
  }

  /** A power of two divides every larger one: a counter of `bits` bits keeps its remainder. */
  lemma WrappedRemainder(n: nat, capacity: nat, bits: nat)
    requires IsPowerOfTwo(capacity) && capacity <= Pow2(bits)
    ensures capacity > 0 && (n % Pow2(bits)) % capacity == n % capacity
  {
    var k: nat :| capacity == Pow2(k);
    if k > bits {
      Pow2Grows(bits, k);
    }
    Pow2Sum(k, bits - k);
    NestedRemainder(n, capacity, Pow2(bits - k));
  }

  lemma NestedRemainder(n: nat, d: nat, m: nat)
    requires d > 0 && m > 0 && d * m > 0
    ensures (n % (d * m)) % d == n % d
  {
    var q, r := n / (d * m), n % (d * m);
    var q', r' := r / d, r % d;
    assert n == (d * m) * q + r && r == d * q' + r';
    assert (d * m) * q == d * (m * q);
    assert d * (m * q) + d * q' == d * (m * q + q');
    RemainderUnique(n, d, m * q + q', r');
  }
}
