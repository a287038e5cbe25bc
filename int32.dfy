/** The C++ `int` arithmetic the push handler relies on: the 32-bit range of
    `std::atomic<int> push_counter` and `int param_backup_period`, the
    two's complement wrap-around of `push_counter++`, and the truncating
    remainder of the `%` operator. */
module Int32 {

  const INT_MIN: int := -0x8000_0000
  const INT_MAX: int := 0x7fff_ffff

  newtype int32 = x: int | -0x8000_0000 <= x < 0x8000_0000

  /** The value an `int32` counter that starts at 0 holds after `n`
      increments.  It is exact as long as no overflow has happened, and it
      always differs from `n` by a multiple of 2^32. */
  function Wrap(n: int): (r: int32)
    ensures INT_MIN <= n <= INT_MAX ==> r as int == n
    ensures (n - r as int) % 0x1_0000_0000 == 0
  {
    var x := n + 0x8000_0000;
    DivUnique(x - x % 0x1_0000_0000, 0x1_0000_0000, x / 0x1_0000_0000, 0);
    if INT_MIN <= n <= INT_MAX then
      DivUnique(x, 0x1_0000_0000, 0, x);
      (x % 0x1_0000_0000 - 0x8000_0000) as int32
    else
      (x % 0x1_0000_0000 - 0x8000_0000) as int32
  }

  /** `c++` on a `std::atomic<int>`: two's complement wrap-around. */
  function Inc(c: int32): (r: int32)
    ensures c as int < INT_MAX ==> r as int == c as int + 1
    ensures (r as int - c as int - 1) % 0x1_0000_0000 == 0
  {
    if c as int == INT_MAX then INT_MIN as int32 else c + 1
  }

  /** C++ `a % b` for a positive divisor: the remainder takes the sign of `a`. */
  function CRem(a: int, b: int): (r: int)
    requires b > 0
    ensures -b < r < b
    ensures a >= 0 ==> r >= 0
    ensures a < 0 ==> r <= 0
    ensures (a - r) % b == 0
    ensures r == 0 <==> a % b == 0
  {
    if a >= 0 then
      DivUnique(a - a % b, b, a / b, 0);
      a % b
    else
      var q := (-a) / b;
      DivUnique(a + (-a) % b, b, -q, 0);
      if (-a) % b == 0 then
        DivUnique(a, b, -q, 0);
        0
      else
        DivUnique(a, b, -q - 1, b - (-a) % b);
        -((-a) % b)
  }

  /** Euclidean division has exactly one quotient and remainder. */
  lemma DivUnique(a: int, b: int, q: int, r: int)
    requires b > 0 && 0 <= r < b && a == q * b + r
    ensures a / b == q && a % b == r
  {
    var q', r' := a / b, a % b;
    assert q * b + r == q' * b + r';
    if q > q' {
      assert (q - q') * b == q * b - q' * b;
      MulAtLeast(q - q', b);
    } else if q < q' {
      assert (q' - q) * b == q' * b - q * b;
      MulAtLeast(q' - q, b);
    }
  }

  lemma MulAtLeast(k: int, b: int)
    requires k >= 1 && b > 0
    ensures k * b >= b
  {
  }

  /** An increment of the wrapped counter is the wrapped value of the next
      count: `push_counter++` keeps `push_counter == Wrap(handled)`. */
  lemma IncWrap(n: int)
    ensures Inc(Wrap(n)) == Wrap(n + 1)
  {
  }

  /** After 2^31 - 1 increments the counter is at its maximum; one more makes
      it negative. */
  lemma CounterOverflow()
    ensures Wrap(INT_MAX) as int == INT_MAX
    ensures Inc(Wrap(INT_MAX)) as int == INT_MIN
    ensures Wrap(INT_MAX + 1) as int == INT_MIN
  {
  }
}
