/** Remainders, for cursors that wrap around. */
module Modular {

  lemma {:induction false} MulNonNegative(a: nat, b: nat)
    ensures a * b >= 0
  {
    if a == 0 {
    } else {
      MulNonNegative(a - 1, b);
      assert a * b == (a - 1) * b + b;
    }
  }

  lemma MultipleAtLeast(d: int, n: nat)
    ensures d > 0 ==> d * n >= n
    ensures d < 0 ==> d * n <= -(n as int)
  {
    if d > 0 {
      MulNonNegative(d - 1, n);
      assert d * n == (d - 1) * n + n;
    } else if d < 0 {
      MulNonNegative(-d - 1, n);
      assert d * n == -((-d - 1) * n) - n;
    }
  }

  lemma DivMod(x: int, n: nat)
    requires n > 0
    ensures x == (x / n) * n + x % n && 0 <= x % n < n
  {
  }

  /** Quotient and remainder are unique. */
  lemma ModOf(x: int, q: int, r: int, n: nat)
    requires 0 <= r < n && x == q * n + r
    ensures x % n == r
  {
    DivMod(x, n);
    var d := q - x / n;
    assert d * n == q * n - (x / n) * n;
    MultipleAtLeast(d, n);
  }

  /** Adding inside or outside the remainder makes no difference. */
  lemma ModAdd(a: int, b: int, n: nat)
    requires 0 < n
    ensures (a % n + b) % n == (a + b) % n
  {
    DivMod(a, n);
    DivMod(a + b, n);
    var d := (a + b) / n - a / n;
    assert d * n == ((a + b) / n) * n - (a / n) * n;
    ModOf(a % n + b, d, (a + b) % n, n);
  }

  lemma ModSmall(a: nat, n: nat)
    requires a < n
    ensures a % n == a
  {
    ModOf(a, 0, a, n);
  }

  lemma ModCycle(a: int, n: nat)
    requires 0 < n
    ensures (a + n) % n == a % n
  {
    DivMod(a, n);
    assert (a / n + 1) * n == (a / n) * n + n;
    ModOf(a + n, a / n + 1, a % n, n);
  }

  /** A position on a ring of `n`. */
  function Wrap(x: int, n: nat): (r: nat)
    requires n > 0
    ensures r < n
  {
    x % n
  }

  lemma WrapAdd(a: int, b: int, n: nat)
    requires n > 0
    ensures Wrap(Wrap(a, n) + b, n) == Wrap(a + b, n)
  {
    ModAdd(a, b, n);
  }

  lemma WrapSmall(a: nat, n: nat)
    requires a < n
    ensures Wrap(a, n) == a
  {
    ModSmall(a, n);
  }
}
