/** What several parts of the kernel share: bytes, machine words, option values, and division. */
module Basics {

  datatype Option<+T> = None | Some(value: T)

  type Byte = b: int | 0 <= b < 256

  const WRAP: int := 0x1_0000_0000_0000_0000

  type Word = w: int | 0 <= w < 0x1_0000_0000_0000_0000

  /** Slots of the task pool; the PID of a process is its slot. */
  const TASKPOOL_MAXCOUNT: nat := 2048

  /** Quotient and remainder, recognised by their defining equation. */
  lemma DivisionIs(x: int, q: int, r: int, m: int)
    requires 0 <= r < m && x == q * m + r
    ensures x / m == q && x % m == r
  {
    var k := q - x / m;
    assert k * m == x % m - r by {
      assert x == x / m * m + x % m;
      assert k * m == q * m - x / m * m;
    }
    assert k > 0 ==> k * m >= m;
    assert k < 0 ==> k * m <= -m;
  }

  lemma ModShift(x: int, k: int, m: int)
    requires m > 0
    ensures (x + k * m) % m == x % m
  {
    assert x + k * m == (x / m + k) * m + x % m;
    DivisionIs(x + k * m, x / m + k, x % m, m);
  }
}
