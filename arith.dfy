/** Facts about integer multiplication and division used by the chunk arithmetic. */
module Arith {

  function Min(a: int, b: int): (m: int)
    ensures m <= a && m <= b && (m == a || m == b)
  {
    if a <= b then a else b
  }

  lemma MulMonotone(a: nat, b: nat, c: nat)
    requires a <= b
    ensures a * c <= b * c
  {
  }

  lemma MulSucc(a: nat, c: nat)
    ensures (a + 1) * c == a * c + c
  {
  }

  /** `(n + size - 1) / size` is the ceiling of `n / size`. */
  lemma CeilDivBounds(n: nat, size: nat)
    requires size > 0
    ensures (n + size - 1) / size >= 0
    ensures n <= ((n + size - 1) / size) * size
    ensures (n + size - 1) / size == 0 || ((n + size - 1) / size - 1) * size < n
  {
    var q := (n + size - 1) / size;
    var r := (n + size - 1) % size;
    assert n + size - 1 == q * size + r;
    if q > 0 { MulSucc(q - 1, size); }
  }

  /**
   * A position `j < n`, with `n` covered by `t` blocks of width `size`, lies in
   * block `j / size`, at offset `j % size`, and that block is one of the `t`.
   */
  lemma BlockPosition(j: nat, size: nat, n: nat, t: nat)
    requires size > 0 && j < n <= t * size
    ensures j / size < t
    ensures j == (j / size) * size + j % size && j % size < size
    ensures j < Min((j / size + 1) * size, n)
  {
    var q, r := j / size, j % size;
    assert j == q * size + r && 0 <= r < size;
    MulSucc(q, size);
    if q >= t {
      MulMonotone(t, q, size);
    }
  }
}
