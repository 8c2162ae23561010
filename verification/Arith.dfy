/** Small facts about multiples and remainders that the solver does not find by itself. */
module Arith {

  lemma {:induction false} MultipleInsideOne(c: int, k: int)
    requires 0 < c && -c < c * k < c
    ensures k == 0
  {
    if k >= 1 {
      MultipleNonNegative(c, k - 1);
    } else if k <= -1 {
      MultipleNonNegative(c, -k - 1);
    }
  }

  lemma {:induction false} MultipleNonNegative(c: int, k: int)
    requires 0 <= c && 0 <= k
    ensures 0 <= c * k
  {
  }

  /** Two numbers less than `c` apart with the same remainder are equal. */
  lemma {:induction false} SameResidueNear(c: int, p: int, q: int)
    requires 0 < c && -c < p - q < c && p % c == q % c
    ensures p == q
  {
    var a, b := p / c, q / c;
    assert p == c * a + p % c && q == c * b + q % c;
    assert c * a - c * b == c * (a - b);
    MultipleInsideOne(c, a - b);
  }

  lemma {:induction false} ResidueOfNextLap(c: int, p: int)
    requires 0 < c
    ensures (p + c) % c == p % c
  {
    var a, b := p / c, (p + c) / c;
    assert p == c * a + p % c && p + c == c * b + (p + c) % c;
    assert c * b - c * a - c == c * (b - a - 1);
    MultipleInsideOne(c, b - a - 1);
  }

  /** The `k`-th index visited when walking `n` places in a circle from `start`. */
  function Cyclic(start: nat, n: nat, k: nat): (i: nat)
    requires 0 < n
    ensures i < n
  {
    (start + k) % n
  }

  /** One lap visits every index, and no index twice. */
  lemma {:induction false} CyclicReaches(start: nat, n: nat, i: nat) returns (k: nat)
    requires i < n
    ensures k < n && Cyclic(start, n, k) == i
  {
    var s := start % n;
    k := if i >= s then i - s else i - s + n;
    var a := start / n;
    assert start + k == n * a + s + k;
    if i >= s {
      ResidueOfLaps(n, i, a);
    } else {
      assert n * (a + 1) == n * a + n;
      ResidueOfLaps(n, i, a + 1);
    }
  }

  lemma {:induction false} ResidueOfLaps(n: int, i: int, a: int)
    requires 0 <= i < n
    ensures (n * a + i) % n == i
  {
    var x := n * a + i;
    assert x == n * (x / n) + x % n;
    assert n * (x / n) - n * a == n * (x / n - a);
    MultipleInsideOne(n, x / n - a);
  }

  lemma {:induction false} CyclicDistinct(start: nat, n: nat, j: nat, k: nat)
    requires j < n && k < n && Cyclic(start, n, j) == Cyclic(start, n, k)
    ensures j == k
  {
    SameResidueNear(n, start + j, start + k);
  }

  lemma {:induction false} CyclicNext(start: nat, n: nat, k: nat)
    requires 0 < n
    ensures Cyclic(start, n, k + 1) == if Cyclic(start, n, k) + 1 == n then 0 else Cyclic(start, n, k) + 1
  {
    var p := start + k;
    var a, i := p / n, p % n;
    assert p == n * a + i;
    if i + 1 == n {
      assert n * (a + 1) == n * a + n;
      ResidueOfLaps(n, 0, a + 1);
      assert p + 1 == n * (a + 1) + 0;
    } else {
      ResidueOfLaps(n, i + 1, a);
    }
  }
}
