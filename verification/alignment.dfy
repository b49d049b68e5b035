/** Rounding up to a multiple, as the ALIGN_UP macro does it for each operand width. */
module Alignment {
  import opened Types

  /** ALIGN_UP at full width. */
  function AlignUp(x: nat, a: nat): (r: nat)
    requires a > 0
  {
    (x + a - 1) / a * a
  }

  /**
   ALIGN_UP(x, alignment) where `alignment` is a uint32_t: the mask ~(alignment - 1) is a 32-bit
   value, so zero-extending it also clears the upper half of the sum.
   */
  function AlignUp32(x: nat, a: nat): (r: nat)
    requires a > 0
  {
    var low := (x + a - 1) % U64_LIMIT % U32_LIMIT;
    low - low % a
  }

  predicate IsPow2(a: nat) {
    a == 1 || (a > 1 && a % 2 == 0 && IsPow2(a / 2))
  }

  lemma MulMono(p: nat, q: nat, a: nat)
    requires p <= q
    ensures p * a <= q * a
  {
    assert q * a == p * a + (q - p) * a;
  }

  /** Quotient and remainder are unique. */
  lemma DivModUnique(x: nat, a: nat, q: nat, r: nat)
    requires a > 0 && r < a && x == q * a + r
    ensures x / a == q && x % a == r
  {
    var q', r' := x / a, x % a;
    assert x == q' * a + r';
    if q < q' {
      MulMono(q + 1, q', a);
      assert false;
    }
    if q' < q {
      MulMono(q' + 1, q, a);
      assert false;
    }
  }

  lemma MultipleOf(q: nat, a: nat)
    requires a > 0
    ensures q * a % a == 0 && q * a / a == q
  {
    DivModUnique(q * a, a, q, 0);
  }

  lemma AlignedSum(x: nat, y: nat, a: nat)
    requires a > 0 && x % a == 0 && y % a == 0
    ensures (x + y) % a == 0
  {
    var p, q := x / a, y / a;
    assert x == p * a && y == q * a;
    assert (p + q) * a == p * a + q * a;
    MultipleOf(p + q, a);
  }

  lemma AlignedDifference(x: nat, y: nat, a: nat)
    requires a > 0 && x % a == 0 && y % a == 0 && y <= x
    ensures (x - y) % a == 0
  {
    var p, q := x / a, y / a;
    assert x == p * a && y == q * a;
    if p < q {
      MulMono(p + 1, q, a);
    }
    assert (p - q) * a == p * a - q * a;
    MultipleOf(p - q, a);
  }

  /** AlignUp is the least multiple of `a` that is not below `x`. */
  lemma AlignUpLeast(x: nat, a: nat, m: nat)
    requires a > 0
    ensures AlignUp(x, a) % a == 0
    ensures x <= AlignUp(x, a) < x + a
    ensures m % a == 0 && x <= m ==> AlignUp(x, a) <= m
  {
    var y := x + a - 1;
    var q, p := y / a, m / a;
    assert y == q * a + y % a;
    MultipleOf(q, a);
    if m % a == 0 && x <= m {
      assert m == p * a + m % a;
      if p < q {
        MulMono(p + 1, q, a);
        assert false;
      }
      MulMono(q, p, a);
    }
  }

  /** Below 4 GiB the 32-bit mask does what was meant. */
  lemma AlignUp32Exact(x: nat, a: nat)
    requires a > 0 && x + a - 1 < U32_LIMIT
    ensures AlignUp32(x, a) == AlignUp(x, a)
  {
    var y := x + a - 1;
    assert y % U64_LIMIT == y && y % U32_LIMIT == y;
    assert y == y / a * a + y % a;
  }

  lemma FloorMultiple(y: nat, a: nat)
    requires a > 0
    ensures 0 <= y - y % a <= y && (y - y % a) % a == 0
  {
    assert y == y / a * a + y % a;
    MultipleOf(y / a, a);
  }

  /** At any size it keeps only the low half: the result is below 4 GiB, and a multiple. */
  lemma AlignUp32Truncates(x: nat, a: nat)
    requires a > 0
    ensures AlignUp32(x, a) < U32_LIMIT
    ensures AlignUp32(x, a) % a == 0
  {
    FloorMultiple((x + a - 1) % U64_LIMIT % U32_LIMIT, a);
  }
}
