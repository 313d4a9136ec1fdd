/** `oc_align_forward` (`core/core1.h:340-342`) for the alignments that occur: those of scalars and
    of the stack. */
module Align {

  predicate Alignment(a: nat) {
    a == 1 || a == 2 || a == 4 || a == 8 || a == 16
  }

  predicate Aligned(n: nat, a: nat)
    requires Alignment(a)
  {
    if a == 1 then true
    else if a == 2 then n % 2 == 0
    else if a == 4 then n % 4 == 0
    else if a == 8 then n % 8 == 0
    else n % 16 == 0
  }

  /** The least aligned number that is not smaller. */
  function Forward(n: nat, a: nat): (r: nat)
    requires Alignment(a)
    ensures n <= r < n + a && Aligned(r, a)
  {
    if a == 1 then n
    else if a == 2 then (n + 1) / 2 * 2
    else if a == 4 then (n + 3) / 4 * 4
    else if a == 8 then (n + 7) / 8 * 8
    else (n + 15) / 16 * 16
  }

  /** Aligned numbers stay put. */
  lemma AlignedStays(n: nat, a: nat)
    requires Alignment(a) && Aligned(n, a)
    ensures Forward(n, a) == n
  {
  }

  /** A multiple of a larger alignment is a multiple of a smaller one. */
  lemma AlignedForLess(n: nat, a: nat, b: nat)
    requires Alignment(a) && Alignment(b) && b <= a && Aligned(n, a)
    ensures Aligned(n, b)
  {
  }

  // ---- the mask --------------------------------------------------------------------------------

  /** `x` with its `k` low bits cleared: `x & ~(2^k - 1)`. */
  function ClearLow(x: nat, k: nat): nat
    decreases k
  {
    if k == 0 then x else 2 * ClearLow(x / 2, k - 1)
  }

  function LowBits(a: nat): nat
    requires Alignment(a)
  {
    if a == 1 then 0 else if a == 2 then 1 else if a == 4 then 2 else if a == 8 then 3 else 4
  }

  lemma ClearOne(x: nat)
    ensures ClearLow(x, 1) == x / 2 * 2
  {
    assert ClearLow(x / 2, 0) == x / 2;
  }

  lemma ClearTwo(x: nat)
    ensures ClearLow(x, 2) == x / 4 * 4
  {
    ClearOne(x / 2);
  }

  lemma ClearThree(x: nat)
    ensures ClearLow(x, 3) == x / 8 * 8
  {
    ClearTwo(x / 2);
  }

  lemma ClearFour(x: nat)
    ensures ClearLow(x, 4) == x / 16 * 16
  {
    ClearThree(x / 2);
  }

  /** The least aligned number is what the mask computes. */
  lemma MaskAligns(n: nat, a: nat)
    requires Alignment(a)
    ensures ClearLow(n + a - 1, LowBits(a)) == Forward(n, a)
  {
    hide ClearLow;
    var x := n + a - 1;
    if a == 1 {
      NothingCleared(x);
    }
    ClearOne(x);
    ClearTwo(x);
    ClearThree(x);
    ClearFour(x);
  }

  lemma NothingCleared(x: nat)
    ensures ClearLow(x, 0) == x
  {
  }
}
