/**
 * The test-pattern fill `memset_ad` of snap_example_qnvme.c.
 *
 * The source buffer is filled with 64-bit words.  Word k is built from
 * the running pattern p = pattern + 8 * k (a `uint64_t`, so modulo 2^64):
 * its low half is the low half of p and its high half is the low half
 * of the bitwise complement of p.
 */
module Pattern {
  import opened Words

  /** `(p & 0xffffffff) | (~p << 32)`: the word stored for pattern bits p. */
  function PatternBits(p: bv64): bv64
  {
    (p & 0xffff_ffff) | (!p << 32)
  }

  /** The two halves of a pattern word, as 64-bit masks. */
  lemma PatternMasks(p: bv64)
    ensures PatternBits(p) & 0xffff_ffff == p & 0xffff_ffff
    ensures PatternBits(p) >> 32 == !p & 0xffff_ffff
  {
  }

  /** The low half of a pattern word is the low half of the pattern. */
  lemma PatternLow(p: bv64)
    ensures Low32(PatternBits(p)) == Low32(p)
  {
  }

  /** The high half of a pattern word is the complement of the pattern's low half. */
  lemma PatternHigh(p: bv64)
    ensures High32(PatternBits(p)) == !Low32(p)
  {
    PatternMasks(p);
  }

  /**
   * Every pattern word carries its low half and the complement of it:
   * the two halves XOR to all ones.
   */
  lemma PatternHalves(p: bv64)
    ensures Low32(PatternBits(p)) == Low32(p)
    ensures High32(PatternBits(p)) == !Low32(p)
    ensures High32(PatternBits(p)) ^ Low32(PatternBits(p)) == 0xffff_ffff
  {
    PatternLow(p);
    PatternHigh(p);
  }

  /**
   * The running pattern when word k is stored: the initial pattern
   * advanced k times by 8, in `uint64_t` arithmetic (modulo 2^64).
   */
  function PatternAt(pattern: bv64, k: nat): bv64
  {
    if k == 0 then pattern else PatternAt(pattern, k - 1) + 8
  }

  /** Stepping by 8 never changes the low three bits of the running pattern. */
  lemma {:induction false} PatternAtLowBits(pattern: bv64, k: nat)
    ensures PatternAt(pattern, k) & 7 == pattern & 7
  {
    if k > 0 {
      PatternAtLowBits(pattern, k - 1);
      var q := PatternAt(pattern, k - 1);
      assert (q + 8) & 7 == q & 7;
    }
  }

  /** Consecutive pattern words carry low halves 8 apart (modulo 2^32). */
  lemma PatternLowStep(pattern: bv64, k: nat)
    ensures Low32(PatternAt(pattern, k + 1)) == Low32(PatternAt(pattern, k)) + 8
  {
  }

  /** The high half of a word is the bitwise complement of its low half. */
  predicate HalvesComplementary(x: bv64)
  {
    High32(x) ^ Low32(x) == 0xffff_ffff
  }

  /** Every word of a filled prefix carries its pattern and the complement of it. */
  lemma FilledHalves(a: array<bv64>, pattern: bv64, n: int)
    requires 0 <= n <= a.Length
    requires forall k :: 0 <= k < n ==> a[k] == PatternBits(PatternAt(pattern, k))
    ensures forall k :: 0 <= k < n ==> HalvesComplementary(a[k])
  {
    forall k | 0 <= k < n
      ensures HalvesComplementary(a[k])
    {
      PatternHalves(PatternAt(pattern, k));
    }
  }

  /**
   * Fills the first ceil(size / 8) words of `a` (none when size <= 0);
   * word k receives the pattern word of pattern + 8 * k and the rest of
   * the buffer is left as it was.
   */
  method Fill(a: array<bv64>, pattern: bv64, size: int)
    requires WordCount(size) <= a.Length
    modifies a
    ensures forall k :: 0 <= k < WordCount(size) ==> a[k] == PatternBits(PatternAt(pattern, k))
    ensures forall k :: WordCount(size) <= k < a.Length ==> a[k] == old(a[k])
    ensures forall k :: 0 <= k < WordCount(size) ==> HalvesComplementary(a[k])
  {
    var i := 0;
    var w := 0;
    var p := pattern;
    while i < size
      invariant 0 <= w <= WordCount(size) && i == 8 * w
      invariant p == PatternAt(pattern, w)
      invariant forall k :: 0 <= k < w ==> a[k] == PatternBits(PatternAt(pattern, k))
      invariant forall k :: w <= k < a.Length ==> a[k] == old(a[k])
    {
      a[w] := PatternBits(p);
      p := p + 8;
      w := w + 1;
      i := i + 8;
    }
    FilledHalves(a, pattern, WordCount(size));
  }
}
