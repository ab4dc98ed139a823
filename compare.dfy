/**
 * The buffer comparison `memcmp2` of snap_example_qnvme.c.
 *
 * Two buffers are compared as 8-byte words.  Each mismatch is reported and
 * counted; the scan stops as soon as more than MaxReported mismatches have
 * been seen and the function then returns the count (MaxReported + 1).
 * When the scan runs to the end the count is reset to zero, so a result of
 * zero does not mean that the buffers agree.
 */
module Compare {
  import opened Words

  /** Mismatches beyond this many end the scan early. */
  const MaxReported: nat := 10

  /** The number of positions below n at which the two word sequences differ. */
  function Mismatches(d: seq<bv64>, s: seq<bv64>, n: nat): (c: nat)
    requires n <= |d| && n <= |s|
    ensures c <= n
    ensures c == 0 <==> forall k :: 0 <= k < n ==> d[k] == s[k]
  {
    if n == 0 then 0
    else Mismatches(d, s, n - 1) + (if d[n - 1] != s[n - 1] then 1 else 0)
  }

  /** Counting over a longer prefix never finds fewer mismatches. */
  lemma {:induction false} MismatchesMonotone(d: seq<bv64>, s: seq<bv64>, m: nat, n: nat)
    requires m <= n <= |d| && n <= |s|
    ensures Mismatches(d, s, m) <= Mismatches(d, s, n)
  {
    if m < n {
      MismatchesMonotone(d, s, m, n - 1);
    }
  }

  /** The result of `memcmp2` as written, given the number of mismatching words. */
  function AsWrittenResult(mismatches: nat): (rc: int)
    ensures rc == 0 || rc == MaxReported + 1
    ensures rc != 0 <==> mismatches > MaxReported
    ensures 0 < mismatches <= MaxReported ==> rc == 0
  {
    if mismatches > MaxReported then MaxReported + 1 else 0
  }

  /**
   * `memcmp2(dest, src, size)`: compares the first ceil(size / 8) words.
   * The result is MaxReported + 1 when more than MaxReported words differ
   * and 0 otherwise.  `scanned` is the number of words read: the scan ends
   * at the mismatch that pushes the count over MaxReported.  Neither buffer
   * is changed.
   */
  method CompareBuffers(dest: array<bv64>, src: array<bv64>, size: int) returns (rc: int, ghost scanned: nat)
    requires WordCount(size) <= dest.Length && WordCount(size) <= src.Length
    ensures rc == AsWrittenResult(Mismatches(dest[..], src[..], WordCount(size)))
    ensures rc == 0 || rc == MaxReported + 1
    ensures (forall k :: 0 <= k < WordCount(size) ==> dest[k] == src[k]) ==> rc == 0
    ensures scanned <= WordCount(size)
    ensures rc == 0 ==> scanned == WordCount(size)
    ensures rc != 0 ==> 0 < scanned && dest[scanned - 1] != src[scanned - 1]
                        && Mismatches(dest[..], src[..], scanned) == MaxReported + 1
  {
    var n := WordCount(size);
    rc := 0;
    var i := 0;
    var w := 0;
    while i < size
      invariant 0 <= w <= n && i == 8 * w
      invariant rc == Mismatches(dest[..], src[..], w) <= MaxReported
    {
      if dest[w] != src[w] {
        rc := rc + 1;
        if rc > MaxReported {
          scanned := w + 1;
          MismatchesMonotone(dest[..], src[..], w + 1, n);
          return;
        }
      }
      w := w + 1;
      i := i + 8;
    }
    rc := 0;
    scanned := n;
  }

  /**
   * The comparison with the reset removed: the result is the number of
   * mismatching words, capped at MaxReported + 1, so it is zero exactly
   * when the buffers agree.
   */
  method CompareBuffersCounted(dest: array<bv64>, src: array<bv64>, size: int) returns (rc: int)
    requires WordCount(size) <= dest.Length && WordCount(size) <= src.Length
    ensures var c := Mismatches(dest[..], src[..], WordCount(size));
            rc == if c > MaxReported then MaxReported + 1 else c
    ensures rc == 0 <==> forall k :: 0 <= k < WordCount(size) ==> dest[k] == src[k]
  {
    var n := WordCount(size);
    rc := 0;
    var i := 0;
    var w := 0;
    while i < size
      invariant 0 <= w <= n && i == 8 * w
      invariant rc == Mismatches(dest[..], src[..], w) <= MaxReported
    {
      if dest[w] != src[w] {
        rc := rc + 1;
        if rc > MaxReported {
          MismatchesMonotone(dest[..], src[..], w + 1, n);
          return;
        }
      }
      w := w + 1;
      i := i + 8;
    }
  }

  /**
   * Two 64-byte buffers that differ in the one word at byte offset 32:
   * the comparison as written returns 0, the counted one returns 1.
   */
  lemma OneMismatchGoesUnreported()
    ensures var d, s := [0, 0, 0, 0, 1, 0, 0, 0], [0, 0, 0, 0, 0, 0, 0, 0];
            Mismatches(d, s, WordCount(64)) == 1 && AsWrittenResult(Mismatches(d, s, WordCount(64))) == 0
  {
  }
}
