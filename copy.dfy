/**
 * `action_memcpy` of snap_example_qnvme.c: programs one transfer of the
 * copy action with six register writes.
 */
module Copy {
  import opened Words
  import opened Mmio

  /**
   * `(uint32_t)(x & 0xffffffff)` and `(uint32_t)(x >> 32)` of a `uint64_t`:
   * for an unsigned value the mask keeps the remainder by 2^32 and the
   * shift gives the quotient.
   */
  function Halves(x: u64): (h: (u32, u32))
    ensures h.0 + h.1 * Two32 == x
  {
    (x % Two32, x / Two32)
  }

  /**
   * The writes of one transfer descriptor: the configuration word, the
   * destination and the source address each as low and high halves, and
   * the byte count truncated to 32 bits.
   */
  function DescriptorWrites(action: u32, dest: u64, src: u64, n: u64): (w: seq<Access>)
    ensures |w| == 6
    ensures forall i :: 0 <= i < 6 ==> w[i].ActionWrite?
    ensures w[0].reg == Config && w[1].reg == DestLow && w[2].reg == DestHigh
    ensures w[3].reg == SrcLow && w[4].reg == SrcHigh && w[5].reg == Count
    ensures w[0].value == action
    ensures w[1].value + w[2].value * Two32 == dest
    ensures w[3].value + w[4].value * Two32 == src
    ensures (w[5].value - n) % Two32 == 0
    ensures n < Two32 ==> w[5].value == n
  {
    var (destLow, destHigh) := Halves(dest);
    var (srcLow, srcHigh) := Halves(src);
    [ ActionWrite(Config, action),
      ActionWrite(DestLow, destLow),
      ActionWrite(DestHigh, destHigh),
      ActionWrite(SrcLow, srcLow),
      ActionWrite(SrcHigh, srcHigh),
      ActionWrite(Count, Wrap32(n)) ]
  }

  /** `action_memcpy`: appends the six descriptor writes to the handle's trace. */
  method Memcpy(card: Card, action: u32, dest: u64, src: u64, n: u64)
    modifies card
    ensures card.trace == old(card.trace) + DescriptorWrites(action, dest, src, n)
    ensures card.replies == old(card.replies)
  {
    var (destLow, destHigh) := Halves(dest);
    var (srcLow, srcHigh) := Halves(src);
    card.WriteAction(Config, action);
    card.WriteAction(DestLow, destLow);
    card.WriteAction(DestHigh, destHigh);
    card.WriteAction(SrcLow, srcLow);
    card.WriteAction(SrcHigh, srcHigh);
    card.WriteAction(Count, Wrap32(n));
  }
}
