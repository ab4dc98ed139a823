/**
 * The card handle as seen by snap_example_qnvme.c: 32-bit register writes
 * and reads, `action_write`, `nvme_mmio_write` and `nvme_mmio_read`.
 *
 * A handle records every register access in order.  The values the device
 * returns to reads are not modelled as hardware: they come from a finite
 * sequence of replies fixed when the handle is made.  When the replies run
 * out the read fails, which stands for a device that never answers.
 */
module Mmio {

  import opened Words

  datatype Option<T> = None | Some(value: T)

  /**
   * The registers of the copy action.  Their offsets come from a header
   * that is not part of this model, so they are kept symbolic.
   */
  datatype ActionReg = Config | DestLow | DestHigh | SrcLow | SrcHigh | Count

  /**
   * One register access.  NVMe offsets are relative to the NVMe register
   * window; the fixed base that `nvme_mmio_write` and `nvme_mmio_read` add
   * is the same for every access and is left out.
   */
  datatype Access =
    | ActionWrite(reg: ActionReg, value: u32)
    | NvmeWrite(offset: u32, value: u32)
    | NvmeRead(offset: u32, value: u32)

  /** The values returned by the reads in t, oldest first. */
  function ReadValues(t: seq<Access>): seq<u32>
  {
    if t == [] then []
    else ReadValues(t[..|t| - 1]) + (if t[|t| - 1].NvmeRead? then [t[|t| - 1].value] else [])
  }

  lemma ReadValuesSingle(a: Access)
    ensures ReadValues([a]) == if a.NvmeRead? then [a.value] else []
  {
    assert [a][..0] == [];
  }

  /** The reads of a trace made in two parts are those of the first part, then those of the second. */
  lemma {:induction false} ReadValuesAppend(a: seq<Access>, b: seq<Access>)
    ensures ReadValues(a + b) == ReadValues(a) + ReadValues(b)
  {
    if b == [] {
      assert a + b == a;
    } else {
      assert (a + b)[..|a + b| - 1] == a + b[..|b| - 1];
      ReadValuesAppend(a, b[..|b| - 1]);
    }
  }

  class Card {
    /** Every register access made through this handle, oldest first. */
    var trace: seq<Access>
    /** What the device will return to the next reads, in order. */
    var replies: seq<u32>

    constructor (replies: seq<u32>)
      ensures trace == [] && this.replies == replies
    {
      trace := [];
      this.replies := replies;
    }

    /** `action_write`: one 32-bit write to an action register. */
    method WriteAction(reg: ActionReg, value: u32)
      modifies this
      ensures trace == old(trace) + [ActionWrite(reg, value)]
      ensures replies == old(replies)
    {
      trace := trace + [ActionWrite(reg, value)];
    }

    /** `nvme_mmio_write`: one 32-bit write to an NVMe register. */
    method WriteNvme(offset: u32, value: u32)
      modifies this
      ensures trace == old(trace) + [NvmeWrite(offset, value)]
      ensures replies == old(replies)
    {
      trace := trace + [NvmeWrite(offset, value)];
    }

    /**
     * `nvme_mmio_read`: one 32-bit read of an NVMe register.  It takes the
     * next reply and records the read; with no reply left it fails and
     * nothing changes.
     */
    method ReadNvme(offset: u32) returns (r: Option<u32>)
      modifies this
      ensures old(replies) == [] ==> r == None && trace == old(trace) && replies == old(replies)
      ensures old(replies) != [] ==> r == Some(old(replies)[0]) && replies == old(replies)[1..]
                                     && trace == old(trace) + [NvmeRead(offset, r.value)]
    {
      if replies == [] {
        r := None;
      } else {
        r := Some(replies[0]);
        trace := trace + [NvmeRead(offset, replies[0])];
        replies := replies[1..];
      }
    }
  }
}
