/**
 * `nvme_read_test` of snap_example_qnvme.c: a fixed number of NVMe read
 * commands submitted to one IO submission queue without overrunning it,
 * followed by a drain that waits until every submitted command has been
 * seen to complete.
 *
 * The status and track registers are read through a `Card` handle whose
 * replies are a finite sequence.  The C code polls both registers with no
 * bound; here a poll that finds no reply left ends the run as Stalled,
 * which is where the C code would spin for ever.
 */
module NvmeQueue {
  import opened Words
  import opened Mmio

  // Write registers of the NVMe window.
  const DptrLow: u32 := 0x00
  const DptrHigh: u32 := 0x04
  const LbaLow: u32 := 0x08
  const LbaHigh: u32 := 0x0c
  const LbaNum: u32 := 0x10
  const CommandReg: u32 := 0x14

  // Fields of the command word: bits 0-3 the command type, bits 4-7 the
  // queue, bits 8 and up the action id.
  const CmdTypeRead: u32 := 0
  const QueueSsd0Io: u32 := 1 * 16
  const QueueSsd1Io: u32 := 3 * 16
  /** The action id the test puts into every command. */
  const ActionId: u32 := 0xef

  // Read registers of the NVMe window, and the single-bit masks of STATUS_REG.
  const StatusReg: u32 := 0x00
  const SubQueueFullSsd0Io: u32 := 0x02
  const SubQueueFullSsd1Io: u32 := 0x08
  const TrackReg: u32 := 0x04

  /** Bytes in one logical block. */
  const BlockSize: int := 512

  /** The value DPTR_HIGH is set to for the whole run. */
  const DptrHighValue: u32 := 2

  datatype Outcome = Returned(rc: int) | Stalled

  /**
   * `ssd_ioq_full & val32` is non-zero: the status bit of the selected
   * drive's IO queue (0x02 for drive 0, 0x08 for drive 1) is set.  Any
   * drive number other than 1 selects drive 0.  The mask has one bit, so
   * the test is whether that bit of the status value is one.
   */
  function QueueFull(status: u32, drive: int): (full: bool)
    ensures drive == 1 ==> (full <==> status % 16 >= 8)
    ensures drive != 1 ==> (full <==> status % 4 >= 2)
  {
    Bit3Set(status);
    Bit1Set(status);
    if drive == 1 then (status / SubQueueFullSsd1Io) % 2 == 1
    else (status / SubQueueFullSsd0Io) % 2 == 1
  }

  /**
   * `CMD_QUEUE_ID | CMD_ACTION_ID(0xef)`: the selected drive's IO queue,
   * the read command type and the action id.  The fields occupy disjoint
   * bits, so the `|` is a sum and `<< 8` a multiplication by 256.
   */
  function CommandWord(drive: int): (c: u32)
    ensures c == if drive == 1 then 0xef30 else 0xef10
    ensures c % 16 == CmdTypeRead
    ensures c / 256 == ActionId
  {
    (if drive == 1 then QueueSsd1Io else QueueSsd0Io) + ActionId * 256
  }

  /** LBA_LOW of the k-th command (from 0): k * blocks as a `uint32_t`. */
  function LbaAt(blocks: int, k: nat): u32
  {
    Wrap32(k * blocks)
  }

  /** DPTR_LOW of the k-th command (from 0): k * 512 * blocks as a `uint32_t`. */
  function DptrAt(blocks: int, k: nat): u32
  {
    Wrap32(k * (BlockSize * blocks))
  }

  /**
   * `lba_low += blocks` and `dptr_low += 512 * blocks` in `uint32_t`
   * arithmetic move from the k-th command's offsets to the next one's.
   */
  lemma OffsetsAdvance(blocks: int, k: nat)
    ensures Wrap32(LbaAt(blocks, k) + blocks) == LbaAt(blocks, k + 1)
    ensures Wrap32(DptrAt(blocks, k) + BlockSize * blocks) == DptrAt(blocks, k + 1)
  {
    WrapAdd(k * blocks, blocks);
    assert k * blocks + blocks == (k + 1) * blocks;
    WrapAdd(k * (BlockSize * blocks), BlockSize * blocks);
    assert k * (BlockSize * blocks) + BlockSize * blocks == (k + 1) * (BlockSize * blocks);
  }

  /** The number of commands a run submits: nmax, or none when nmax <= 0. */
  function SubmissionCount(nmax: int): nat
  {
    if nmax <= 0 then 0 else nmax
  }

  // ---------------------------------------------------------------------
  // The shape of a run

  /** The writes made once, before any command: DPTR_HIGH, LBA_HIGH and LBA_NUM. */
  function SetupWrites(blocks: int): (w: seq<Access>)
    ensures |w| == 3 && forall i :: 0 <= i < 3 ==> w[i].NvmeWrite? && w[i].offset != CommandReg
    ensures w[0] == NvmeWrite(DptrHigh, 2) && w[1] == NvmeWrite(LbaHigh, 0)
    ensures w[2].offset == LbaNum && (w[2].value - blocks) % Two32 == 0
    ensures 0 <= blocks < Two32 ==> w[2].value == blocks
  {
    [NvmeWrite(DptrHigh, DptrHighValue), NvmeWrite(LbaHigh, 0), NvmeWrite(LbaNum, Wrap32(blocks))]
  }

  /** Reads of one register that returned the given values, in order. */
  function Polls(offset: u32, values: seq<u32>): (t: seq<Access>)
    ensures |t| == |values|
    ensures forall i :: 0 <= i < |t| ==> t[i] == NvmeRead(offset, values[i])
  {
    seq(|values|, i requires 0 <= i < |values| => NvmeRead(offset, values[i]))
  }

  /**
   * What one pass of the submit loop saw: the status values that found the
   * queue full, the status value that found room, and the track value.
   */
  datatype Submission = Submission(busy: seq<u32>, status: u32, track: u32)

  /** The status reads of a submission waited until the queue had room. */
  predicate WaitedForRoom(s: Submission, drive: int)
  {
    (forall i :: 0 <= i < |s.busy| ==> QueueFull(s.busy[i], drive)) && !QueueFull(s.status, drive)
  }

  /**
   * The reads of a pass cut short by running out of replies: STATUS_REG
   * reads only, every one but the last finding the queue full.  (The last
   * either found it full too, or found room just before the TRACK_REG
   * read that had no reply.)
   */
  predicate StalledPoll(part: seq<Access>, drive: int)
  {
    forall i :: 0 <= i < |part| ==>
      part[i].NvmeRead? && part[i].offset == StatusReg
      && (i < |part| - 1 ==> QueueFull(part[i].value, drive))
  }

  /** The writes that submit the k-th command: DPTR_LOW, LBA_LOW, then COMMAND_REG. */
  function SubmitWrites(drive: int, blocks: int, k: nat): seq<Access>
  {
    [NvmeWrite(DptrLow, DptrAt(blocks, k)), NvmeWrite(LbaLow, LbaAt(blocks, k)),
     NvmeWrite(CommandReg, CommandWord(drive))]
  }

  /**
   * The k-th submission writes DPTR_LOW = k * 512 * blocks and
   * LBA_LOW = k * blocks, both modulo 2^32, then the command word.
   */
  lemma SubmitWritesValues(drive: int, blocks: int, k: nat)
    ensures var w := SubmitWrites(drive, blocks, k);
      && |w| == 3 && (forall i :: 0 <= i < 3 ==> w[i].NvmeWrite?)
      && w[0].offset == DptrLow && (w[0].value - k * BlockSize * blocks) % Two32 == 0
      && w[1].offset == LbaLow && (w[1].value - k * blocks) % Two32 == 0
      && w[2] == NvmeWrite(CommandReg, CommandWord(drive))
  {
  }

  /** The accesses of the k-th pass of the submit loop. */
  function SubmissionAccesses(s: Submission, drive: int, blocks: int, k: nat): seq<Access>
  {
    Polls(StatusReg, s.busy) + [NvmeRead(StatusReg, s.status), NvmeRead(TrackReg, s.track)]
    + SubmitWrites(drive, blocks, k)
  }

  /** The accesses of the passes of the submit loop, the k-th pass submitting command k. */
  function SubmitPhase(subs: seq<Submission>, drive: int, blocks: int): seq<Access>
  {
    if subs == [] then []
    else SubmitPhase(subs[..|subs| - 1], drive, blocks)
         + SubmissionAccesses(subs[|subs| - 1], drive, blocks, |subs| - 1)
  }

  // ---------------------------------------------------------------------
  // Counting commands and completions

  predicate IsCommand(a: Access)
  {
    a.NvmeWrite? && a.offset == CommandReg
  }

  /** A track read that reports a completion: `val32 > 0`. */
  predicate IsCompletion(a: Access)
  {
    a.NvmeRead? && a.offset == TrackReg && a.value > 0
  }

  /** The number of COMMAND_REG writes in t. */
  function Commands(t: seq<Access>): nat
  {
    if t == [] then 0 else Commands(t[..|t| - 1]) + (if IsCommand(t[|t| - 1]) then 1 else 0)
  }

  /** The number of completions reported in t. */
  function Completions(t: seq<Access>): nat
  {
    if t == [] then 0 else Completions(t[..|t| - 1]) + (if IsCompletion(t[|t| - 1]) then 1 else 0)
  }

  lemma {:induction false} CountsAppend(a: seq<Access>, b: seq<Access>)
    ensures Commands(a + b) == Commands(a) + Commands(b)
    ensures Completions(a + b) == Completions(a) + Completions(b)
  {
    if b == [] {
      assert a + b == a;
    } else {
      assert (a + b)[..|a + b| - 1] == a + b[..|b| - 1];
      CountsAppend(a, b[..|b| - 1]);
    }
  }

  /** A sequence of reads holds no command write. */
  lemma {:induction false} ReadsHoldNoCommand(t: seq<Access>)
    requires forall i :: 0 <= i < |t| ==> t[i].NvmeRead?
    ensures Commands(t) == 0
  {
    if t != [] {
      ReadsHoldNoCommand(t[..|t| - 1]);
    }
  }

  /** Reads of a register other than TRACK_REG report no completion. */
  lemma {:induction false} OtherPollsHoldNoCompletion(offset: u32, values: seq<u32>)
    requires offset != TrackReg
    ensures Completions(Polls(offset, values)) == 0
  {
    if values != [] {
      var last := |values| - 1;
      assert Polls(offset, values) == Polls(offset, values[..last]) + [NvmeRead(offset, values[last])];
      OtherPollsHoldNoCompletion(offset, values[..last]);
    }
  }

  lemma CountsSingle(a: Access)
    ensures Commands([a]) == if IsCommand(a) then 1 else 0
    ensures Completions([a]) == if IsCompletion(a) then 1 else 0
  {
  }

  /**
   * One pass of the submit loop holds one command write, and one
   * completion exactly when its track read returned a positive value.
   */
  lemma SubmissionCounts(s: Submission, drive: int, blocks: int, k: nat)
    ensures Commands(SubmissionAccesses(s, drive, blocks, k)) == 1
    ensures Completions(SubmissionAccesses(s, drive, blocks, k)) == if s.track > 0 then 1 else 0
  {
    var p := Polls(StatusReg, s.busy);
    var r0, r1 := NvmeRead(StatusReg, s.status), NvmeRead(TrackReg, s.track);
    var w := SubmitWrites(drive, blocks, k);
    ReadsHoldNoCommand(p);
    OtherPollsHoldNoCompletion(StatusReg, s.busy);
    CountsSingle(r0);
    CountsSingle(r1);
    CountsSingle(w[0]);
    CountsSingle(w[1]);
    CountsSingle(w[2]);
    CountsAppend([r0], [r1]);
    CountsAppend([w[0]], [w[1]]);
    CountsAppend([w[0], w[1]], [w[2]]);
    assert [r0] + [r1] == [r0, r1];
    assert [w[0]] + [w[1]] == [w[0], w[1]];
    assert [w[0], w[1]] + [w[2]] == w;
    CountsAppend(p, [r0, r1]);
    CountsAppend(p + [r0, r1], w);
  }

  /**
   * The number of commands still in flight after the given passes of the
   * submit loop: `qin`, one up per command and one down per completion.
   */
  function InFlight(subs: seq<Submission>, drive: int, blocks: int): int
  {
    |subs| - Completions(SubmitPhase(subs, drive, blocks))
  }

  /**
   * The submit phase holds one command write per pass and at most one
   * completion per pass.
   */
  lemma {:induction false} SubmitPhaseCounts(subs: seq<Submission>, drive: int, blocks: int)
    ensures Commands(SubmitPhase(subs, drive, blocks)) == |subs|
    ensures Completions(SubmitPhase(subs, drive, blocks)) <= |subs|
  {
    if subs != [] {
      var last := |subs| - 1;
      SubmitPhaseCounts(subs[..last], drive, blocks);
      SubmissionCounts(subs[last], drive, blocks, last);
      CountsAppend(SubmitPhase(subs[..last], drive, blocks), SubmissionAccesses(subs[last], drive, blocks, last));
    }
  }

  /**
   * `qin` after the first k passes lies between 0 and k, and it never
   * decreases from one pass to the next.
   */
  lemma InFlightBounds(subs: seq<Submission>, drive: int, blocks: int)
    ensures forall k :: 0 <= k <= |subs| ==> 0 <= InFlight(subs[..k], drive, blocks) <= k
    ensures forall k :: 0 <= k < |subs| ==> InFlight(subs[..k], drive, blocks) <= InFlight(subs[..k + 1], drive, blocks)
  {
    forall k | 0 <= k <= |subs|
      ensures 0 <= InFlight(subs[..k], drive, blocks) <= k
    {
      SubmitPhaseCounts(subs[..k], drive, blocks);
    }
    forall k | 0 <= k < |subs|
      ensures InFlight(subs[..k], drive, blocks) <= InFlight(subs[..k + 1], drive, blocks)
    {
      assert subs[..k + 1][..k] == subs[..k];
      SubmissionCounts(subs[k], drive, blocks, k);
      CountsAppend(SubmitPhase(subs[..k], drive, blocks), SubmissionAccesses(subs[k], drive, blocks, k));
    }
  }

  // ---------------------------------------------------------------------
  // Ordering of the command writes

  /**
   * The write at position i is the command of the drive's IO queue, and
   * the four accesses before it are, in order: a STATUS_REG read that
   * found the queue not full, a TRACK_REG read, and the DPTR_LOW and
   * LBA_LOW writes for the command's own index (the number of commands
   * before it).
   */
  predicate SubmittedAt(t: seq<Access>, i: int, drive: int, blocks: int)
  {
    4 <= i < |t|
    && t[i - 4].NvmeRead? && t[i - 4].offset == StatusReg && !QueueFull(t[i - 4].value, drive)
    && t[i - 3].NvmeRead? && t[i - 3].offset == TrackReg
    && t[i - 2] == NvmeWrite(DptrLow, DptrAt(blocks, Commands(t[..i])))
    && t[i - 1] == NvmeWrite(LbaLow, LbaAt(blocks, Commands(t[..i])))
    && t[i] == NvmeWrite(CommandReg, CommandWord(drive))
  }

  /** Every command write in t is submitted in order. */
  predicate CommandsInOrder(t: seq<Access>, drive: int, blocks: int)
  {
    forall i :: 0 <= i < |t| && IsCommand(t[i]) ==> SubmittedAt(t, i, drive, blocks)
  }

  lemma SubmittedAtExtends(a: seq<Access>, b: seq<Access>, i: int, drive: int, blocks: int)
    requires SubmittedAt(a, i, drive, blocks)
    ensures SubmittedAt(a + b, i, drive, blocks)
  {
    assert (a + b)[..i] == a[..i];
  }

  /** Within one pass of the submit loop, only the last access is a command. */
  lemma OnlyLastIsCommand(s: Submission, drive: int, blocks: int, k: nat, j: int)
    requires 0 <= j < |SubmissionAccesses(s, drive, blocks, k)| - 1
    ensures !IsCommand(SubmissionAccesses(s, drive, blocks, k)[j])
  {
  }

  /**
   * Appending the k-th pass of the submit loop, after k commands, to a
   * trace whose commands are in order keeps them in order.
   */
  lemma AppendSubmission(t: seq<Access>, s: Submission, drive: int, blocks: int, k: nat)
    requires CommandsInOrder(t, drive, blocks) && Commands(t) == k
    requires WaitedForRoom(s, drive)
    ensures CommandsInOrder(t + SubmissionAccesses(s, drive, blocks, k), drive, blocks)
  {
    var acc := SubmissionAccesses(s, drive, blocks, k);
    var u := t + acc;
    var m := |s.busy|;
    forall i | 0 <= i < |u| && IsCommand(u[i])
      ensures SubmittedAt(u, i, drive, blocks)
    {
      if i < |t| {
        SubmittedAtExtends(t, acc, i, drive, blocks);
      } else if i < |u| - 1 {
        OnlyLastIsCommand(s, drive, blocks, k, i - |t|);
      } else {
        SubmissionCounts(s, drive, blocks, k);
        CountsAppend(t, acc);
        assert Commands(u[..i]) == k;
        assert |acc| == m + 5;
        assert u[i - 4] == acc[m] && u[i - 3] == acc[m + 1];
        assert u[i - 2] == acc[m + 2] && u[i - 1] == acc[m + 3] && u[i] == acc[m + 4];
      }
    }
  }

  /** The setup writes hold no command and no completion. */
  lemma SetupCounts(blocks: int)
    ensures Commands(SetupWrites(blocks)) == 0 && Completions(SetupWrites(blocks)) == 0
  {
    var setup := SetupWrites(blocks);
    assert setup == [setup[0]] + [setup[1]] + [setup[2]];
    CountsSingle(setup[0]);
    CountsSingle(setup[1]);
    CountsSingle(setup[2]);
    CountsAppend([setup[0]], [setup[1]]);
    CountsAppend([setup[0]] + [setup[1]], [setup[2]]);
  }

  /** The setup writes hold no command, so their (absent) commands are in order. */
  lemma SetupInOrder(drive: int, blocks: int)
    ensures CommandsInOrder(SetupWrites(blocks), drive, blocks)
    ensures Commands(SetupWrites(blocks)) == 0
  {
    SetupCounts(blocks);
  }

  /** The run up to a pass is the run up to the pass before, then that pass. */
  lemma PhaseStep(subs: seq<Submission>, drive: int, blocks: int)
    requires subs != []
    ensures SetupWrites(blocks) + SubmitPhase(subs, drive, blocks)
         == (SetupWrites(blocks) + SubmitPhase(subs[..|subs| - 1], drive, blocks))
            + SubmissionAccesses(subs[|subs| - 1], drive, blocks, |subs| - 1)
  {
  }

  /** The submit phase, after the setup writes, has its commands in order. */
  lemma {:induction false} SubmitPhaseInOrder(subs: seq<Submission>, drive: int, blocks: int)
    requires forall k :: 0 <= k < |subs| ==> WaitedForRoom(subs[k], drive)
    ensures CommandsInOrder(SetupWrites(blocks) + SubmitPhase(subs, drive, blocks), drive, blocks)
    ensures Commands(SetupWrites(blocks) + SubmitPhase(subs, drive, blocks)) == |subs|
  {
    var setup := SetupWrites(blocks);
    if subs == [] {
      SetupInOrder(drive, blocks);
      assert setup + SubmitPhase(subs, drive, blocks) == setup;
    } else {
      var last := |subs| - 1;
      var before := SubmitPhase(subs[..last], drive, blocks);
      var acc := SubmissionAccesses(subs[last], drive, blocks, last);
      SubmitPhaseInOrder(subs[..last], drive, blocks);
      AppendSubmission(setup + before, subs[last], drive, blocks, last);
      PhaseStep(subs, drive, blocks);
      SubmissionCounts(subs[last], drive, blocks, last);
      CountsAppend(setup + before, acc);
    }
  }

  /** Appending reads keeps the commands in order and adds none. */
  lemma AppendReads(t: seq<Access>, r: seq<Access>, drive: int, blocks: int)
    requires CommandsInOrder(t, drive, blocks)
    requires forall i :: 0 <= i < |r| ==> r[i].NvmeRead?
    ensures CommandsInOrder(t + r, drive, blocks)
    ensures Commands(t + r) == Commands(t)
  {
    forall i | 0 <= i < |t + r| && IsCommand((t + r)[i])
      ensures SubmittedAt(t + r, i, drive, blocks)
    {
      if i < |t| {
        SubmittedAtExtends(t, r, i, drive, blocks);
      }
    }
    ReadsHoldNoCommand(r);
    CountsAppend(t, r);
  }

  /** Polling a register records exactly the values it returned. */
  lemma {:induction false} PollsReadValues(offset: u32, values: seq<u32>)
    ensures ReadValues(Polls(offset, values)) == values
  {
    if values != [] {
      var last := |values| - 1;
      assert Polls(offset, values) == Polls(offset, values[..last]) + [NvmeRead(offset, values[last])];
      assert Polls(offset, values)[..last] == Polls(offset, values[..last]);
      PollsReadValues(offset, values[..last]);
      assert values == values[..last] + [values[last]];
    }
  }

  /** A pass of the submit loop reads its busy status values, its status value and its track value. */
  lemma SubmissionReadValues(s: Submission, drive: int, blocks: int, k: nat)
    ensures ReadValues(SubmissionAccesses(s, drive, blocks, k)) == s.busy + [s.status, s.track]
  {
    var p := Polls(StatusReg, s.busy);
    var r := [NvmeRead(StatusReg, s.status), NvmeRead(TrackReg, s.track)];
    var w := SubmitWrites(drive, blocks, k);
    PollsReadValues(StatusReg, s.busy);
    ReadValuesSingle(r[0]);
    ReadValuesSingle(r[1]);
    ReadValuesAppend([r[0]], [r[1]]);
    assert [r[0]] + [r[1]] == r;
    NoReads(w);
    ReadValuesAppend(p, r);
    ReadValuesAppend(p + r, w);
  }

  /** The setup writes read nothing. */
  lemma SetupReadValues(blocks: int)
    ensures ReadValues(SetupWrites(blocks)) == []
  {
    NoReads(SetupWrites(blocks));
  }

  /** Three writes read nothing. */
  lemma NoReads(w: seq<Access>)
    requires |w| == 3 && w[0].NvmeWrite? && w[1].NvmeWrite? && w[2].NvmeWrite?
    ensures ReadValues(w) == []
  {
    ReadValuesSingle(w[0]);
    ReadValuesSingle(w[1]);
    ReadValuesSingle(w[2]);
    ReadValuesAppend([w[0]], [w[1]]);
    ReadValuesAppend([w[0]] + [w[1]], [w[2]]);
    assert [w[0]] + [w[1]] + [w[2]] == w;
  }

  lemma PollsAppend(offset: u32, values: seq<u32>, v: u32)
    ensures Polls(offset, values + [v]) == Polls(offset, values) + [NvmeRead(offset, v)]
  {
  }

  /** One more pass of the submit loop: its accesses follow, and `qin` moves by one less its completion. */
  lemma SubmitStep(subs: seq<Submission>, s: Submission, drive: int, blocks: int)
    ensures SubmitPhase(subs + [s], drive, blocks)
         == SubmitPhase(subs, drive, blocks) + SubmissionAccesses(s, drive, blocks, |subs|)
    ensures InFlight(subs + [s], drive, blocks)
         == InFlight(subs, drive, blocks) + 1 - (if s.track > 0 then 1 else 0)
    ensures ReadValues(SubmitPhase(subs + [s], drive, blocks))
         == ReadValues(SubmitPhase(subs, drive, blocks)) + (s.busy + [s.status, s.track])
  {
    assert (subs + [s])[..|subs|] == subs;
    SubmissionCounts(s, drive, blocks, |subs|);
    CountsAppend(SubmitPhase(subs, drive, blocks), SubmissionAccesses(s, drive, blocks, |subs|));
    SubmissionReadValues(s, drive, blocks, |subs|);
    ReadValuesAppend(SubmitPhase(subs, drive, blocks), SubmissionAccesses(s, drive, blocks, |subs|));
  }

  /**
   * After the passes `subs`, starting from the trace `start` and the
   * replies `total`: the trace is extended by exactly those passes, they
   * consumed the replies before `left`, and each waited for room.
   */
  ghost predicate Passed(subs: seq<Submission>, drive: int, blocks: int,
                         start: seq<Access>, trace: seq<Access>, total: seq<u32>, left: seq<u32>)
  {
    && trace == start + SubmitPhase(subs, drive, blocks)
    && total == ReadValues(SubmitPhase(subs, drive, blocks)) + left
    && forall k :: 0 <= k < |subs| ==> WaitedForRoom(subs[k], drive)
  }

  /**
   * One more pass extends the run of passes: the trace, the replies it
   * consumed, the waits for room and the count of commands in flight all
   * follow the longer run.
   */
  lemma PassStep(subs: seq<Submission>, s: Submission, drive: int, blocks: int,
                 start: seq<Access>, mid: seq<Access>, trace: seq<Access>,
                 total: seq<u32>, before: seq<u32>, after: seq<u32>)
    requires Passed(subs, drive, blocks, start, mid, total, before)
    requires trace == mid + SubmissionAccesses(s, drive, blocks, |subs|)
    requires before == s.busy + [s.status, s.track] + after
    requires WaitedForRoom(s, drive)
    ensures Passed(subs + [s], drive, blocks, start, trace, total, after)
    ensures InFlight(subs + [s], drive, blocks)
         == InFlight(subs, drive, blocks) + 1 - (if s.track > 0 then 1 else 0)
  {
    SubmitStep(subs, s, drive, blocks);
    assert forall k :: 0 <= k < |subs| ==> (subs + [s])[k] == subs[k];
  }

  /**
   * A whole run: the setup writes, the submit passes and trailing reads.
   * Its commands are in order, there is one per pass, and its completions
   * are those of the passes and those of the trailing reads.
   */
  lemma RunCounts(subs: seq<Submission>, rest: seq<Access>, drive: int, blocks: int)
    requires forall k :: 0 <= k < |subs| ==> WaitedForRoom(subs[k], drive)
    requires forall i :: 0 <= i < |rest| ==> rest[i].NvmeRead?
    ensures CommandsInOrder(SetupWrites(blocks) + SubmitPhase(subs, drive, blocks) + rest, drive, blocks)
    ensures Commands(SetupWrites(blocks) + SubmitPhase(subs, drive, blocks) + rest) == |subs|
    ensures Completions(SetupWrites(blocks) + SubmitPhase(subs, drive, blocks) + rest)
         == Completions(SubmitPhase(subs, drive, blocks)) + Completions(rest)
  {
    var setup := SetupWrites(blocks);
    var phase := SubmitPhase(subs, drive, blocks);
    SubmitPhaseInOrder(subs, drive, blocks);
    AppendReads(setup + phase, rest, drive, blocks);
    SetupCounts(blocks);
    CountsAppend(setup, phase);
    CountsAppend(setup + phase, rest);
  }

  /** The reads of a run are those of the passes, then those of the trailing reads. */
  lemma RunReadValues(subs: seq<Submission>, rest: seq<Access>, drive: int, blocks: int)
    ensures ReadValues(SetupWrites(blocks) + SubmitPhase(subs, drive, blocks) + rest)
         == ReadValues(SubmitPhase(subs, drive, blocks)) + ReadValues(rest)
  {
    var setup, phase := SetupWrites(blocks), SubmitPhase(subs, drive, blocks);
    SetupReadValues(blocks);
    ReadValuesAppend(setup, phase);
    ReadValuesAppend(setup + phase, rest);
  }

  /** The setup writes consume no replies, so they leave the replies of a run unchanged. */
  lemma RunReplies(subs: seq<Submission>, rest: seq<Access>, drive: int, blocks: int,
                   total: seq<u32>, left: seq<u32>)
    requires total == ReadValues(SubmitPhase(subs, drive, blocks) + rest) + left
    ensures total == ReadValues(SetupWrites(blocks) + SubmitPhase(subs, drive, blocks) + rest) + left
  {
    RunReadValues(subs, rest, drive, blocks);
    ReadValuesAppend(SubmitPhase(subs, drive, blocks), rest);
  }

  /** The replies the passes consumed, then those the trailing reads consumed. */
  lemma DrainReplies(subs: seq<Submission>, rest: seq<Access>, drive: int, blocks: int,
                     total: seq<u32>, mid: seq<u32>, left: seq<u32>)
    requires total == ReadValues(SubmitPhase(subs, drive, blocks)) + mid
    requires mid == ReadValues(rest) + left
    ensures total == ReadValues(SubmitPhase(subs, drive, blocks) + rest) + left
  {
    ReadValuesAppend(SubmitPhase(subs, drive, blocks), rest);
    assert total == ReadValues(SubmitPhase(subs, drive, blocks)) + ReadValues(rest) + left;
  }

  /**
   * TRACK_REG reads that end on a completion, or are none at all, and
   * report no completion are none at all: with qin = 0 the drain reads
   * nothing.
   */
  lemma NothingInFlightNoRead(values: seq<u32>)
    requires values == [] || values[|values| - 1] > 0
    ensures Completions(Polls(TrackReg, values)) == 0 ==> values == []
  {
    if values != [] {
      var t := Polls(TrackReg, values);
      assert IsCompletion(t[|t| - 1]);
    }
  }

  // ---------------------------------------------------------------------
  // The loops of nvme_read_test

  /**
   * The `while (1)` loop that polls STATUS_REG until the drive's IO queue
   * is not full.  On success `status` is the value that found room; the
   * values before it all found the queue full.
   */
  method WaitForRoom(card: Card, drive: int) returns (status: Option<u32>, ghost busy: seq<u32>)
    modifies card
    ensures forall i :: 0 <= i < |busy| ==> QueueFull(busy[i], drive)
    ensures status.Some? ==> !QueueFull(status.value, drive)
                             && card.trace == old(card.trace) + Polls(StatusReg, busy + [status.value])
                             && old(card.replies) == busy + [status.value] + card.replies
    ensures status.None? ==> card.trace == old(card.trace) + Polls(StatusReg, busy)
                             && old(card.replies) == busy && card.replies == []
  {
    busy := [];
    while true
      invariant forall i :: 0 <= i < |busy| ==> QueueFull(busy[i], drive)
      invariant card.trace == old(card.trace) + Polls(StatusReg, busy)
      invariant old(card.replies) == busy + card.replies
      decreases |card.replies|
    {
      var r := card.ReadNvme(StatusReg);
      if r.None? {
        return None, busy;
      }
      PollsAppend(StatusReg, busy, r.value);
      if !QueueFull(r.value, drive) {
        return r, busy;
      }
      busy := busy + [r.value];
    }
  }

  /**
   * One pass of the submit loop: wait for room, read TRACK_REG, then
   * write DPTR_LOW, LBA_LOW and the command.  `completed` says whether
   * the track read reported a completion; None means the replies ran out
   * (and then only the status reads of StalledPoll were made).
   */
  method SubmitOne(card: Card, drive: int, blocks: int, k: nat, dptrLow: u32, lbaLow: u32)
      returns (completed: Option<bool>, ghost s: Submission, ghost part: seq<Access>)
    requires dptrLow == DptrAt(blocks, k) && lbaLow == LbaAt(blocks, k)
    modifies card
    ensures completed.Some? ==> WaitedForRoom(s, drive) && completed.value == (s.track > 0)
                                && card.trace == old(card.trace) + SubmissionAccesses(s, drive, blocks, k)
                                && old(card.replies) == s.busy + [s.status, s.track] + card.replies
    ensures completed.None? ==> card.replies == []
                                && card.trace == old(card.trace) + part
                                && (forall i :: 0 <= i < |part| ==> part[i].NvmeRead?)
                                && old(card.replies) == ReadValues(part)
                                && StalledPoll(part, drive)
  {
    var status, busy := WaitForRoom(card, drive);
    if status.None? {
      PollsReadValues(StatusReg, busy);
      return None, Submission(busy, 0, 0), Polls(StatusReg, busy);
    }
    var track := card.ReadNvme(TrackReg);
    if track.None? {
      PollsReadValues(StatusReg, busy + [status.value]);
      return None, Submission(busy, status.value, 0), Polls(StatusReg, busy + [status.value]);
    }
    s := Submission(busy, status.value, track.value);
    part := [];
    assert Polls(StatusReg, busy + [status.value]) + [NvmeRead(TrackReg, track.value)]
        == Polls(StatusReg, busy) + [NvmeRead(StatusReg, status.value), NvmeRead(TrackReg, track.value)];
    card.WriteNvme(DptrLow, dptrLow);
    card.WriteNvme(LbaLow, lbaLow);
    card.WriteNvme(CommandReg, CommandWord(drive));
    completed := Some(track.value > 0);
  }

  /**
   * The drain loop `while (qin)`: polls TRACK_REG, counting each positive
   * value as one completion, until qin completions have been seen.  It
   * stops exactly then; when the replies run out first it reports false.
   */
  method Drain(card: Card, qin: int) returns (done: bool, ghost values: seq<u32>)
    requires qin >= 0
    modifies card
    ensures card.trace == old(card.trace) + Polls(TrackReg, values)
    ensures old(card.replies) == values + card.replies
    ensures done ==> Completions(Polls(TrackReg, values)) == qin
    ensures done ==> values == [] || values[|values| - 1] > 0
    ensures !done ==> Completions(Polls(TrackReg, values)) < qin && card.replies == []
  {
    var left := qin;
    values := [];
    while left != 0
      invariant 0 <= left <= qin
      invariant card.trace == old(card.trace) + Polls(TrackReg, values)
      invariant old(card.replies) == values + card.replies
      invariant Completions(Polls(TrackReg, values)) == qin - left
      invariant left == 0 ==> values == [] || values[|values| - 1] > 0
      decreases |card.replies|
    {
      var r := card.ReadNvme(TrackReg);
      if r.None? {
        return false, values;
      }
      PollsAppend(TrackReg, values, r.value);
      CountsAppend(Polls(TrackReg, values), [NvmeRead(TrackReg, r.value)]);
      CountsSingle(NvmeRead(TrackReg, r.value));
      values := values + [r.value];
      assert values[|values| - 1] == r.value;
      if r.value > 0 {
        left := left - 1;
      }
    }
    done := true;
  }

  /**
   * The `for` loop of `nvme_read_test`: nmax passes of the submit loop,
   * the k-th with LBA_LOW and DPTR_LOW advanced k times.  Afterwards `qin`
   * is the number of commands not yet seen to complete.  `stalled` means
   * the replies ran out during a pass, which then made only the status
   * reads of StalledPoll.
   */
  method SubmitAll(card: Card, drive: int, blocks: int, nmax: int)
      returns (qin: int, stalled: bool, ghost subs: seq<Submission>, ghost part: seq<Access>)
    requires -0x8000_0000 <= BlockSize * blocks < 0x8000_0000
    modifies card
    ensures card.trace == old(card.trace) + SubmitPhase(subs, drive, blocks) + part
    ensures forall k :: 0 <= k < |subs| ==> WaitedForRoom(subs[k], drive)
    ensures forall i :: 0 <= i < |part| ==> part[i].NvmeRead?
    ensures |subs| <= SubmissionCount(nmax)
    ensures !stalled ==> |subs| == SubmissionCount(nmax) && part == []
                         && qin == InFlight(subs, drive, blocks) && 0 <= qin <= |subs|
    ensures stalled ==> card.replies == [] && |subs| < SubmissionCount(nmax) && StalledPoll(part, drive)
    ensures old(card.replies) == ReadValues(SubmitPhase(subs, drive, blocks) + part) + card.replies
    ensures !stalled ==> card.trace == old(card.trace) + SubmitPhase(subs, drive, blocks)
                         && old(card.replies) == ReadValues(SubmitPhase(subs, drive, blocks)) + card.replies
  {
    qin := 0;
    var lbaLow: u32 := 0;
    var dptrLow: u32 := 0;
    var n := 0;
    subs := [];
    part := [];
    while n < nmax
      invariant n == |subs| <= SubmissionCount(nmax)
      invariant Passed(subs, drive, blocks, old(card.trace), card.trace, old(card.replies), card.replies)
      invariant qin == InFlight(subs, drive, blocks)
      invariant lbaLow == LbaAt(blocks, n) && dptrLow == DptrAt(blocks, n)
    {
      ghost var before := card.replies;
      ghost var mid := card.trace;
      var completed, s, seen := SubmitOne(card, drive, blocks, n, dptrLow, lbaLow);
      if completed.None? {
        ReadValuesAppend(SubmitPhase(subs, drive, blocks), seen);
        assert n < nmax;
        return qin, true, subs, seen;
      }
      if completed.value {
        qin := qin - 1;
      }
      qin := qin + 1;
      PassStep(subs, s, drive, blocks, old(card.trace), mid, card.trace, old(card.replies), before, card.replies);
      subs := subs + [s];
      OffsetsAdvance(blocks, n);
      lbaLow := Wrap32(lbaLow + blocks);
      dptrLow := Wrap32(dptrLow + BlockSize * blocks);
      n := n + 1;
    }
    SubmitPhaseCounts(subs, drive, blocks);
    stalled := false;
    assert SubmitPhase(subs, drive, blocks) + part == SubmitPhase(subs, drive, blocks);
  }

  /** The three writes made once before the first command: DPTR_HIGH, LBA_HIGH, LBA_NUM. */
  method WriteSetup(card: Card, blocks: int)
    modifies card
    ensures card.trace == old(card.trace) + SetupWrites(blocks)
    ensures card.replies == old(card.replies)
  {
    card.WriteNvme(DptrHigh, DptrHighValue);
    card.WriteNvme(LbaHigh, 0);
    card.WriteNvme(LbaNum, Wrap32(blocks));
  }

  /**
   * `nvme_read_test`: the setup writes, nmax submit passes, then the drain.
   * A run that returns submitted nmax commands (none when nmax <= 0), each
   * after a status read that found room and with its own offsets, and saw
   * exactly as many completions as commands, its drain ending at the read
   * that brought qin to 0 (or making no read when qin was 0 already); it
   * returns 0.  `Stalled` means the replies ran out inside a polling
   * loop: either in the status spin of a pass short of nmax, or in the
   * drain, which then saw fewer completions than were in flight.
   */
  method ReadTest(card: Card, drive: int, blocks: int, nmax: int)
      returns (outcome: Outcome, ghost subs: seq<Submission>, ghost rest: seq<Access>)
    requires -0x8000_0000 <= BlockSize * blocks < 0x8000_0000
    modifies card
    ensures card.trace == old(card.trace) + SetupWrites(blocks) + SubmitPhase(subs, drive, blocks) + rest
    ensures forall k :: 0 <= k < |subs| ==> WaitedForRoom(subs[k], drive)
    ensures forall i :: 0 <= i < |rest| ==> rest[i].NvmeRead?
    ensures |subs| <= SubmissionCount(nmax)
    ensures CommandsInOrder(SetupWrites(blocks) + SubmitPhase(subs, drive, blocks) + rest, drive, blocks)
    ensures Commands(SetupWrites(blocks) + SubmitPhase(subs, drive, blocks) + rest) == |subs|
    ensures outcome.Returned? ==>
              outcome.rc == 0 && |subs| == SubmissionCount(nmax)
              && (forall i :: 0 <= i < |rest| ==> rest[i].offset == TrackReg)
              && (rest == [] || rest[|rest| - 1].value > 0)
              && Completions(SetupWrites(blocks) + SubmitPhase(subs, drive, blocks) + rest) == |subs|
    ensures outcome.Stalled? ==>
              card.replies == []
              && (|| (|subs| < SubmissionCount(nmax) && StalledPoll(rest, drive))
                  || (&& |subs| == SubmissionCount(nmax)
                      && (forall i :: 0 <= i < |rest| ==> rest[i].offset == TrackReg)
                      && Completions(rest) < InFlight(subs, drive, blocks)))
    ensures old(card.replies)
         == ReadValues(SetupWrites(blocks) + SubmitPhase(subs, drive, blocks) + rest) + card.replies
  {
    WriteSetup(card, blocks);
    var qin, stalled; ghost var part;
    qin, stalled, subs, part := SubmitAll(card, drive, blocks, nmax);
    if stalled {
      rest := part;
      outcome := Stalled;
    } else {
      ghost var mid := card.replies;
      var done, values := Drain(card, qin);
      rest := Polls(TrackReg, values);
      PollsReadValues(TrackReg, values);
      DrainReplies(subs, rest, drive, blocks, old(card.replies), mid, card.replies);
      outcome := if done then Returned(0) else Stalled;
    }
    RunCounts(subs, rest, drive, blocks);
    RunReplies(subs, rest, drive, blocks, old(card.replies), card.replies);
  }
}
