# snap_example_qnvme — a verified model of the NVMe test tool's core

`snap_example_qnvme` is a diagnostic tool for an FPGA card that carries an
NVMe storage path. It does the following:

- fills a host buffer with a test pattern;
- programs the card's copy action to move the buffer into card memory;
- drives the card's raw NVMe command-queue registers to submit a batch of read commands and waits until they complete;
- copies the data back and compares the two host buffers.

This project models the sequential logic of that tool in Dafny and proves
what each piece does:

| module | file | models |
|---|---|---|
| `Words` | words.dfy | `uint32_t`/`uint64_t` values and their wrap-around, and the 32-bit halves of a 64-bit word |
| `Pattern` | pattern.dfy | `memset_ad`, the test-pattern fill |
| `Compare` | compare.dfy | `memcmp2`, the buffer comparison, as written and corrected |
| `Mmio` | mmio.dfy | the card handle: `action_write`, `nvme_mmio_write` and `nvme_mmio_read` as a class whose methods record every register access in a trace and take read values from a finite reply sequence |
| `Copy` | copy.dfy | `action_memcpy`, the six-write transfer descriptor |
| `NvmeQueue` | nvme_queue.dfy | `nvme_read_test`, the bounded-queue submitter and drainer, with its register constants |
| `Options` | options.dfy | the option handling of `main`, on already parsed integers, and the sizes and addresses derived from it |

Notes on the model:

- **Hardware reads.** The values the hardware returns are an oracle: the `replies` of a `Card`. Once the replies run out, a polling loop ends with the outcome `Stalled`. The C code would spin for ever at that point.
- **Loops as methods.** `nvme_read_test` is written in C as one function with three loops. The model gives each loop a method of its own:
  - `WaitForRoom` is the status spin;
  - `SubmitOne` is one pass of the `for` body;
  - `SubmitAll` is the `for` loop;
  - `Drain` is the final `while`.

  `ReadTest` composes them.
- **What `ReadTest` proves.** Its contract describes the access trace of every run, whether it returns or stalls:
  - it is made of the setup writes, then one `Submission` per completed pass, then trailing reads;
  - every command write is in order, as the predicate `CommandsInOrder` defines;
  - a run that returns has made `nmax` commands and seen exactly as many completions, and its last read is the one that brought `qin` to 0;
  - a run that stalls does so at one of two places only. Either it stalled inside a pass: fewer than `nmax` passes completed, and the trailing reads are STATUS_REG reads, every one but the last finding the queue full (the predicate `StalledPoll`). Or all `nmax` passes completed: the trailing reads are TRACK_REG reads that report fewer completions than `qin` after the passes.
- **What the exit status reports.** `main` returns the result of `memcmp2` as its exit status (lines 531 and 541). `memcmp2` itself treats a non-zero result as the mismatch case (lines 150-151). Its code, however, sets the result to 0 after a full scan (line 147), so 1 to 10 differing words give 0 and the program exits with success. The model follows the code; the corrected comparison is listed under Findings.

## Model

| member | source | states |
|---|---|---|
| Words.WordCount | actions/hdl_example/sw/snap_example_qnvme.c:109 | the loop `for (i = 0; i < size; i += 8)` visits ceil(size/8) words: 8·n ≥ size and 8·(n−1) < size, and none when size ≤ 0 |
| Words.WrapAdd | actions/hdl_example/sw/snap_example_qnvme.c:318-319 | adding to a `uint32_t` and storing it again is addition modulo 2^32, wherever the wrap happens |
| Pattern.PatternHalves | actions/hdl_example/sw/snap_example_qnvme.c:110 | the word `(p & 0xffffffff) \| (~p << 32)` has the low half of p as its low half and the complement of that as its high half; the halves XOR to 0xffffffff |
| Pattern.PatternMasks | actions/hdl_example/sw/snap_example_qnvme.c:110 | as 64-bit masks, the word `(p & 0xffffffff) \| (~p << 32)` has the low 32 bits of p below and the low 32 bits of ~p above |
| Pattern.PatternLowStep | actions/hdl_example/sw/snap_example_qnvme.c:111 | after `pattern += 8` the next word's low half is the previous one's plus 8, modulo 2^32 |
| Pattern.PatternAtLowBits | actions/hdl_example/sw/snap_example_qnvme.c:111 | `pattern += 8` never changes the pattern's low three bits, so every word keeps the alignment of the starting pattern |
| Pattern.Fill | actions/hdl_example/sw/snap_example_qnvme.c:105-114 | exactly the first ceil(size/8) words are written; word k is the pattern word of pattern + 8k (in `uint64_t` arithmetic); each word's halves XOR to all ones; the rest of the buffer is untouched |
| Pattern.FilledHalves | actions/hdl_example/sw/snap_example_qnvme.c:110 | every word of a filled prefix has halves that XOR to all ones |
| Compare.Mismatches | actions/hdl_example/sw/snap_example_qnvme.c:132-145 | the count of differing words is at most the number compared, and it is zero exactly when the words agree |
| Compare.AsWrittenResult | actions/hdl_example/sw/snap_example_qnvme.c:147 | as written, the result is 0 or 11, it is non-zero exactly when more than 10 words differ, and 1 to 10 differing words give 0 |
| Compare.CompareBuffers | actions/hdl_example/sw/snap_example_qnvme.c:119-153 | as written: the result is 11 when more than 10 words differ and 0 otherwise, so it is 0 for equal buffers; the scan stops at the 11th mismatching word; neither buffer changes |
| Compare.CompareBuffersCounted | actions/hdl_example/sw/snap_example_qnvme.c:132-152 | corrected: the result is the number of differing words capped at 11, and it is 0 exactly when the buffers agree |
| Compare.OneMismatchGoesUnreported | actions/hdl_example/sw/snap_example_qnvme.c:147 | two 64-byte buffers differing only in the word at byte offset 32 have one mismatch, yet the result as written is 0 |
| Mmio.Card.constructor | actions/hdl_example/sw/snap_example_qnvme.c:156-188 | a fresh handle has recorded no access and will answer reads with the given replies |
| Mmio.Card.WriteAction | actions/hdl_example/sw/snap_example_qnvme.c:156-165 | one action register write is appended to the trace; the replies are untouched |
| Mmio.Card.WriteNvme | actions/hdl_example/sw/snap_example_qnvme.c:167-176 | one NVMe register write is appended to the trace; the replies are untouched |
| Mmio.Card.ReadNvme | actions/hdl_example/sw/snap_example_qnvme.c:178-188 | a read returns the next reply, consumes it and records it; with no reply left it fails and changes nothing |
| Mmio.ReadValuesAppend | actions/hdl_example/sw/snap_example_qnvme.c:178-188 | the values read by two consecutive stretches of accesses are those of the first followed by those of the second |
| Copy.Halves | actions/hdl_example/sw/snap_example_qnvme.c:222-225 | the low and high 32-bit halves of a 64-bit address put back together give the address |
| Copy.DescriptorWrites | actions/hdl_example/sw/snap_example_qnvme.c:215-230 | exactly six action writes in the order CONFIG, DEST_LOW, DEST_HIGH, SRC_LOW, SRC_HIGH, CNT; DEST_LOW + DEST_HIGH·2^32 = dest and SRC_LOW + SRC_HIGH·2^32 = src; CNT is n modulo 2^32 |
| Copy.Memcpy | actions/hdl_example/sw/snap_example_qnvme.c:215-230 | the handle's trace grows by exactly the descriptor writes and no read is consumed |
| NvmeQueue.CommandWord | actions/hdl_example/sw/snap_example_qnvme.c:287-296 | the command word is 0xef10 for drive 0 and 0xef30 for drive 1 (any drive other than 1 is drive 0); it has the read command type and action id 0xef |
| NvmeQueue.QueueFull | actions/hdl_example/sw/snap_example_qnvme.c:305 | drive 1's IO queue is full exactly when bit 3 (0x08) of the status is set; for any other drive, when bit 1 (0x02) is set |
| NvmeQueue.SetupWrites | actions/hdl_example/sw/snap_example_qnvme.c:298-300 | three writes, none to COMMAND_REG: DPTR_HIGH = 2, LBA_HIGH = 0, then LBA_NUM = blocks modulo 2^32 (exactly blocks when it fits) |
| NvmeQueue.SubmitWritesValues | actions/hdl_example/sw/snap_example_qnvme.c:314-316 | the k-th pass writes DPTR_LOW = k·512·blocks and LBA_LOW = k·blocks, both modulo 2^32, then COMMAND_REG = the command word |
| NvmeQueue.OffsetsAdvance | actions/hdl_example/sw/snap_example_qnvme.c:318-319 | `lba_low += blocks` and `dptr_low += 512 * blocks` move from the k-th command's offsets, k·blocks and k·512·blocks modulo 2^32, to the next one's |
| NvmeQueue.SubmissionCounts | actions/hdl_example/sw/snap_example_qnvme.c:303-317 | one pass of the submit loop writes COMMAND_REG once and reports a completion exactly when its TRACK_REG read is positive |
| NvmeQueue.SubmitPhaseCounts | actions/hdl_example/sw/snap_example_qnvme.c:302-320 | k passes write COMMAND_REG k times and report at most k completions |
| NvmeQueue.InFlightBounds | actions/hdl_example/sw/snap_example_qnvme.c:301-320 | after each pass `qin` lies in [0, passes] and it never decreases from one pass to the next |
| NvmeQueue.SubmitStep | actions/hdl_example/sw/snap_example_qnvme.c:309-317 | one more pass adds its accesses at the end, moves `qin` by one, less one if its track read reported a completion, and adds its status and track values to the values read |
| NvmeQueue.OnlyLastIsCommand | actions/hdl_example/sw/snap_example_qnvme.c:303-316 | within one pass, no access but the last is a COMMAND_REG write |
| NvmeQueue.AppendSubmission | actions/hdl_example/sw/snap_example_qnvme.c:303-316 | a pass appended after k commands keeps every command in order: its command follows a STATUS_REG read with the drive's IO-full bit clear, a TRACK_REG read, DPTR_LOW = k·512·blocks and LBA_LOW = k·blocks |
| NvmeQueue.SetupCounts | actions/hdl_example/sw/snap_example_qnvme.c:298-300 | the three setup writes make no command and report no completion |
| NvmeQueue.SetupInOrder | actions/hdl_example/sw/snap_example_qnvme.c:298-300 | the setup writes hold no command, so the (empty) sequence of commands is in order |
| NvmeQueue.PhaseStep | actions/hdl_example/sw/snap_example_qnvme.c:302-320 | the run up to a pass is the run up to the pass before followed by that pass's accesses |
| NvmeQueue.SubmitPhaseInOrder | actions/hdl_example/sw/snap_example_qnvme.c:298-320 | after the setup writes, the submit loop's commands are all in order and there is one per pass |
| NvmeQueue.AppendReads | actions/hdl_example/sw/snap_example_qnvme.c:322-327 | reads after the submit loop keep the commands in order and add none |
| NvmeQueue.RunCounts | actions/hdl_example/sw/snap_example_qnvme.c:298-327 | a whole run has its commands in order, one per pass, and its completions are those of the passes plus those of the trailing reads |
| NvmeQueue.PollsReadValues | actions/hdl_example/sw/snap_example_qnvme.c:303-308 | polling a register records, as read values, exactly the values it returned, in order |
| NvmeQueue.SubmissionReadValues | actions/hdl_example/sw/snap_example_qnvme.c:303-316 | one pass reads exactly its busy status values, the status value that found room, then the track value |
| NvmeQueue.SetupReadValues | actions/hdl_example/sw/snap_example_qnvme.c:298-300 | the setup writes read nothing |
| NvmeQueue.RunReadValues | actions/hdl_example/sw/snap_example_qnvme.c:298-327 | a whole run reads the values of its passes, then those of its trailing reads |
| NvmeQueue.PassStep | actions/hdl_example/sw/snap_example_qnvme.c:301-320 | one more pass extends the trace by its accesses, the values read by its status and track values, keeps every pass's wait for room, and moves `qin` by one less its completion |
| NvmeQueue.RunReplies | actions/hdl_example/sw/snap_example_qnvme.c:298-327 | the setup writes consume no replies: the replies of passes and trailing reads are those of the whole run |
| NvmeQueue.WaitForRoom | actions/hdl_example/sw/snap_example_qnvme.c:303-308 | STATUS_REG is polled until a value has the drive's IO-full bit clear; every earlier value had it set; the replies are consumed in order |
| NvmeQueue.SubmitOne | actions/hdl_example/sw/snap_example_qnvme.c:303-316 | one pass waits for room, reads TRACK_REG, then writes DPTR_LOW, LBA_LOW and the command word; it reports whether the track value was positive; if the replies run out, it has made only STATUS_REG reads, every one but the last finding the queue full, and their values are exactly the replies it consumed |
| NvmeQueue.Drain | actions/hdl_example/sw/snap_example_qnvme.c:322-327 | TRACK_REG is polled until `qin` positive values have been seen, and the loop stops at exactly that read; with `qin` = 0 it makes no read at all, as `while (qin)` does |
| NvmeQueue.NothingInFlightNoRead | actions/hdl_example/sw/snap_example_qnvme.c:322-327 | a drain that ends on a completion read and reports no completion made no read at all, so with `qin` = 0 `while (qin)` reads nothing |
| NvmeQueue.WriteSetup | actions/hdl_example/sw/snap_example_qnvme.c:298-300 | the trace grows by exactly DPTR_HIGH = 2, LBA_HIGH = 0 and LBA_NUM = blocks, and no reply is consumed |
| NvmeQueue.SubmitAll | actions/hdl_example/sw/snap_example_qnvme.c:301-320 | nmax passes (none when nmax ≤ 0), the k-th at offsets advanced k times; afterwards `qin` is the number of commands not yet seen to complete, in [0, nmax]; the replies consumed are exactly the values the trace records as read, in order; a stalled loop has made fewer than nmax passes, and its unfinished pass only polled STATUS_REG, finding the queue full on every read but the last |
| NvmeQueue.ReadTest | actions/hdl_example/sw/snap_example_qnvme.c:282-329 | the trace is DPTR_HIGH=2, LBA_HIGH=0, LBA_NUM=blocks, then the submit passes, then reads; the command writes are in order; the replies consumed are exactly the values the trace records as read, in order; a run that returns has exactly nmax command writes, returns 0, saw as many completions as commands, and its drain stopped at the read that brought `qin` to 0 (no trailing read at all when `qin` was already 0); a run that stalls either completed fewer than nmax passes and then only polled STATUS_REG, finding the queue full on every read but the last, or completed all nmax passes and then read only TRACK_REG, seeing fewer completions than were in flight |
| Options.ExitStatus | actions/hdl_example/sw/snap_example_qnvme.c:398-446 | the program exits with status 0 exactly for `-h` and `-V`, and with status 1 otherwise (InvalidOptionFails, RejectedCommandLines and ConfigureExactly apply it to rejected command lines) |
| Options.Step | actions/hdl_example/sw/snap_example_qnvme.c:394-447 | `-d` goes on if and only if the drive is 0 or 1, `-b` if and only if the stored blocks lie in [1, 65536], `-o` if and only if the stored offset is 512-aligned and ≤ 4 GiB, each storing only its own field (drive as given, blocks modulo 2^32, offset modulo 2^64) and otherwise failing with the matching error; `-C`, `-t`, `-v`, `-i` change only their own field; `-h` shows help, `-V` the version, `-q` and unknown options fail; the option conditions are kept |
| Options.Loop | actions/hdl_example/sw/snap_example_qnvme.c:374-448 | the option loop keeps those conditions over any sequence of options |
| Options.Finish | actions/hdl_example/sw/snap_example_qnvme.c:450-458 | after the loop, settings that meet the option conditions go on, unchanged, if and only if they are valid; otherwise offset + size past the drive fails first, then a card number above 3 |
| Options.Configure | actions/hdl_example/sw/snap_example_qnvme.c:374-458 | every configuration `main` goes on with has drive ∈ {0,1}, 1 ≤ blocks ≤ 65536, offset aligned to 512, offset + blocks·512 ≤ 4 GiB and card number ≤ 3 |
| Options.ConfigureExactly | actions/hdl_example/sw/snap_example_qnvme.c:404-458 | for `-C c -d d -b b -o o`, `main` goes on if and only if all those conditions hold for the stored values, and then with those values; otherwise it fails with exit status 1 |
| Options.FirstStopWins | actions/hdl_example/sw/snap_example_qnvme.c:398-446 | once an option makes the program exit, the options after it change nothing |
| Options.LoopAppend | actions/hdl_example/sw/snap_example_qnvme.c:374-448 | when the first options are all accepted, the later ones continue from the settings they left |
| Options.StoppingOptionDecides | actions/hdl_example/sw/snap_example_qnvme.c:398-446 | an option that ends the program, after accepted options, decides the verdict whatever follows it |
| Options.InvalidOptionFails | actions/hdl_example/sw/snap_example_qnvme.c:410-446 | a bad drive, a stored block count of 0 or above 65536, an unaligned or too large stored offset, `-q` or an unknown option, after accepted options, makes the program fail with exit status 1 and the matching error (BadDrive, BlocksZero, TooManyBlocks, OffsetUnaligned, OffsetTooLarge, BadOption) |
| Options.HelpAndVersionSucceed | actions/hdl_example/sw/snap_example_qnvme.c:398-403 | `-h` or `-V` after accepted options ends the program with exit status 0 |
| Options.RejectedCommandLines | actions/hdl_example/sw/snap_example_qnvme.c:417-440 | `--blocks 0`, `--offset 100` and `--drive 2` each make the program fail with exit status 1 |
| Options.DerivedValues | actions/hdl_example/sw/snap_example_qnvme.c:450-501 | for accepted settings: mem_size = blocks·512 without wrap-around and at most 32 MiB; nvme_lb·512 = offset; nvme_lb + blocks is within the drive's block count (the check at 451); the pattern fill writes 64 words per block; both card-memory ranges end below 64 MiB; 512·blocks fits an `int` |
| Options.MemSize | actions/hdl_example/sw/snap_example_qnvme.c:450 | mem_size is blocks·512 modulo 2^32, and exactly blocks·512 when blocks ≤ 65536 |
| Options.NvmeLb | actions/hdl_example/sw/snap_example_qnvme.c:501 | nvme_lb is the block holding the offset: nvme_lb·512 ≤ offset < (nvme_lb + 1)·512 |
| Options.DdrDest | actions/hdl_example/sw/snap_example_qnvme.c:500 | the destination range [ddr_dest, ddr_dest + mem_size) does not overlap the source range [ddr_src, ddr_src + mem_size) |

## Left out

- The device handle lifecycle is left out: `snap_card_alloc_dev`, `snap_card_ioctl`, `snap_attach_action`, `snap_detach_action`, `card_free`, and the goto-based cleanup in `main`. These are calls into the external driver library.
- Real MMIO is left out. `action_write`, `nvme_mmio_write` and `nvme_mmio_read` record accesses in a trace and take read values from the reply sequence. The driver's error return is only logged by the C code, and the model does not include it.
- The `SNAP_M_NVME_OFFSET` base is left out. The base that the NVMe accessors add is the same for every access, so the trace records offsets within the NVMe window.
- The action register offsets and configuration codes are symbolic: the `ActionReg` names and the `action` parameter. Their values come from `snap_example.h`, which is not part of this model.
- `action_wait_idle`, `get_usec` and `print_time` are left out: wall-clock time, a driver wait with a timeout, and floating-point throughput.
- `get_mem` and `free_mem` are left out. The buffers are Dafny arrays.
- The `VERBOSE*` logging and the `usage` text are left out.
- String parsing of option values (`getopt_long`, `strtol`, `strtoll`) is left out:
  - options arrive as `Opt` values holding integers;
  - `Card`, `Timeout` and `Drive` carry the value after conversion to `int`;
  - `Blocks` and `Offset` carry what `strtoll` returned, and the model reduces it modulo 2^32 and 2^64 as the stores into `uint32_t` and `uint64_t` do.
- Options.ConfigureExactly: as written, the blocks reduction accepts a `-b` value such as 2^32 + 1 as 1 block. The lemma states this for the stored values; it does not claim that such input is rejected.
- The negative-card path is modelled, not left out: the card number is only checked against `> 3`, so a negative card number is accepted, as in the source.
- NvmeQueue.ReadTest: the hardware is a finite reply sequence, not a live device. When the replies run out, the run ends as `Stalled`, where the C loops would spin for ever. The contract says where such a run stopped: in the status spin of an unfinished pass, or in the final drain with commands still in flight. Liveness of the real device is not modelled.
- Pattern.PatternBits and Pattern.PatternAt carry no postconditions of their own: what they compute is stated by the lemmas PatternMasks, PatternHalves, PatternLowStep and PatternAtLowBits, because bit-vector postconditions on the functions themselves are too costly for the solver.
- Words.Low32 and Words.High32 (bit-vectors, for the pattern words) and Copy.Halves (integers, for the descriptor addresses) split a 64-bit word twice; no lemma connects the two definitions, because converting between bit-vectors and integers is too costly for the solver.
- NvmeQueue.LbaAt and NvmeQueue.DptrAt carry no postconditions: their values are stated by OffsetsAdvance and SubmitWritesValues.
- NvmeQueue.QueueFull: the test `ssd_ioq_full & val32` uses a single-bit mask, so it is written as "bit 1 (drive 0) or bit 3 (drive 1) of the status value is set", using division and remainder.
- Copy.Halves: the mask and shift on a `uint64_t` are written as remainder and quotient by 2^32.
- NvmeQueue.ReadTest: `512 * blocks` is a C `int` product, so the method requires it to fit an `int`. `main` only ever calls it with blocks ≤ 65536 (Options.DerivedValues). Loop counters (`int i`, `int n`) are unbounded integers.
- `verbose_level` is recorded as a count; the levels of detail it selects are not modelled.
- Unused constants are not modelled: CMD_TYPE_WRITE, CMD_TYPE_ADMIN, the admin queue ids, the admin queue-full bits, DDR_MEM_BASE_ADDR and HOST_BUFFER_SIZE.
- The order of calls in `main` is not modelled as one method: fill, copy in, read test with nmax = 10, copy out, compare. Each step is modelled on its own, and Options.DerivedValues ties the accepted settings to their arguments.

## Findings

| source | as written | input that shows it | evidently intended | confidence | as-written member | corrected member |
|---|---|---|---|---|---|---|
| actions/hdl_example/sw/snap_example_qnvme.c:147 | after a full scan `rc = 0` discards the mismatch count, so 1 to 10 differing words return 0 | two 64-byte buffers equal except for the word at byte offset 32: one mismatch, result 0 | a non-zero result whenever any word differs, so that `main` exits with failure | not executed; proved on the model | Compare.OneMismatchGoesUnreported | Compare.CompareBuffersCounted |
