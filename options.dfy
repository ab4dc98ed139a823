/**
 * The option handling of `main` in snap_example_qnvme.c, on option values
 * that have already been parsed to integers, and the sizes and addresses
 * `main` derives from the accepted settings.
 *
 * Options are handled one at a time, left to right.  A later option of the
 * same kind overrides an earlier one; the first option that is rejected,
 * or that asks for help or the version, ends the program at once.
 */
module Options {
  import opened Words

  /** NVME_LB_SIZE: bytes in one NVMe logical block. */
  const BlockBytes: int := 512
  /** NVME_DRIVE_SIZE: 4 GiB. */
  const DriveSize: int := 4 * 1024 * 1024 * 1024
  /** NVME_MAX_TRANSFER_SIZE: 32 MiB. */
  const MaxTransfer: int := 32 * 1024 * 1024
  /** `max_blocks`: the most blocks one transfer may move. */
  const MaxBlocks: int := MaxTransfer / BlockBytes
  /** ACTION_WAIT_TIME: the default timeout in seconds. */
  const DefaultTimeout: int := 1
  /** The highest card number accepted. */
  const MaxCard: int := 3

  /**
   * One command-line option, with its argument already converted by
   * `strtol`/`strtoll`.  `Unknown` is anything `getopt_long` does not
   * recognise.
   */
  datatype Opt =
    | Card(n: int)
    | Verbose
    | Help
    | Version
    | Quiet
    | Timeout(sec: int)
    | Drive(d: int)
    | Blocks(b: int)
    | Offset(o: int)
    | Irq
    | Unknown

  /**
   * The variables the options set.  `blocks` is a `uint32_t` and `offset`
   * a `uint64_t`, so what `strtoll` returned is reduced modulo 2^32 and
   * 2^64 when it is stored.
   */
  datatype Settings = Settings(card: int, verbosity: nat, timeout: int, drive: int,
                               blocks: u32, offset: u64, irq: bool)

  datatype Error =
    | BadDrive          // -d other than 0 or 1
    | BlocksZero        // -b that stores 0
    | TooManyBlocks     // -b that stores more than max_blocks
    | OffsetUnaligned   // -o not a multiple of 512
    | OffsetTooLarge    // -o past the drive size
    | BadOption         // -q, or an option getopt does not know: usage, then EXIT_FAILURE
    | PastDriveEnd      // offset + blocks * 512 past the drive size
    | BadCard           // card number above 3

  /**
   * How option handling ends: the run goes on with the settings, or the
   * program exits after printing the usage text, the version, or an error.
   */
  datatype Verdict = Run(settings: Settings) | ShowHelp | ShowVersion | Fail(error: Error)

  /** The exit status of a verdict that ends the program. */
  function ExitStatus(v: Verdict): (code: int)
    requires !v.Run?
    ensures code == 0 <==> v.ShowHelp? || v.ShowVersion?
    ensures code == 0 || code == 1
  {
    if v.Fail? then 1 else 0
  }

  const Defaults := Settings(0, 0, DefaultTimeout, 0, 1, 0, false)

  /** The conditions each option enforces when it is given. */
  predicate OptionsHold(s: Settings)
  {
    (s.drive == 0 || s.drive == 1)
    && 1 <= s.blocks <= MaxBlocks
    && s.offset % BlockBytes == 0 && s.offset <= DriveSize
  }

  /** Every condition an accepted configuration meets. */
  predicate Valid(s: Settings)
  {
    OptionsHold(s) && s.offset + s.blocks * BlockBytes <= DriveSize && s.card <= MaxCard
  }

  /** The handling of one option inside the `getopt_long` loop. */
  function Step(s: Settings, o: Opt): (v: Verdict)
    ensures OptionsHold(s) && v.Run? ==> OptionsHold(v.settings)
    ensures o.Drive? ==>
              (v.Run? <==> o.d == 0 || o.d == 1)
              && (v.Run? ==> v.settings == s.(drive := o.d))
              && (!v.Run? ==> v == Fail(BadDrive))
    ensures o.Blocks? ==>
              (v.Run? <==> 1 <= Wrap32(o.b) <= MaxBlocks)
              && (v.Run? ==> v.settings == s.(blocks := Wrap32(o.b)))
              && (Wrap32(o.b) == 0 ==> v == Fail(BlocksZero))
              && (Wrap32(o.b) > MaxBlocks ==> v == Fail(TooManyBlocks))
    ensures o.Offset? ==>
              (v.Run? <==> Wrap64(o.o) % BlockBytes == 0 && Wrap64(o.o) <= DriveSize)
              && (v.Run? ==> v.settings == s.(offset := Wrap64(o.o)))
              && (Wrap64(o.o) % BlockBytes != 0 ==> v == Fail(OffsetUnaligned))
              && (Wrap64(o.o) % BlockBytes == 0 && Wrap64(o.o) > DriveSize ==> v == Fail(OffsetTooLarge))
    ensures o.Card? ==> v == Run(s.(card := o.n))
    ensures o.Timeout? ==> v == Run(s.(timeout := o.sec))
    ensures o.Verbose? ==> v == Run(s.(verbosity := s.verbosity + 1))
    ensures o.Irq? ==> v == Run(s.(irq := true))
    ensures o.Help? ==> v == ShowHelp
    ensures o.Version? ==> v == ShowVersion
    ensures o.Quiet? || o.Unknown? ==> v == Fail(BadOption)
  {
    match o
    case Verbose => Run(s.(verbosity := s.verbosity + 1))
    case Version => ShowVersion
    case Help => ShowHelp
    case Card(n) => Run(s.(card := n))
    case Timeout(sec) => Run(s.(timeout := sec))
    case Drive(d) =>
      if d != 0 && d != 1 then Fail(BadDrive) else Run(s.(drive := d))
    case Blocks(b) =>
      var blocks := Wrap32(b);
      if blocks <= 0 then Fail(BlocksZero)
      else if blocks > MaxBlocks then Fail(TooManyBlocks)
      else Run(s.(blocks := blocks))
    case Offset(off) =>
      var offset := Wrap64(off);
      if offset % BlockBytes != 0 then Fail(OffsetUnaligned)
      else if offset > DriveSize then Fail(OffsetTooLarge)
      else Run(s.(offset := offset))
    case Irq => Run(s.(irq := true))
    case Quiet => Fail(BadOption)
    case Unknown => Fail(BadOption)
  }

  /** The `getopt_long` loop over the remaining options. */
  function Loop(s: Settings, opts: seq<Opt>): (v: Verdict)
    ensures OptionsHold(s) && v.Run? ==> OptionsHold(v.settings)
    decreases |opts|
  {
    if opts == [] then Run(s)
    else
      match Step(s, opts[0])
      case Run(next) => Loop(next, opts[1..])
      case stop => stop
  }

  /**
   * The checks after the loop: `mem_size = blocks * 512` as a `uint32_t`,
   * then offset plus size against the drive size, then the card number.
   */
  function Finish(s: Settings): (v: Verdict)
    ensures v.Run? || v.Fail?
    ensures v.Run? ==> v.settings == s
    ensures OptionsHold(s) ==> (v.Run? <==> Valid(s))
    ensures OptionsHold(s) && s.offset + s.blocks * BlockBytes > DriveSize ==> v == Fail(PastDriveEnd)
    ensures OptionsHold(s) && s.offset + s.blocks * BlockBytes <= DriveSize && s.card > MaxCard ==> v == Fail(BadCard)
  {
    var memSize := Wrap32(s.blocks * BlockBytes);
    if s.offset + memSize > DriveSize then Fail(PastDriveEnd)
    else if s.card > MaxCard then Fail(BadCard)
    else Run(s)
  }

  /**
   * Option handling from the defaults to the verdict `main` acts on.
   * Every configuration `main` goes on with meets all the conditions.
   */
  function Configure(opts: seq<Opt>): (v: Verdict)
    ensures v.Run? ==> Valid(v.settings)
  {
    match Loop(Defaults, opts)
    case Run(s) => Finish(s)
    case stop => stop
  }

  /**
   * Once an option ends the program, the options after it make no
   * difference: the first rejected option, `-h` or `-V` decides.
   */
  lemma {:induction false} FirstStopWins(s: Settings, opts: seq<Opt>, more: seq<Opt>)
    requires !Loop(s, opts).Run?
    ensures Loop(s, opts + more) == Loop(s, opts)
    decreases |opts|
  {
    assert opts != [];
    assert (opts + more)[0] == opts[0];
    assert (opts + more)[1..] == opts[1..] + more;
    match Step(s, opts[0])
    case Run(next) => FirstStopWins(next, opts[1..], more);
    case _ =>
  }

  /** When the first options run through, the rest continue from the settings they left. */
  lemma {:induction false} LoopAppend(s: Settings, pre: seq<Opt>, more: seq<Opt>)
    requires Loop(s, pre).Run?
    ensures Loop(s, pre + more) == Loop(Loop(s, pre).settings, more)
    decreases |pre|
  {
    if pre == [] {
      assert pre + more == more;
    } else {
      assert (pre + more)[0] == pre[0];
      assert (pre + more)[1..] == pre[1..] + more;
      LoopAppend(Step(s, pre[0]).settings, pre[1..], more);
    }
  }

  /**
   * An option that ends the program, after options that were all
   * accepted, decides the verdict whatever follows it.
   */
  lemma StoppingOptionDecides(pre: seq<Opt>, o: Opt, post: seq<Opt>)
    requires Loop(Defaults, pre).Run?
    requires !Step(Loop(Defaults, pre).settings, o).Run?
    ensures Configure(pre + [o] + post) == Step(Loop(Defaults, pre).settings, o)
  {
    var s := Loop(Defaults, pre).settings;
    assert pre + [o] + post == pre + ([o] + post);
    LoopAppend(Defaults, pre, [o] + post);
    assert Loop(s, [o]) == Step(s, o);
    FirstStopWins(s, [o], post);
  }

  /**
   * A drive other than 0 or 1, a block count that stores as 0 or above
   * max_blocks, an offset that stores unaligned or past the drive, `-q` or
   * an unknown option, wherever it comes after accepted options, makes the
   * program fail with exit status 1 and the matching error.
   */
  lemma InvalidOptionFails(pre: seq<Opt>, o: Opt, post: seq<Opt>)
    requires Loop(Defaults, pre).Run?
    requires || (o.Drive? && o.d != 0 && o.d != 1)
             || (o.Blocks? && !(1 <= Wrap32(o.b) <= MaxBlocks))
             || (o.Offset? && !(Wrap64(o.o) % BlockBytes == 0 && Wrap64(o.o) <= DriveSize))
             || o.Quiet? || o.Unknown?
    ensures Configure(pre + [o] + post).Fail?
    ensures ExitStatus(Configure(pre + [o] + post)) == 1
    ensures o.Drive? ==> Configure(pre + [o] + post) == Fail(BadDrive)
    ensures o.Blocks? && Wrap32(o.b) == 0 ==> Configure(pre + [o] + post) == Fail(BlocksZero)
    ensures o.Blocks? && Wrap32(o.b) > MaxBlocks ==> Configure(pre + [o] + post) == Fail(TooManyBlocks)
    ensures o.Offset? && Wrap64(o.o) % BlockBytes != 0 ==> Configure(pre + [o] + post) == Fail(OffsetUnaligned)
    ensures o.Offset? && Wrap64(o.o) % BlockBytes == 0 && Wrap64(o.o) > DriveSize ==>
              Configure(pre + [o] + post) == Fail(OffsetTooLarge)
    ensures o.Quiet? || o.Unknown? ==> Configure(pre + [o] + post) == Fail(BadOption)
  {
    StoppingOptionDecides(pre, o, post);
  }

  /** `-h` and `-V` after accepted options end the program with exit status 0. */
  lemma HelpAndVersionSucceed(pre: seq<Opt>, post: seq<Opt>)
    requires Loop(Defaults, pre).Run?
    ensures Configure(pre + [Help] + post) == ShowHelp && ExitStatus(ShowHelp) == 0
    ensures Configure(pre + [Version] + post) == ShowVersion && ExitStatus(ShowVersion) == 0
  {
    StoppingOptionDecides(pre, Help, post);
    StoppingOptionDecides(pre, Version, post);
  }

  /** `--blocks 0`, `--offset 100` and `--drive 2` each make the program fail with exit status 1. */
  lemma RejectedCommandLines()
    ensures Configure([Blocks(0)]) == Fail(BlocksZero) && ExitStatus(Configure([Blocks(0)])) == 1
    ensures Configure([Offset(100)]) == Fail(OffsetUnaligned) && ExitStatus(Configure([Offset(100)])) == 1
    ensures Configure([Drive(2)]) == Fail(BadDrive) && ExitStatus(Configure([Drive(2)])) == 1
  {
    InvalidOptionFails([], Blocks(0), []);
    InvalidOptionFails([], Offset(100), []);
    InvalidOptionFails([], Drive(2), []);
    assert [] + [Blocks(0)] + [] == [Blocks(0)];
    assert [] + [Offset(100)] + [] == [Offset(100)];
    assert [] + [Drive(2)] + [] == [Drive(2)];
  }

  /**
   * For a command line naming the card, the drive, the blocks and the
   * offset once each, `main` goes on exactly when the stored values meet
   * every condition, and then with those values.
   */
  lemma ConfigureExactly(c: int, d: int, b: int, o: int)
    ensures var v := Configure([Card(c), Drive(d), Blocks(b), Offset(o)]);
      (v.Run? <==>
        c <= MaxCard && (d == 0 || d == 1) && 1 <= Wrap32(b) <= MaxBlocks
        && Wrap64(o) % BlockBytes == 0 && Wrap64(o) + Wrap32(b) * BlockBytes <= DriveSize)
      && (v.Run? ==> v.settings == Settings(c, 0, DefaultTimeout, d, Wrap32(b), Wrap64(o), false))
      && (!v.Run? ==> v.Fail? && ExitStatus(v) == 1)
  {
    var opts := [Card(c), Drive(d), Blocks(b), Offset(o)];
    var s1 := Defaults.(card := c);
    var s2 := s1.(drive := d);
    var s3 := s2.(blocks := Wrap32(b));
    var s4 := s3.(offset := Wrap64(o));
    assert Loop(Defaults, opts) == Loop(s1, opts[1..]);
    if d == 0 || d == 1 {
      assert Loop(s1, opts[1..]) == Loop(s2, opts[2..]);
      if 1 <= Wrap32(b) <= MaxBlocks {
        assert Loop(s2, opts[2..]) == Loop(s3, opts[3..]);
        if Wrap64(o) % BlockBytes == 0 && Wrap64(o) <= DriveSize {
          assert Loop(s3, opts[3..]) == Loop(s4, []);
          assert Wrap32(b) * BlockBytes < Two32;
        }
      }
    }
  }

  // ---------------------------------------------------------------------
  // Values derived from the settings

  /** `mem_size`: the bytes moved, a `uint32_t`. */
  function MemSize(s: Settings): (size: u32)
    ensures (size - s.blocks * BlockBytes) % Two32 == 0
    ensures s.blocks <= MaxBlocks ==> size == s.blocks * BlockBytes
  {
    Wrap32(s.blocks * BlockBytes)
  }

  /** `nvme_lb`: the first logical block on the drive. */
  function NvmeLb(s: Settings): (lb: nat)
    ensures lb * BlockBytes <= s.offset < (lb + 1) * BlockBytes
  {
    s.offset / BlockBytes
  }

  /** The byte ranges [a, a + n) and [b, b + m) do not overlap. */
  predicate Disjoint(a: int, n: int, b: int, m: int)
  {
    a + n <= b || b + m <= a
  }

  /** `ddr_src`: the copy's source in card memory, always 0. */
  const DdrSrc: int := 0

  /** `ddr_dest = ddr_src + mem_size`: the copy's destination in card memory. */
  function DdrDest(s: Settings): (dest: int)
    ensures Disjoint(DdrSrc, MemSize(s), dest, MemSize(s))
  {
    DdrSrc + MemSize(s)
  }

  /**
   * For accepted settings, `mem_size` is the exact byte count of the
   * blocks, `nvme_lb` addresses the offset exactly, nvme_lb + blocks is
   * within the drive's block count, the test pattern fills 64 words per
   * block, both card-memory ranges end below 64 MiB, and `512 * blocks`
   * fits an `int` as `nvme_read_test` needs.
   */
  lemma DerivedValues(s: Settings)
    requires Valid(s)
    ensures MemSize(s) == s.blocks * BlockBytes && 0 < MemSize(s) <= MaxTransfer
    ensures NvmeLb(s) * BlockBytes == s.offset
    ensures WordCount(MemSize(s)) == s.blocks * 64
    ensures NvmeLb(s) + s.blocks <= DriveSize / BlockBytes
    ensures DdrSrc + MemSize(s) <= 2 * MaxTransfer && DdrDest(s) + MemSize(s) <= 2 * MaxTransfer
    ensures -0x8000_0000 <= BlockBytes * s.blocks < 0x8000_0000
  {
  }
}
