/** The test driver around the decoder (`main` and `mem_init`): the argument
    check, and for each image file a banner, the memory-init handshake, the
    start command and one decoder run, all runs reading the same tohost
    stream one after another. The co-emulation session (its set-up, service
    thread and shutdown) is not part of this model; an outbound port is
    modelled by the log of what has been sent on it. */
module Driver {
  import opened Protocol
  import opened Decoder

  /** An outbound port proxy: `SendMessage` appends to what has been sent. */
  class InportProxy<T> {
    var sent: seq<T>

    constructor ()
      ensures sent == []
    {
      sent := [];
    }

    method SendMessage(msg: T)
      modifies this
      ensures sent == old(sent) + [msg]
    {
      sent := sent + [msg];
    }
  }

  /** Memory initialisation for one image. Loading the image itself is not
      implemented, so it only signals InitDone, once, and always succeeds. */
  method MemInit(filename: string, mem: InportProxy<WideMemInit>) returns (ok: bool)
    modifies mem
    ensures ok
    ensures mem.sent == old(mem.sent) + [InitDone]
  {
    var msg := InitDone;
    mem.SendMessage(msg);
    ok := true;
  }

  /** `k` copies of `x`: what a port carries after the same message was sent `k` times. */
  function Repeat<T>(x: T, k: nat): (r: seq<T>)
    ensures |r| == k
    ensures forall j :: 0 <= j < k ==> r[j] == x
  {
    if k == 0 then [] else Repeat(x, k - 1) + [x]
  }

  /** The number of ExitCode messages in a stream. */
  function ExitCount(msgs: seq<ToHost>): (n: nat)
    ensures n <= |msgs|
  {
    if msgs == [] then 0
    else (if msgs[0].kind.ExitCode? then 1 else 0) + ExitCount(msgs[1..])
  }

  lemma {:induction false} ExitCountAppend(xs: seq<ToHost>, ys: seq<ToHost>)
    ensures ExitCount(xs + ys) == ExitCount(xs) + ExitCount(ys)
    decreases |xs|
  {
    if xs == [] {
      assert xs + ys == ys;
    } else {
      assert (xs + ys)[0] == xs[0];
      assert (xs + ys)[1..] == xs[1..] + ys;
      ExitCountAppend(xs[1..], ys);
    }
  }

  /** A run's messages hold exactly one ExitCode, its last. */
  lemma {:induction false} ExitCountOfRun(msgs: seq<ToHost>)
    requires HasExit(msgs)
    ensures ExitCount(msgs[..ExitIndex(msgs) + 1]) == 1
    decreases |msgs|
  {
    if !msgs[0].kind.ExitCode? {
      assert msgs[..ExitIndex(msgs) + 1][1..] == msgs[1..][..ExitIndex(msgs[1..]) + 1];
      ExitCountOfRun(msgs[1..]);
    }
  }

  /** Where the run of image `i` starts reading the stream: at the start for
      the first image, and for each later one right after the ExitCode that
      ended the previous run. */
  function Consumed(msgs: seq<ToHost>, i: nat, n: nat): (p: nat)
    requires Feasible(msgs, i, n)
    ensures p <= |msgs|
    decreases i, 1
  {
    if i == 0 then 0
    else Consumed(msgs, i - 1, n) + ExitIndex(msgs[Consumed(msgs, i - 1, n)..]) + 1
  }

  /** The first `images` runs each find an ExitCode in the stream they read
      and, before it, address only the `n` cores' slots. */
  predicate Feasible(msgs: seq<ToHost>, images: nat, n: nat)
    decreases images, 0
  {
    images == 0 ||
    (Feasible(msgs, images - 1, n)
     && HasExit(msgs[Consumed(msgs, images - 1, n)..])
     && Addressed(msgs[Consumed(msgs, images - 1, n)..], n))
  }

  /** Fewer images than a feasible number are feasible too. */
  lemma {:induction false} FeasibleFewer(msgs: seq<ToHost>, i: nat, j: nat, n: nat)
    requires i <= j && Feasible(msgs, j, n)
    ensures Feasible(msgs, i, n)
    decreases j - i
  {
    if i < j {
      FeasibleFewer(msgs, i, j - 1, n);
    }
  }

  /** Image `i` of a feasible sequence of `j` images finds an ExitCode in
      its stream and addresses only the cores' slots before it. */
  lemma ImageReady(msgs: seq<ToHost>, i: nat, j: nat, n: nat)
    requires i < j && Feasible(msgs, j, n)
    ensures Feasible(msgs, i, n) && Feasible(msgs, i + 1, n)
    ensures HasExit(msgs[Consumed(msgs, i, n)..]) && Addressed(msgs[Consumed(msgs, i, n)..], n)
    ensures Consumed(msgs, i + 1, n) == Consumed(msgs, i, n) + ExitIndex(msgs[Consumed(msgs, i, n)..]) + 1
  {
    FeasibleFewer(msgs, i + 1, j, n);
    assert Feasible(msgs, i + 1, n);
  }

  /** The run of the image that starts reading at `pos` consumes one more
      ExitCode, its last message. */
  lemma NextImage(msgs: seq<ToHost>, pos: nat, next: nat)
    requires pos <= |msgs| && HasExit(msgs[pos..])
    requires next == pos + ExitIndex(msgs[pos..]) + 1
    ensures 0 < next <= |msgs|
    ensures ExitCount(msgs[..next]) == ExitCount(msgs[..pos]) + 1
    ensures msgs[next - 1].kind.ExitCode?
  {
    var rest := msgs[pos..];
    var used := ExitIndex(rest) + 1;
    ExitCountOfRun(rest);
    assert msgs[..next] == msgs[..pos] + rest[..used];
    ExitCountAppend(msgs[..pos], rest[..used]);
    assert msgs[next - 1] == rest[used - 1];
  }

  /** After `i` images the stream has been read exactly up to and including
      its `i`-th ExitCode. */
  lemma {:induction false} ConsumedExits(msgs: seq<ToHost>, i: nat, n: nat)
    requires Feasible(msgs, i, n)
    ensures ExitCount(msgs[..Consumed(msgs, i, n)]) == i
    ensures i > 0 ==> Consumed(msgs, i, n) > 0 && msgs[Consumed(msgs, i, n) - 1].kind.ExitCode?
    decreases i
  {
    if i == 0 {
      assert msgs[..0] == [];
    } else {
      ConsumedExits(msgs, i - 1, n);
      NextImage(msgs, Consumed(msgs, i - 1, n), Consumed(msgs, i, n));
    }
  }

  /** The accumulator contents each image's run starts from have one slot per core. */
  predicate SlotsFit(inits: seq<seq<u32>>, n: nat) {
    forall i :: 0 <= i < |inits| ==> |inits[i]| == n
  }

  /** What one image writes: its banner, its run's output and a line break. */
  function ImageLog(file: string, init: seq<u32>, msgs: seq<ToHost>): (r: seq<Event>)
    requires HasExit(msgs) && Addressed(msgs, |init|)
    ensures |r| >= 3 && r[0] == Banner(file) && r[|r| - 1] == Newline
    ensures r[|r| - 2] == Report(OutcomeOf(msgs[ExitIndex(msgs)].data))
  {
    [Banner(file)] + (Run(init, msgs).out + [Newline])
  }

  /** The shape of what one image writes: its banner, then only characters
      and integers, then the PASSED / FAILED line `Report(o)`, then a line break. */
  predicate Shaped(log: seq<Event>, file: string, o: Outcome) {
    |log| >= 3 && log[0] == Banner(file)
    && log[|log| - 2] == Report(o) && log[|log| - 1] == Newline
    && forall t :: 1 <= t < |log| - 2 ==> log[t].Char? || log[t].Int?
  }

  lemma ShapedOf(file: string, prints: seq<Event>, o: Outcome)
    requires forall t :: 0 <= t < |prints| ==> prints[t].Char? || prints[t].Int?
    ensures Shaped([Banner(file)] + prints + [Report(o), Newline], file, o)
  {
  }


  /** Each image writes its banner, then only the characters and integers
      its program prints, then the PASSED / FAILED line for its ExitCode,
      then a line break. */
  lemma ImageLogShape(file: string, init: seq<u32>, msgs: seq<ToHost>)
    requires HasExit(msgs) && Addressed(msgs, |init|)
    ensures Shaped(ImageLog(file, init, msgs), file, OutcomeOf(msgs[ExitIndex(msgs)].data))
  {
    var prints := Prefix(init, msgs, ExitIndex(msgs)).out;
    var o := OutcomeOf(msgs[ExitIndex(msgs)].data);
    OnlyPrints(init, msgs, ExitIndex(msgs));
    ShapedOf(file, prints, o);
    assert ImageLog(file, init, msgs) == [Banner(file)] + prints + [Report(o), Newline];
  }

  /** What the driver writes to stderr for the first `k` image files: per
      image its banner, its run's output and a line break. */
  function DriveLog(files: seq<string>, inits: seq<seq<u32>>, msgs: seq<ToHost>, k: nat, n: nat): (r: seq<Event>)
    requires k <= |files| && k <= |inits| && SlotsFit(inits, n)
    requires Feasible(msgs, k, n)
    ensures |r| >= 3 * k
    ensures k > 0 ==> r[0] == Banner(files[0]) && r[|r| - 1] == Newline
  {
    if k == 0 then []
    else
      DriveLog(files, inits, msgs, k - 1, n)
      + ImageLog(files[k - 1], inits[k - 1], msgs[Consumed(msgs, k - 1, n)..])
  }

  /** Each later image only appends to what the earlier ones wrote. */
  lemma {:induction false} DriveLogGrows(files: seq<string>, inits: seq<seq<u32>>, msgs: seq<ToHost>, i: nat, k: nat, n: nat)
    requires i <= k <= |files| && k <= |inits| && SlotsFit(inits, n)
    requires Feasible(msgs, k, n)
    ensures Feasible(msgs, i, n)
    ensures DriveLog(files, inits, msgs, i, n) <= DriveLog(files, inits, msgs, k, n)
    decreases k - i
  {
    FeasibleFewer(msgs, i, k, n);
    if i < k {
      FeasibleFewer(msgs, k - 1, k, n);
      DriveLogGrows(files, inits, msgs, i, k - 1, n);
    }
  }

  /** One image on one core whose program prints "OK" and exits with code 0:
      the banner, the two characters, PASSED and the line break, and the
      stream is read up to its ExitCode. */
  lemma OkScenario(file: string, slot: u32)
    ensures var msgs := [ToHost(0, PrintChar, 'O' as int), ToHost(0, PrintChar, 'K' as int), ToHost(0, ExitCode, 0)];
            Feasible(msgs, 1, 1) && Consumed(msgs, 1, 1) == 3
            && DriveLog([file], [[slot]], msgs, 1, 1)
               == [Banner(file), Char('O' as int), Char('K' as int), Report(Passed), Newline]
  {
    var msgs := [ToHost(0, PrintChar, 'O' as int), ToHost(0, PrintChar, 'K' as int), ToHost(0, ExitCode, 0)];
    assert ExitIndex(msgs) == 2 by {
      assert ExitIndex(msgs[2..]) == 0;
      assert msgs[1..][1..] == msgs[2..];
      assert ExitIndex(msgs[1..]) == 1;
    }
    assert msgs[..2] == [msgs[0], msgs[1]];
    assert Prefix([slot], msgs, 2).out == [Char('O' as int), Char('K' as int)] by {
      PrefixStep([slot], msgs, 0);
      PrefixStep([slot], msgs, 1);
      assert msgs[..0] == [];
    }
    assert Run([slot], msgs).out == [Char('O' as int), Char('K' as int), Report(Passed)];
    assert msgs[0..] == msgs;
  }

  /** One image on one core whose program exits with code 5 at once: the
      banner, FAILED with code 5 and the line break. (`RunDriver` still
      returns 0 for it.) */
  lemma FailedScenario(file: string, slot: u32)
    ensures var msgs := [ToHost(0, ExitCode, 5)];
            Feasible(msgs, 1, 1) && Consumed(msgs, 1, 1) == 1
            && DriveLog([file], [[slot]], msgs, 1, 1) == [Banner(file), Report(Failed(5)), Newline]
  {
  }

  /** `main`: `argv[0]` is the program, the rest are image files. With no
      image the usage line is the only effect and the exit code is 1. With
      images, each gets exactly one InitDone and one start command, loading
      never fails, each image's run picks up the stream where the previous
      one stopped, the images consume the stream up to and including their
      own ExitCodes and nothing more, and the exit code is 0 whatever the
      runs report. `inits[i]` is the indeterminate content of `print_int`
      when image `i` starts. */
  method RunDriver(argv: seq<string>, coreNum: nat, inits: seq<seq<u32>>, msgs: seq<ToHost>)
    returns (exitCode: int, log: seq<Event>, memSent: seq<WideMemInit>, startSent: seq<u32>, consumed: nat)
    requires |argv| >= 2 ==> coreNum >= 1 && |inits| == |argv| - 1 && SlotsFit(inits, coreNum)
    requires |argv| >= 2 ==> Feasible(msgs, |argv| - 1, coreNum)
    ensures |argv| < 2 ==> exitCode == 1 && log == [Usage] && memSent == [] && startSent == [] && consumed == 0
    ensures |argv| >= 2 ==> exitCode == 0 && log == DriveLog(argv[1..], inits, msgs, |argv| - 1, coreNum)
    ensures |argv| >= 2 ==> memSent == Repeat(InitDone, |argv| - 1) && startSent == Repeat(StartPc, |argv| - 1)
    ensures |argv| >= 2 ==> consumed == Consumed(msgs, |argv| - 1, coreNum)
    ensures |argv| >= 2 ==> 0 < consumed <= |msgs| && msgs[consumed - 1].kind.ExitCode?
    ensures |argv| >= 2 ==> ExitCount(msgs[..consumed]) == |argv| - 1
  {
    if |argv| < 2 {
      log := [Usage];
      return 1, log, [], [], 0;
    }
    var mem := new InportProxy<WideMemInit>();
    var fromhost := new InportProxy<u32>();
    var files := argv[1..];
    log, consumed := RunImages(files, coreNum, inits, msgs, mem, fromhost);
    ConsumedExits(msgs, |files|, coreNum);
    return 0, log, mem.sent, fromhost.sent, consumed;
  }

  /** Image `i`, the body of `main`'s loop: the banner, the memory-init
      handshake (which never fails), the start command, and one decoder run
      on the stream from where the previous image stopped. */
  method RunOne(files: seq<string>, inits: seq<seq<u32>>, msgs: seq<ToHost>, coreNum: nat,
                i: nat, pos: nat, mem: InportProxy<WideMemInit>, fromhost: InportProxy<u32>)
    returns (out: seq<Event>, next: nat)
    requires coreNum >= 1 && i < |files| == |inits| && SlotsFit(inits, coreNum)
    requires Feasible(msgs, |files|, coreNum)
    requires Feasible(msgs, i, coreNum) && pos == Consumed(msgs, i, coreNum)
    modifies mem, fromhost
    ensures Feasible(msgs, i + 1, coreNum) && next == Consumed(msgs, i + 1, coreNum)
    ensures DriveLog(files, inits, msgs, i, coreNum) + out == DriveLog(files, inits, msgs, i + 1, coreNum)
    ensures mem.sent == old(mem.sent) + [InitDone]
    ensures fromhost.sent == old(fromhost.sent) + [StartPc]
  {
    ImageReady(msgs, i, |files|, coreNum);
    out := [Banner(files[i])];
    var ok := MemInit(files[i], mem);
    assert ok;  // the "Failed to load memory" branch is never taken
    fromhost.SendMessage(StartPc);
    var runOut, outcome, used := RunImage(msgs[pos..], coreNum, inits[i]);
    out := out + runOut;
    next := pos + used;
  }

  /** The loop of `main` over the image files: each image's run picks up
      the stream where the previous one stopped. */
  method RunImages(files: seq<string>, coreNum: nat, inits: seq<seq<u32>>, msgs: seq<ToHost>,
                   mem: InportProxy<WideMemInit>, fromhost: InportProxy<u32>)
    returns (log: seq<Event>, consumed: nat)
    requires coreNum >= 1 && |inits| == |files| && SlotsFit(inits, coreNum)
    requires Feasible(msgs, |files|, coreNum)
    requires mem.sent == [] && fromhost.sent == []
    modifies mem, fromhost
    ensures log == DriveLog(files, inits, msgs, |files|, coreNum)
    ensures consumed == Consumed(msgs, |files|, coreNum)
    ensures mem.sent == Repeat(InitDone, |files|) && fromhost.sent == Repeat(StartPc, |files|)
  {
    log := [];
    var pos: nat := 0;
    for fileNumber := 0 to |files|
      invariant Feasible(msgs, fileNumber, coreNum)
      invariant pos == Consumed(msgs, fileNumber, coreNum)
      invariant log == DriveLog(files, inits, msgs, fileNumber, coreNum)
      invariant mem.sent == Repeat(InitDone, fileNumber)
      invariant fromhost.sent == Repeat(StartPc, fileNumber)
    {
      var out, next := RunOne(files, inits, msgs, coreNum, fileNumber, pos, mem, fromhost);
      log := log + out;
      pos := next;
    }
    consumed := pos;
  }
}
