/** The host-side status-stream decoder of the test bench (the tohost loop
    in `main`). A pure left fold over the message stream is the reference;
    `RunImage` is the loop as written, polling the stream in rounds of
    `coreNum` messages into an in-place accumulator array, and is proved to
    compute exactly the fold over the messages up to the first ExitCode. */
module Decoder {
  import opened Protocol

  /** `finish` together with the verdict printed when it was set. */
  datatype Status = Running | Done(outcome: Outcome)

  /** The decoder after a prefix of the stream: the per-core accumulators
      (`print_int`), what has been written to stderr, and the run status. */
  datatype State = State(acc: seq<u32>, out: seq<Event>, status: Status)

  /** The state a run starts in; `init` is the indeterminate initial content
      of the accumulator array, one slot per core. */
  function Start(init: seq<u32>): (s: State)
    ensures s.acc == init && s.out == [] && s.status == Running
  {
    State(init, [], Running)
  }

  /** The position of the first ExitCode message, or the length of the
      stream when there is none. */
  function ExitIndex(msgs: seq<ToHost>): (k: nat)
    ensures k <= |msgs|
    ensures k < |msgs| ==> msgs[k].kind.ExitCode?
  {
    if msgs == [] then 0
    else if msgs[0].kind.ExitCode? then 0
    else 1 + ExitIndex(msgs[1..])
  }

  /** No message before the first ExitCode is an ExitCode. */
  lemma {:induction false} BeforeExit(msgs: seq<ToHost>, j: nat)
    requires j < ExitIndex(msgs)
    ensures !msgs[j].kind.ExitCode?
    decreases j
  {
    if j > 0 {
      BeforeExit(msgs[1..], j - 1);
    }
  }

  /** A prefix that stops at or before the first ExitCode holds none. */
  lemma {:induction false} ExitIndexTake(msgs: seq<ToHost>, k: nat)
    requires k <= ExitIndex(msgs)
    ensures ExitIndex(msgs[..k]) == k
    decreases k
  {
    if k > 0 {
      assert msgs[..k][1..] == msgs[1..][..k - 1];
      ExitIndexTake(msgs[1..], k - 1);
    }
  }

  predicate HasExit(msgs: seq<ToHost>) {
    ExitIndex(msgs) < |msgs|
  }

  /** Every message that indexes the accumulator array names one of the `n` cores. */
  predicate InRange(msgs: seq<ToHost>, n: nat) {
    forall k :: 0 <= k < |msgs| ==> UsesSlot(msgs[k]) ==> msgs[k].id < n
  }

  /** What the source demands of the stream it reads: the messages a run
      consumes before its ExitCode index `print_int` only within bounds. */
  predicate Addressed(msgs: seq<ToHost>, n: nat)
    decreases |msgs|
  {
    msgs == [] || msgs[0].kind.ExitCode? ||
    ((UsesSlot(msgs[0]) ==> msgs[0].id < n) && Addressed(msgs[1..], n))
  }

  /** Each message before the first ExitCode of an addressed stream names
      one of the `n` cores when it indexes the accumulator array. */
  lemma {:induction false} AddressedAt(msgs: seq<ToHost>, n: nat, j: nat)
    requires Addressed(msgs, n) && j < ExitIndex(msgs)
    ensures UsesSlot(msgs[j]) ==> msgs[j].id < n
    decreases j
  {
    if j > 0 {
      AddressedAt(msgs[1..], n, j - 1);
    }
  }

  /** Handling of one message. Once an ExitCode has been seen, nothing changes. */
  function Step(s: State, m: ToHost): (r: State)
    requires UsesSlot(m) ==> m.id < |s.acc|
    ensures |r.acc| == |s.acc|
    ensures s.out <= r.out && |r.out| <= |s.out| + 1
    ensures s.status.Done? ==> r == s
    ensures r.status.Done? <==> s.status.Done? || m.kind.ExitCode?
  {
    if s.status.Done? then s
    else
      match m.kind
      case ExitCode =>
        var o := OutcomeOf(m.data);
        s.(out := s.out + [Report(o)], status := Done(o))
      case PrintChar =>
        s.(out := s.out + [Char(LowByte(m.data))])
      case PrintIntLow =>
        s.(acc := s.acc[m.id := m.data])
      case PrintIntHigh =>
        var v := OrHigh(s.acc[m.id], m.data);
        s.(acc := s.acc[m.id := v], out := s.out + [Int(Signed(v))])
      case Unknown =>
        s
  }

  /** The reference semantics: a left fold of `Step` over the stream. */
  function Fold(s: State, msgs: seq<ToHost>): (r: State)
    requires InRange(msgs, |s.acc|)
    ensures |r.acc| == |s.acc|
    ensures s.out <= r.out
    ensures r.status.Done? <==> s.status.Done? || HasExit(msgs)
    decreases |msgs|
  {
    if msgs == [] then s
    else Fold(Step(s, msgs[0]), msgs[1..])
  }

  /** The messages of a run up to position `k`, up to and including the
      first ExitCode, touch only slots that exist. */
  lemma AddressedPrefix(msgs: seq<ToHost>, n: nat, k: nat)
    requires Addressed(msgs, n)
    requires k <= |msgs| && k <= ExitIndex(msgs) + 1
    ensures InRange(msgs[..k], n)
  {
    forall t | 0 <= t < k
      ensures UsesSlot(msgs[..k][t]) ==> msgs[..k][t].id < n
    {
      if t < ExitIndex(msgs) {
        AddressedAt(msgs, n, t);
      }
    }
  }

  /** The decoder's state after the first `k` messages of a run. */
  function Prefix(init: seq<u32>, msgs: seq<ToHost>, k: nat): State
    requires Addressed(msgs, |init|)
    requires k <= |msgs| && k <= ExitIndex(msgs) + 1
  {
    AddressedPrefix(msgs, |init|, k);
    Fold(Start(init), msgs[..k])
  }

  /** The state at the end of a run: every message up to and including the
      first ExitCode has been handled, and the verdict is that message's. */
  function Run(init: seq<u32>, msgs: seq<ToHost>): (r: State)
    requires HasExit(msgs) && Addressed(msgs, |init|)
    ensures |r.acc| == |init|
    ensures r.status == Done(OutcomeOf(msgs[ExitIndex(msgs)].data))
    ensures r.out == Prefix(init, msgs, ExitIndex(msgs)).out
                     + [Report(OutcomeOf(msgs[ExitIndex(msgs)].data))]
  {
    var e := ExitIndex(msgs);
    PrefixStep(init, msgs, e);
    PrefixRunning(init, msgs, e);
    Prefix(init, msgs, e + 1)
  }

  /** Folding one more message is one more `Step`. */
  lemma {:induction false} FoldSnoc(s: State, xs: seq<ToHost>, x: ToHost)
    requires InRange(xs + [x], |s.acc|)
    ensures InRange(xs, |s.acc|)
    ensures UsesSlot(x) ==> x.id < |s.acc|
    ensures Fold(s, xs + [x]) == Step(Fold(s, xs), x)
    decreases |xs|
  {
    assert InRange(xs, |s.acc|) by {
      forall k | 0 <= k < |xs| ensures UsesSlot(xs[k]) ==> xs[k].id < |s.acc| {
        assert xs[k] == (xs + [x])[k];
      }
    }
    assert UsesSlot(x) ==> x.id < |s.acc| by {
      assert x == (xs + [x])[|xs|];
    }
    if xs == [] {
      assert [x][1..] == [];
    } else {
      assert (xs + [x])[0] == xs[0];
      assert (xs + [x])[1..] == xs[1..] + [x];
      FoldSnoc(Step(s, xs[0]), xs[1..], x);
    }
  }

  /** Folding a concatenation folds the first part, then the second. */
  lemma {:induction false} FoldAppend(s: State, xs: seq<ToHost>, ys: seq<ToHost>)
    requires InRange(xs + ys, |s.acc|)
    ensures InRange(xs, |s.acc|)
    ensures InRange(ys, |Fold(s, xs).acc|)
    ensures Fold(s, xs + ys) == Fold(Fold(s, xs), ys)
    decreases |xs|
  {
    assert InRange(xs, |s.acc|) by {
      forall k | 0 <= k < |xs| ensures UsesSlot(xs[k]) ==> xs[k].id < |s.acc| {
        assert xs[k] == (xs + ys)[k];
      }
    }
    assert InRange(ys, |s.acc|) by {
      forall k | 0 <= k < |ys| ensures UsesSlot(ys[k]) ==> ys[k].id < |s.acc| {
        assert ys[k] == (xs + ys)[|xs| + k];
      }
    }
    if xs == [] {
      assert xs + ys == ys;
    } else {
      assert (xs + ys)[0] == xs[0];
      assert (xs + ys)[1..] == xs[1..] + ys;
      FoldAppend(Step(s, xs[0]), xs[1..], ys);
    }
  }

  /** Once the run is over, further messages change nothing. */
  lemma {:induction false} FoldDone(s: State, xs: seq<ToHost>)
    requires InRange(xs, |s.acc|) && s.status.Done?
    ensures Fold(s, xs) == s
    decreases |xs|
  {
    if xs != [] {
      FoldDone(Step(s, xs[0]), xs[1..]);
    }
  }

  /** Before the first ExitCode the run is still going. */
  lemma PrefixRunning(init: seq<u32>, msgs: seq<ToHost>, k: nat)
    requires Addressed(msgs, |init|)
    requires k <= ExitIndex(msgs)
    ensures Prefix(init, msgs, k).status == Running
  {
    ExitIndexTake(msgs, k);
  }

  /** Message `k` of a run is handled by one `Step`, on the state the
      messages before it left. */
  lemma PrefixStep(init: seq<u32>, msgs: seq<ToHost>, k: nat)
    requires Addressed(msgs, |init|)
    requires k < |msgs| && k <= ExitIndex(msgs)
    ensures UsesSlot(msgs[k]) ==> msgs[k].id < |Prefix(init, msgs, k).acc|
    ensures msgs[k].kind.ExitCode? ==> k == ExitIndex(msgs)
    ensures Prefix(init, msgs, k + 1) == Step(Prefix(init, msgs, k), msgs[k])
  {
    if k < ExitIndex(msgs) {
      BeforeExit(msgs, k);
    }
    AddressedPrefix(msgs, |init|, k + 1);
    assert msgs[..k + 1] == msgs[..k] + [msgs[k]];
    FoldSnoc(Start(init), msgs[..k], msgs[k]);
  }

  /** Before the first ExitCode a run writes only characters and integers. */
  lemma {:induction false} OnlyPrints(init: seq<u32>, msgs: seq<ToHost>, k: nat)
    requires Addressed(msgs, |init|)
    requires k <= |msgs| && k <= ExitIndex(msgs)
    ensures forall t :: 0 <= t < |Prefix(init, msgs, k).out| ==>
              Prefix(init, msgs, k).out[t].Char? || Prefix(init, msgs, k).out[t].Int?
    decreases k
  {
    if k > 0 {
      OnlyPrints(init, msgs, k - 1);
      PrefixStep(init, msgs, k - 1);
      PrefixRunning(init, msgs, k - 1);
    }
  }

  /** The run stops at the first ExitCode: whatever follows it in the stream
      does not change the outcome, the output or the accumulators. */
  lemma StopsAtFirstExit(init: seq<u32>, msgs: seq<ToHost>)
    requires HasExit(msgs) && Addressed(msgs, |init|)
    requires InRange(msgs, |init|)
    ensures Fold(Start(init), msgs) == Run(init, msgs)
  {
    var e := ExitIndex(msgs);
    assert msgs == msgs[..e + 1] + msgs[e + 1..];
    FoldAppend(Start(init), msgs[..e + 1], msgs[e + 1..]);
    FoldDone(Run(init, msgs), msgs[e + 1..]);
  }

  /** PrintChar writes exactly one character, the payload's low byte, and
      leaves the accumulators and the status as they were. */
  lemma PrintCharEmitsLowByte(init: seq<u32>, msgs: seq<ToHost>, k: nat)
    requires Addressed(msgs, |init|)
    requires k < ExitIndex(msgs) && msgs[k].kind.PrintChar?
    ensures Prefix(init, msgs, k + 1).out == Prefix(init, msgs, k).out + [Char(LowByte(msgs[k].data))]
    ensures Prefix(init, msgs, k + 1).acc == Prefix(init, msgs, k).acc
    ensures Prefix(init, msgs, k + 1).status == Running
  {
    PrefixStep(init, msgs, k);
    PrefixRunning(init, msgs, k);
  }

  /** PrintIntLow overwrites the sender's slot with the zero-extended payload
      (whatever it held before, upper half included), leaves every other
      core's slot alone and writes nothing. */
  lemma PrintIntLowSetsSlot(init: seq<u32>, msgs: seq<ToHost>, k: nat)
    requires Addressed(msgs, |init|)
    requires k < ExitIndex(msgs) && msgs[k].kind.PrintIntLow?
    ensures msgs[k].id < |init|
    ensures Prefix(init, msgs, k + 1).acc[msgs[k].id] == msgs[k].data
    ensures forall c :: 0 <= c < |init| && c != msgs[k].id ==>
              Prefix(init, msgs, k + 1).acc[c] == Prefix(init, msgs, k).acc[c]
    ensures Prefix(init, msgs, k + 1).out == Prefix(init, msgs, k).out
    ensures Prefix(init, msgs, k + 1).status == Running
  {
    PrefixStep(init, msgs, k);
    PrefixRunning(init, msgs, k);
  }

  /** A message with any other tag changes no state and writes nothing. */
  lemma UnknownTagIgnored(init: seq<u32>, msgs: seq<ToHost>, k: nat)
    requires Addressed(msgs, |init|)
    requires k < ExitIndex(msgs) && msgs[k].kind.Unknown?
    ensures Prefix(init, msgs, k + 1) == Prefix(init, msgs, k)
  {
    PrefixStep(init, msgs, k);
    PrefixRunning(init, msgs, k);
  }

  /** A core's slot keeps its value across messages that do not index it. */
  lemma {:induction false} SlotUntouched(init: seq<u32>, msgs: seq<ToHost>, c: nat, a: nat, b: nat)
    requires Addressed(msgs, |init|)
    requires c < |init| && a <= b <= ExitIndex(msgs)
    requires forall t :: a <= t < b ==> !(UsesSlot(msgs[t]) && msgs[t].id == c)
    ensures Prefix(init, msgs, b).acc[c] == Prefix(init, msgs, a).acc[c]
    decreases b - a
  {
    if a < b {
      SlotUntouched(init, msgs, c, a, b - 1);
      PrefixStep(init, msgs, b - 1);
      PrefixRunning(init, msgs, b - 1);
    }
  }

  /** PrintIntLow(l) followed later by PrintIntHigh(h) from the same core,
      with no other PrintInt message of that core between them, prints
      `(h << 16) | l` = `h * 65536 + l` read as a signed 32-bit int, however
      other cores' messages interleave. */
  lemma LowThenHigh(init: seq<u32>, msgs: seq<ToHost>, j: nat, k: nat)
    requires Addressed(msgs, |init|)
    requires j < k < ExitIndex(msgs)
    requires msgs[j].kind.PrintIntLow? && msgs[k].kind.PrintIntHigh?
    requires msgs[j].id == msgs[k].id
    requires forall t :: j < t < k ==> !(UsesSlot(msgs[t]) && msgs[t].id == msgs[j].id)
    ensures msgs[k].id < |init|
    ensures Prefix(init, msgs, k + 1).out ==
              Prefix(init, msgs, k).out + [Int(Signed(msgs[k].data * 0x1_0000 + msgs[j].data))]
    ensures Prefix(init, msgs, k + 1).acc[msgs[k].id] == msgs[k].data * 0x1_0000 + msgs[j].data
  {
    var c := msgs[j].id;
    PrintIntLowSetsSlot(init, msgs, j);
    SlotUntouched(init, msgs, c, j + 1, k);
    var s := Prefix(init, msgs, k);
    assert s.acc[c] == msgs[j].data;
    PrefixStep(init, msgs, k);
    PrefixRunning(init, msgs, k);
    JoinHalves(msgs[j].data, msgs[k].data);
    assert OrHigh(s.acc[c], msgs[k].data) == msgs[k].data * 0x1_0000 + msgs[j].data;
  }

  /** The tohost loop as written: rounds of `coreNum` blocking receives from
      one queue, the loop index never used, an early exit on ExitCode, and
      `print_int` updated in place. It reads exactly the messages up to and
      including the first ExitCode, and its output and verdict are those of
      the flat fold, for every `coreNum >= 1`. */
  method RunImage(msgs: seq<ToHost>, coreNum: nat, init: seq<u32>)
    returns (out: seq<Event>, outcome: Outcome, consumed: nat)
    requires coreNum >= 1 && |init| == coreNum
    requires HasExit(msgs) && Addressed(msgs, coreNum)
    ensures consumed == ExitIndex(msgs) + 1
    ensures outcome == Run(init, msgs).status.outcome
    ensures out == Run(init, msgs).out + [Newline]
  {
    var printInt := new u32[coreNum](j requires 0 <= j < coreNum => init[j]);
    assert printInt[..] == init;
    var finish := false;
    var pos := 0;
    out := [];
    outcome := Passed;  // set by the ExitCode branch before the loop can end
    while !finish
      invariant pos <= ExitIndex(msgs) + 1
      invariant finish <==> pos == ExitIndex(msgs) + 1
      invariant Prefix(init, msgs, pos) ==
                  State(printInt[..], out, if finish then Done(outcome) else Running)
      decreases ExitIndex(msgs) + 1 - pos
    {
      ghost var roundStart := pos;
      for i := 0 to coreNum
        invariant !finish
        invariant pos == roundStart + i
        invariant pos <= ExitIndex(msgs)
        invariant Prefix(init, msgs, pos) == State(printInt[..], out, Running)
      {
        PrefixStep(init, msgs, pos);
        ghost var before := State(printInt[..], out, Running);
        var msg := msgs[pos];  // tohost.getMessage()
        pos := pos + 1;
        assert Prefix(init, msgs, pos) == Step(before, msg);
        var coreid := msg.id;
        var kind := msg.kind;
        var data := msg.data;
        if kind == ExitCode {
          if data == 0 {
            outcome := Passed;
          } else {
            outcome := Failed(data);
          }
          out := out + [Report(outcome)];
          finish := true;
          break;
        } else if kind == PrintChar {
          out := out + [Char(LowByte(data))];
        } else if kind == PrintIntLow {
          printInt[coreid] := data;
        } else if kind == PrintIntHigh {
          printInt[coreid] := OrHigh(printInt[coreid], data);
          out := out + [Int(Signed(printInt[coreid]))];
        }
      }
    }
    out := out + [Newline];
    consumed := pos;
  }
}
