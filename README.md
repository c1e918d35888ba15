# Test-bench status decoder (scemi/Tb.cpp)

This project models the host side of the co-emulation test bench: the
program `main` in `scemi/Tb.cpp`, which loads each image named on the command
line, starts the cores and then decodes the status messages (`ToHost`) the
cores send back until one of them reports an exit code.

The decoder is the core of the model. It reads one queue of messages. Each
message carries a core id, a type tag (`CpuToHostType`) and a 16-bit payload.
The decoder keeps one 32-bit accumulator per core (`print_int`) and reacts to
each tag as follows:

- `PrintChar` prints the low byte of the payload.
- `PrintIntLow` stores the zero-extended payload in the sender's accumulator.
- `PrintIntHigh` ORs the payload, shifted left by 16, into that accumulator
  and prints the result with `%d`.
- `ExitCode` prints PASSED for payload 0 and FAILED with the code otherwise,
  and ends the run at once.
- Any other tag is ignored.

The model has three modules:

- `Protocol` (`protocol.dfy`) holds the message and event types and the
  fixed-width arithmetic. The arithmetic covers the low byte, a bit-by-bit OR,
  the `<< 16` merge and the signed 32-bit reading of `%d`.
- `Decoder` (`decoder.dfy`) gives the reference semantics: a pure left fold
  (`Step`, `Fold`, `Run`) over the stream. `RunImage` is the loop as written:
  a `while (!finish)` around a `for (i < CORE_NUM)` with an early `break` and
  an in-place accumulator array. `RunImage` is proved to read exactly the
  messages up to and including the first ExitCode, and to produce exactly the
  fold's output and verdict, for every core count of at least 1. The loop index
  `i` never selects a core, so grouping the messages into rounds changes
  nothing.
- `Driver` (`driver.dfy`) covers `main` and `mem_init`:
  - the argument check;
  - one banner, one InitDone and one start command (`0x200`) per image;
  - one decoder run per image, each picking up the shared stream where the
    previous run stopped.

  An outbound port is a class whose `sent` field logs what has been sent on it.

Output is a sequence of abstract events (`Char`, `Int`, `Report`, `Newline`,
`Banner`, `Usage`), not formatted text.

Two behaviours of the code are worth noting, and the model states both:

- A run writes PASSED or FAILED first and the trailing line break after it
  (lines 84-88, then line 101).
- `main` returns 0 after all images have run, even when an image reported
  FAILED (line 109). `Driver.RunDriver` and `Driver.FailedScenario` state this.

## Model

| member | source | states |
|---|---|---|
| Protocol.OutcomeOf | scemi/Tb.cpp:83-88 | the verdict is PASSED exactly when the exit payload is 0; otherwise it is FAILED carrying that payload |
| Protocol.LowByte | scemi/Tb.cpp:92 | `(char)data` is the one byte congruent to the payload modulo 256 |
| Protocol.BitOr | scemi/Tb.cpp:96 | bitwise OR is at least each operand |
| Protocol.BitOrBits | scemi/Tb.cpp:96 | `BitOr` is bitwise OR: its lowest bit is set exactly when either operand's is, and its higher bits are the OR of the operands' higher bits |
| Protocol.BitOrBelow | scemi/Tb.cpp:96 | OR of two `width`-bit values fits in `width` bits |
| Protocol.Or16 | scemi/Tb.cpp:96 | OR of two 16-bit halves is a 16-bit value no smaller than either; OR with 0 is the identity |
| Protocol.OrHigh | scemi/Tb.cpp:96 | OR-ing `high << 16` into the slot keeps the lower half and ORs the payload into the upper half |
| Protocol.Signed | scemi/Tb.cpp:97 | `%d` of a uint32_t prints the unique signed 32-bit value congruent to it modulo 2^32, negative exactly when bit 31 is set |
| Protocol.JoinHalves | scemi/Tb.cpp:93-97 | a slot holding a zero-extended low half becomes `high * 65536 + low` after the high half is OR-ed in |
| Decoder.Start | scemi/Tb.cpp:74-75 | a run starts with `print_int` holding its indeterminate initial contents, nothing written and `finish` false |
| Decoder.ExitIndex | scemi/Tb.cpp:76-90 | the position returned lies within the stream and, when inside it, holds an ExitCode (`Decoder.BeforeExit` shows it is the first) |
| Decoder.BeforeExit | scemi/Tb.cpp:83-90 | no message before the first ExitCode is an ExitCode |
| Decoder.ExitIndexTake | scemi/Tb.cpp:76-90 | a prefix that stops at or before the first ExitCode holds no ExitCode |
| Decoder.AddressedAt | scemi/Tb.cpp:93-96 | every PrintIntLow/High message a run handles names an existing core |
| Decoder.AddressedPrefix | scemi/Tb.cpp:93-96 | the messages a run handles index only existing accumulator slots |
| Decoder.Step | scemi/Tb.cpp:79-98 | one message changes neither the number of slots nor the output already written, writes at most one event, and ends the run exactly on an ExitCode; after the end nothing changes |
| Decoder.Fold | scemi/Tb.cpp:76-100 | the fold only appends output and has ended exactly when the stream held an ExitCode |
| Decoder.Run | scemi/Tb.cpp:76-90 | a run's verdict is its first ExitCode's; its output is what the messages before that ExitCode wrote, followed by the report |
| Decoder.FoldSnoc | scemi/Tb.cpp:76-100 | handling one more message is one more step of the fold |
| Decoder.FoldAppend | scemi/Tb.cpp:76-100 | handling two stretches of messages is handling the first, then the second |
| Decoder.FoldDone | scemi/Tb.cpp:89-90 | after the run has ended, further messages change nothing |
| Decoder.PrefixRunning | scemi/Tb.cpp:83-90 | before the first ExitCode the run has not finished |
| Decoder.PrefixStep | scemi/Tb.cpp:78-98 | message `k` is handled by one step on the state the earlier messages left |
| Decoder.OnlyPrints | scemi/Tb.cpp:91-97 | before the first ExitCode a run writes only characters and integers |
| Decoder.StopsAtFirstExit | scemi/Tb.cpp:76-90 | messages after the first ExitCode change neither the verdict, nor the output, nor the accumulators |
| Decoder.PrintCharEmitsLowByte | scemi/Tb.cpp:91-92 | PrintChar writes exactly one character, the payload's low byte, and leaves accumulators and status unchanged |
| Decoder.PrintIntLowSetsSlot | scemi/Tb.cpp:93-94 | PrintIntLow sets the sender's slot to the payload, discarding its old upper half; it changes no other slot and writes nothing |
| Decoder.UnknownTagIgnored | scemi/Tb.cpp:83-98 | a message with any other tag changes no state and writes nothing |
| Decoder.SlotUntouched | scemi/Tb.cpp:93-96 | a core's slot keeps its value across messages that do not index it |
| Decoder.LowThenHigh | scemi/Tb.cpp:93-97 | PrintIntLow(l) and a later PrintIntHigh(h) from the same core print `h << 16` OR-ed with `l`, read as a signed 32-bit int, whatever other cores send between them |
| Decoder.RunImage | scemi/Tb.cpp:74-101 | the nested loop reads exactly the messages up to and including the first ExitCode; its output is the fold's plus the line break, and its verdict is the fold's, for any core count of at least 1 |
| Driver.InportProxy.constructor | scemi/Tb.cpp:40-42 | a fresh port has sent nothing |
| Driver.InportProxy.SendMessage | scemi/Tb.cpp:71 | sending appends the message to what the port has sent |
| Driver.MemInit | scemi/Tb.cpp:13-26 | it sends exactly one InitDone and always reports success |
| Driver.ExitCountOfRun | scemi/Tb.cpp:76-90 | the messages one run consumes hold exactly one ExitCode |
| Driver.Consumed | scemi/Tb.cpp:50-101 | the position where image `i`'s run starts reading lies within the stream (`Driver.ConsumedExits` shows it is just past the `i`-th ExitCode) |
| Driver.ImageReady | scemi/Tb.cpp:50-78 | each image of a feasible sequence finds an ExitCode in the stream left to it and reads only existing slots |
| Driver.NextImage | scemi/Tb.cpp:76-90 | one image's run consumes one more ExitCode, and that ExitCode is the last message it reads |
| Driver.ConsumedExits | scemi/Tb.cpp:50-101 | after `i` images the stream has been read exactly up to and including its `i`-th ExitCode |
| Driver.ImageLog | scemi/Tb.cpp:56-101 | what one image writes starts with its banner and ends with the PASSED/FAILED line for its first ExitCode followed by the line break |
| Driver.DriveLog | scemi/Tb.cpp:50-102 | what the image loop writes for `k` images holds at least three events per image, starts with the first image's banner and ends with a line break |
| Driver.DriveLogGrows | scemi/Tb.cpp:50-102 | each later image only appends to what the earlier images wrote |
| Driver.ImageLogShape | scemi/Tb.cpp:56-101 | each image writes its banner, then only characters and integers, then PASSED/FAILED for its ExitCode, then a line break |
| Driver.OkScenario | scemi/Tb.cpp:50-101 | one core printing 'O' and 'K' and exiting with 0 gives banner, "OK", PASSED and a line break, and consumes all three messages |
| Driver.FailedScenario | scemi/Tb.cpp:83-101 | one core exiting with 5 gives banner, FAILED with code 5 and a line break |
| Driver.RunOne | scemi/Tb.cpp:54-101 | one image writes its banner and its run's output, sends one InitDone and one start command, and moves the stream position past its ExitCode |
| Driver.RunImages | scemi/Tb.cpp:50-102 | the image loop writes every image's log in order, sends one InitDone and one start command per image, and reads the stream up to the last image's ExitCode |
| Driver.RunDriver | scemi/Tb.cpp:28-110 | with no image it writes the usage line, sends nothing and returns 1; otherwise it returns 0 whatever the verdicts, and sends one InitDone and one `0x200` start command per image. Each image's run continues the stream where the previous one stopped, and the images together read exactly up to and including their own ExitCodes |

## Left out

- The co-emulation session is not modelled: `SceMi::Init` and `Shutdown`, the service thread, the shutdown transactor and their calls (lines 35-47 and 104-107). These are calls into a vendor library and a background thread.
- Loading the memory image is not modelled. Its body is empty in the source (lines 17-19), and the commented-out reset transactor is left out as well.
- The load-failure branch (lines 59-68) is not modelled: `mem_init` always returns true, so it is unreachable. `Driver.RunOne` asserts that the branch is not taken.
- Text formatting of `fprintf` and `std::cout` is not modelled. Output is a sequence of abstract events.
- Decoder.RunImage: requires that every PrintIntLow/High message before the first ExitCode names a core below the core count. The source does no bounds check, and an out-of-range id is undefined behaviour in C++.
- Decoder.RunImage: requires an ExitCode somewhere in the stream. `tohost.getMessage()` blocks with no timeout, so without one the program hangs; the model takes a finite stream instead.
- Driver.RunDriver: requires, for the same two reasons, that each image in turn finds an in-range stream with an ExitCode (`Feasible`).
- Decoder.StopsAtFirstExit: requires every message of the whole stream, including those after the ExitCode, to name an existing core. The reference fold is only defined on such streams.
- The initial contents of the uninitialised `print_int` array (line 74) are a parameter (`init`, one per image in `Driver.RunDriver`). So a PrintIntHigh with no earlier PrintIntLow for its core prints a value the model leaves open.
- Protocol.Or16: states bounds and the zero identity only. Its full meaning is the bit-by-bit definition `Protocol.BitOr`.
- C's `int` width of `file_number` and `argc` is not modelled. Image counts are unbounded naturals.
