/** The device-to-host status protocol of the test bench: the messages the
    cores send on the tohost port, the events the host writes to its
    diagnostic stream, and the fixed-width arithmetic the decoder uses.
    Fixed-width C integers are bounded naturals; the one bitwise operator
    the decoder needs, `|`, is written out bit by bit. */
module Protocol {

  type u8 = x: int | 0 <= x < 0x100
  type u16 = x: int | 0 <= x < 0x1_0000
  type u32 = x: int | 0 <= x < 0x1_0000_0000

  /** The type tag of a status message (CpuToHostType). `Unknown` stands for
      any tag value the decoder has no branch for. */
  datatype CpuToHostType = ExitCode | PrintChar | PrintIntLow | PrintIntHigh | Unknown

  /** One ToHost message: the sending core, the type tag and the 16-bit payload. */
  datatype ToHost = ToHost(id: u32, kind: CpuToHostType, data: u16)

  /** How a run ends: the exit code 0 passes, any other code fails. */
  datatype Outcome = Passed | Failed(code: u16)

  /** What the host writes to stderr, as abstract events rather than text:
      a character, a signed decimal integer, the PASSED / FAILED line, a line
      break, the per-image banner and the usage message. */
  datatype Event =
    | Char(c: u8)
    | Int(v: int)
    | Report(outcome: Outcome)
    | Newline
    | Banner(file: string)
    | Usage

  /** The memory-initialisation message; the host only ever sends the "done" tag. */
  datatype WideMemInit = InitDone

  /** The start address the host sends before a run. */
  const StartPc: u32 := 0x200

  /** True when the message's handler indexes the per-core accumulator with its id. */
  predicate UsesSlot(m: ToHost) {
    m.kind.PrintIntLow? || m.kind.PrintIntHigh?
  }

  /** The verdict an ExitCode payload stands for. */
  function OutcomeOf(data: u16): (o: Outcome)
    ensures o.Passed? <==> data == 0
    ensures o.Failed? ==> o.code == data
  {
    if data == 0 then Passed else Failed(data)
  }

  /** The byte `(char)data` prints: the one byte value congruent to the payload
      modulo 256, i.e. its low eight bits. */
  function LowByte(data: u16): (b: u8)
    ensures (data - b) % 0x100 == 0
  {
    data % 0x100
  }

  function Pow2(n: nat): (r: nat)
    ensures r >= 1
  {
    if n == 0 then 1 else 2 * Pow2(n - 1)
  }

  /** Bitwise OR of two naturals, least significant bit first. */
  function BitOr(a: nat, b: nat): (r: nat)
    ensures a <= r && b <= r
    decreases a + b
  {
    if a == 0 then b
    else if b == 0 then a
    else 2 * BitOr(a / 2, b / 2) + (if a % 2 == 1 || b % 2 == 1 then 1 else 0)
  }

  /** `BitOr` is bitwise OR: its lowest bit is set exactly when either
      operand's is, and its remaining bits are the OR of theirs. */
  lemma BitOrBits(a: nat, b: nat)
    ensures BitOr(a, b) % 2 == (if a % 2 == 1 || b % 2 == 1 then 1 else 0)
    ensures BitOr(a, b) / 2 == BitOr(a / 2, b / 2)
  {
  }

  /** OR-ing two `width`-bit values gives a `width`-bit value. */
  lemma {:induction false} BitOrBelow(a: nat, b: nat, width: nat)
    requires a < Pow2(width) && b < Pow2(width)
    ensures BitOr(a, b) < Pow2(width)
    decreases width
  {
    if a != 0 && b != 0 {
      BitOrBelow(a / 2, b / 2, width - 1);
    }
  }

  lemma Pow2Of16()
    ensures Pow2(16) == 0x1_0000
  {
    assert Pow2(4) == 16;
    assert Pow2(8) == 256;
    assert Pow2(12) == 4096;
  }

  /** A 32-bit value is its upper half times 2^16 plus its lower half. */
  lemma Halves(lo: int, hi: int)
    requires 0 <= lo < 0x1_0000 && 0 <= hi < 0x1_0000
    ensures 0 <= hi * 0x1_0000 + lo < 0x1_0000_0000
    ensures (hi * 0x1_0000 + lo) / 0x1_0000 == hi
    ensures (hi * 0x1_0000 + lo) % 0x1_0000 == lo
  {
  }

  /** Bitwise OR of two 16-bit values. */
  function Or16(a: u16, b: u16): (r: u16)
    ensures a <= r && b <= r
    ensures a == 0 ==> r == b
  {
    Pow2Of16();
    BitOrBelow(a, b, 16);
    BitOr(a, b)
  }

  /** `slot |= uint32_t(high) << 16`: the lower half of the slot is kept and
      the payload is OR-ed into its upper half. */
  function OrHigh(slot: u32, high: u16): (v: u32)
    ensures v % 0x1_0000 == slot % 0x1_0000
    ensures v / 0x1_0000 == Or16(slot / 0x1_0000, high)
  {
    var hi := Or16(slot / 0x1_0000, high);
    Halves(slot % 0x1_0000, hi);
    hi * 0x1_0000 + slot % 0x1_0000
  }

  /** The value `%d` prints for a uint32_t: its two's-complement reading,
      the one int in the signed 32-bit range congruent to it modulo 2^32. */
  function Signed(v: u32): (r: int)
    ensures -0x8000_0000 <= r < 0x8000_0000
    ensures r == v || r == v - 0x1_0000_0000
    ensures r >= 0 <==> v < 0x8000_0000
  {
    if v < 0x8000_0000 then v else v - 0x1_0000_0000
  }

  /** A slot that holds a zero-extended low half and then receives a high
      half holds exactly `(high << 16) | low`, that is `high * 65536 + low`. */
  lemma JoinHalves(low: u16, high: u16)
    ensures OrHigh(low, high) == high * 0x1_0000 + low
  {
  }
}
