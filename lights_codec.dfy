/**
 * The radio frames of the single-strip light controller (lights/main.ts).
 * `broadcast` sends three bytes `[tag, brightness, colorMode ? 1 : 0]`;
 * the receive handler reads the tag from byte 0 and the fields after it.
 * A read past the end of a buffer yields 0, as MakeCode's
 * `Buffer.getNumber` does.
 */
module LightsCodec {
  import opened Wrappers
  import opened Bits

  newtype byte = x: int | 0 <= x < 256

  /** `setNumber(NumberFormat.UInt8LE, i, x)` stores the low byte of `x`. */
  function ToByte(x: int): (b: byte)
    ensures 0 <= x < 256 ==> b as int == x
  {
    (x % 256) as byte
  }

  /** The `Message` enum of the light protocol. */
  datatype Tag = Light | Awake | Voltage

  function TagCode(tag: Tag): (c: byte)
    ensures c != 0
  {
    match tag
    case Light => 1
    case Awake => 3
    case Voltage => 4
  }

  /** `getNumber(NumberFormat.UInt8LE, i)`: byte i, or 0 past the end. */
  function ReadU8(buf: seq<byte>, i: nat): (v: int)
    ensures 0 <= v < 256
    ensures i < |buf| ==> v == buf[i] as int
    ensures i >= |buf| ==> v == 0
  {
    if i < |buf| then buf[i] as int else 0
  }

  /**
   * `getNumber(NumberFormat.Int32LE, off)`: four bytes from `off`, least
   * significant first, read as a signed 32-bit number; 0 when the four
   * bytes do not all lie in the buffer.
   */
  function ReadI32LE(buf: seq<byte>, off: nat): (v: int)
    ensures -Two31 <= v < Two31
    ensures off + 4 > |buf| ==> v == 0
  {
    if off + 4 <= |buf| then
      Int32(buf[off] as int + 0x100 * (buf[off + 1] as int + 0x100 * (buf[off + 2] as int + 0x100 * buf[off + 3] as int)))
    else 0
  }

  /** The frame `broadcast(tag)` sends for a brightness and a colour mode. */
  function Frame(tag: Tag, brightness: int, colorMode: bool): (f: seq<byte>)
    ensures |f| == 3 && f[0] == TagCode(tag)
    ensures 0 <= brightness < 256 ==> f[1] as int == brightness
    ensures f[2] == (if colorMode then 1 else 0)
  {
    [TagCode(tag), ToByte(brightness), if colorMode then 1 else 0]
  }

  /** What a received frame tells the node. */
  datatype Message = LightState(brightness: int, colorMode: bool) | AwakeRequest | VoltageReport(value: int)

  /**
   * The receive handler's decoding. A Light frame carries a brightness
   * byte and a colour mode that is on for any non-zero byte; an Awake
   * frame carries nothing; a Voltage frame carries a signed 32-bit
   * reading in bytes 1 to 4 and is dropped when shorter than 5 bytes. Any
   * other tag yields nothing.
   */
  function Decode(buf: seq<byte>): (m: Option<Message>)
    ensures ReadU8(buf, 0) == TagCode(Light) as int <==> m.Some? && m.value.LightState?
    ensures ReadU8(buf, 0) == TagCode(Awake) as int <==> m == Some(AwakeRequest)
    ensures m.Some? && m.value.VoltageReport? <==> ReadU8(buf, 0) == TagCode(Voltage) as int && |buf| >= 5
    ensures m.Some? && m.value.LightState? ==>
              0 <= m.value.brightness < 256 && (m.value.colorMode <==> ReadU8(buf, 2) != 0)
  {
    var tag := ReadU8(buf, 0);
    if tag == TagCode(Light) as int then Some(LightState(ReadU8(buf, 1), ReadU8(buf, 2) != 0))
    else if tag == TagCode(Awake) as int then Some(AwakeRequest)
    else if tag == TagCode(Voltage) as int && |buf| >= 5 then Some(VoltageReport(ReadI32LE(buf, 1)))
    else None
  }

  /** A Light frame decodes to the brightness and colour mode it was built from. */
  lemma LightFrameRoundTrip(brightness: int, colorMode: bool)
    requires 0 <= brightness < 256
    ensures Decode(Frame(Light, brightness, colorMode)) == Some(LightState(brightness, colorMode))
  {
  }

  /** An Awake frame decodes to an Awake request, whatever the other two bytes hold. */
  lemma AwakeFrameRoundTrip(brightness: int, colorMode: bool)
    ensures Decode(Frame(Awake, brightness, colorMode)) == Some(AwakeRequest)
  {
  }

  /** The 5-byte Voltage frame: the tag, then the reading's 32-bit pattern, least significant byte first. */
  function VoltageFrame(value: int): (f: seq<byte>)
    ensures |f| == 5 && f[0] == TagCode(Voltage)
  {
    var u := value % Two32;
    [TagCode(Voltage), ToByte(u), ToByte(u / 0x100), ToByte(u / 0x1_0000), ToByte(u / 0x100_0000)]
  }

  /** The four bytes of a 32-bit pattern put back together give the pattern. */
  lemma {:induction false} BytesRecombine(u: int)
    requires 0 <= u < Two32
    ensures u % 256 + 0x100 * ((u / 0x100) % 256 + 0x100 * ((u / 0x1_0000) % 256 + 0x100 * ((u / 0x100_0000) % 256))) == u
  {
    var q1 := u / 0x100;
    var q2 := q1 / 0x100;
    var q3 := q2 / 0x100;
    assert u == q1 * 0x100 + u % 256;
    assert q1 == q2 * 0x100 + q1 % 256;
    assert q2 == q3 * 0x100 + q2 % 256;
    assert u / 0x1_0000 == q2;
    assert u / 0x100_0000 == q3;
    assert q3 < 256;
  }

  /** A Voltage frame decodes to the reading it was built from, for every signed 32-bit reading. */
  lemma {:induction false} VoltageFrameRoundTrip(value: int)
    requires -Two31 <= value < Two31
    ensures Decode(VoltageFrame(value)) == Some(VoltageReport(value))
  {
    var u := value % Two32;
    var f := VoltageFrame(value);
    BytesRecombine(u);
    assert f[1] as int + 0x100 * (f[2] as int + 0x100 * (f[3] as int + 0x100 * f[4] as int)) == u;
    if value >= 0 {
      Int32Small(u);
    } else {
      assert u == value + Two32;
      Int32Wrap(u);
    }
  }

  /**
   * The Voltage branch as written: `getNumber(Int32LE, 1)` on whatever
   * frame arrived, with no check of its length.
   */
  function VoltageAsWritten(buf: seq<byte>): (v: int)
    ensures -Two31 <= v < Two31
    ensures |buf| < 5 ==> v == 0
  {
    ReadI32LE(buf, 1)
  }

  /**
   * As written, a Voltage frame in the node's own 3-byte layout sets the
   * voltage to 0, whatever its bytes; the corrected decoding drops it.
   */
  lemma VoltageAsWrittenOnThreeBytes(brightness: int, colorMode: bool)
    ensures VoltageAsWritten(Frame(Voltage, brightness, colorMode)) == 0
    ensures Decode(Frame(Voltage, brightness, colorMode)) == None
  {
  }
}
