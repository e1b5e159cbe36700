/**
 * The radio protocol of the multi-strip bus controller (main.ts), and the
 * controller's mode and brightness steps.
 *
 * A message is a single 32-bit integer `value << 8 | tag`; the receiver
 * takes the tag from the low byte and the value from the next byte.
 */
module BusProtocol {
  import opened Wrappers
  import opened Bits

  /** The `Message` enum of the bus protocol; a tag's code is its ordinal. */
  datatype Tag = Brightness | Mode

  function TagCode(tag: Tag): (c: int)
    ensures 0 <= c < 256
  {
    match tag
    case Brightness => 0
    case Mode => 1
  }

  /** `value << 8 | t` with a byte value and a byte tag does not overlap: it is `value * 256 + t`. */
  lemma {:induction false} ShiftOrByte(value: int, t: int)
    requires 0 <= t < 256
    ensures 0 <= value <= 255 ==> Or32(Shl(value, 8), t) == value * 0x100 + t
  {
    if 0 <= value <= 255 {
      var n := value * 0x100 + t;
      Pow2Bytes();
      Int32Small(value * 0x100);
      assert Shl(value, 8) == Int32(value * Pow2(8));
      OrIntoClearBits(value, t, 8);
      Int32Small(n);
    }
  }

  /**
   * `sendState(msg, value)`: the number handed to the radio, a signed
   * 32-bit integer; a byte value sits in the second byte above the tag.
   */
  function PackState(tag: Tag, value: int): (n: int)
    ensures -Two31 <= n < Two31
    ensures 0 <= value <= 255 ==> n == value * 0x100 + TagCode(tag)
  {
    ShiftOrByte(value, TagCode(tag));
    Or32(Shl(value, 8), TagCode(tag))
  }

  /** What a received number asks the controller to do. */
  datatype Command = SetBrightness(brightness: int) | SelectMode(mode: int)

  function CommandOf(tag: Tag, value: int): (c: Command)
  {
    match tag
    case Brightness => SetBrightness(value)
    case Mode => SelectMode(value)
  }

  /**
   * The receive handler's decoding: tag `n & 0xff`, value `(n >> 8) & 0xff`.
   * An unknown tag yields no command; a value is always one byte.
   */
  function DecodeState(n: int): (c: Option<Command>)
    ensures c.None? <==> LowByte(n) > 1
    ensures LowByte(n) == 0 ==> c.Some? && c.value.SetBrightness?
    ensures LowByte(n) == 1 ==> c.Some? && c.value.SelectMode?
    ensures c.Some? && c.value.SetBrightness? ==> 0 <= c.value.brightness <= 255
    ensures c.Some? && c.value.SelectMode? ==> 0 <= c.value.mode <= 255
  {
    var tag := LowByte(n);
    var value := LowByte(n / 0x100);
    if tag == 0 then Some(SetBrightness(value))
    else if tag == 1 then Some(SelectMode(value))
    else None
  }

  /** Packing then unpacking gives back the tag and the value, for every value of one byte. */
  lemma {:induction false} PackStateRoundTrip(tag: Tag, value: int)
    requires 0 <= value <= 255
    ensures PackState(tag, value) == value * 0x100 + TagCode(tag)
    ensures DecodeState(PackState(tag, value)) == Some(CommandOf(tag, value))
  {
    DivMod256(value, TagCode(tag));
  }

  /** `enum Mode { Off, Ambient, Party, Last }`: `Last` only counts the modes. */
  datatype Mode = Off | Ambient | Party

  const ModeLast := 3

  function Ordinal(m: Mode): (k: nat)
    ensures k < ModeLast
  {
    match m
    case Off => 0
    case Ambient => 1
    case Party => 2
  }

  function ModeAt(k: nat): (m: Mode)
    requires k < ModeLast
    ensures Ordinal(m) == k
  {
    if k == 0 then Off else if k == 1 then Ambient else Party
  }

  /** Button AB: `(mode + 1) % Mode.Last`, which cycles Off, Ambient, Party. */
  function NextMode(m: Mode): (r: Mode)
    ensures m == Off ==> r == Ambient
    ensures m == Ambient ==> r == Party
    ensures m == Party ==> r == Off
  {
    ModeAt((Ordinal(m) + 1) % ModeLast)
  }

  /**
   * Buttons A and B: `(brightness + 8) % 0xff`. The brightness wraps to a
   * low value past 246 instead of saturating, and never reaches 255.
   */
  function NextBrightness(b: int): (r: int)
    requires 0 <= b <= 255
    ensures 0 <= r <= 254
    ensures b + 8 < 255 ==> r == b + 8
    ensures b + 8 >= 255 ==> r == b + 8 - 255 && r < b
  {
    (b + 8) % 0xff
  }
}
