# wazoblu controllers, modelled in Dafny

wazoblu lights a camper bus with micro:bit boards. This project models two of its programs.

- **The bus controller (`main.ts`).** It drives two neopixel strips. The ceiling strip has 299 pixels. The wall strip has 298 pixels and is cut into four segments: counter top, AC, stove and seats. The controller keeps a state record (last command time, brightness, mode, list of animations). Its buttons change that state and send it on the radio as one packed number (`value << 8 | tag`). When it receives such a number, it either sets the brightness or rebuilds its animations with `setMode`.
  - An ambient animation is meant to seed its strip with a gradient below a grey target, darkened by a random walk `d`. On each tick the strip scrolls by one pixel and takes a new head pixel. As written, the code shifts red past the byte the strip reads, so a pixel has no red while `d` stays within every channel of the target. The code caps only the steps of `d`, not `d` itself, so `d` can pass a channel. That channel then goes negative, and its sign bits fill the red byte (see Findings). The model's animations use the corrected pixel and drift.
  - A party animation does nothing.
- **The single-strip light controller (`lights/main.ts`).** It keeps a brightness, a colour mode, a heartbeat and a voltage.
  - Its buttons dim, brighten, switch the light off or to full, or toggle colour mode. Every change is broadcast as a 3-byte frame `[tag, brightness, colorMode]`.
  - A liveness loop is meant to switch off a node whose heartbeat is too old. As written, its condition never holds (see Findings). The model's loop uses the corrected condition.
  - The receive handler takes on a Light frame, answers an Awake frame, and records a Voltage frame.
  - `render` turns the state and the time into the levels of four output pins.

Modules:

| module | file | contents |
|---|---|---|
| `Wrappers` | wrappers.dfy | `Option` |
| `Bits` | bits.dfy | JavaScript's 32-bit bitwise or, left shift (ToInt32) and byte mask, on unbounded integers |
| `BusProtocol` | bus_protocol.dfy | packed radio numbers, `Mode`, the brightness and mode steps |
| `BusStrip` | bus_strip.dfy | strip ids, the wall segments, and `Strip`, a view (start and length) on a shared pixel `array` |
| `BusAnimation` | bus_animation.dfy | colour packing, the drift walk, and the `Animation` class |
| `Bus` | bus.dfy | `setMode`'s plans and the `Controller` class (the `state` record and its handlers) |
| `LightsCodec` | lights_codec.dfy | the 3-byte frames and their decoding |
| `LightsRender` | lights_render.dfy | `render` as a function returning four levels |
| `Lights` | lights.dfy | the `LightNode` class (module variables and handlers) |

How the environment is modelled:

- A radio send appends to a `sent` sequence.
- `input.runningTime()` is a parameter `now`.
- `Math.random(3)` is a nondeterministic choice in {0, 1, 2}. The choices an animation has made are kept in a ghost field `rolls`.
- The levels `render` writes to the pins are returned to the caller.
- The animations `setMode` pushes (main.ts:116-124) are the entries of a plan, `Bus.ModePlan`. `Bus.Controller.PushPlan` pushes them in the code's order, one `Bus.Controller.Push` per entry.

### Behaviour of the code the model keeps

- `pins.map(128, 0, 255, 0, 1023)` is 513 when taken with floor division (`LightsRender.RenderHalfWhite`).
- The drift step `max(0, min(maxd, random(3) - 1))` is 0 or 1, never 2.
- Only `broadcast` refreshes the heartbeat (lights/main.ts:98). Receiving a Light frame does not (lights/main.ts:111-115).
- Buttons A and B of the bus controller both step the brightness up by 8 modulo 255 (main.ts:162-171).
- In colour mode, blue is `v - r - g`, which is always 0 (lights/main.ts:35).
- A received Mode message runs `setMode` and leaves `state.mode` as it was (main.ts:151-152).
- Button AB changes `state.mode` and sends it, and leaves the sender's own animations as they were (main.ts:173-177).

## Model

| member | source | states |
|---|---|---|
| BusProtocol.TagCode | main.ts:132-135 | a message tag's code is a byte |
| BusProtocol.DecodeState | main.ts:144-147 | a received number yields no command exactly when its low byte is neither 0 nor 1; tag 0 is a brightness and tag 1 a mode; the value is always a byte |
| BusProtocol.ShiftOrByte | main.ts:141 | with a byte value and a byte tag, `value << 8` or-ed with the tag is `value * 256 + tag` |
| BusProtocol.PackState | main.ts:140-143 | `sendState`'s number is a signed 32-bit integer, and for a byte value it is `value * 256 + tag` |
| BusProtocol.PackStateRoundTrip | main.ts:140-146 | for a value of one byte, the value shifted left by 8 and or-ed with the tag is `value * 256 + tag`, and unpacking it gives back the same tag and value |
| BusProtocol.ModeAt | main.ts:40-45 | the mode with a given ordinal below `Mode.Last` has that ordinal |
| BusProtocol.NextMode | main.ts:175 | `(mode + 1) % Mode.Last` cycles Off to Ambient to Party to Off |
| BusProtocol.NextBrightness | main.ts:164 | `(b + 8) % 0xff` stays in [0, 254]; it adds 8 below 247, and from 247 on it wraps to a smaller value instead of saturating |
| BusStrip.WallSegments | main.ts:20-23 | the four wall segments start at 0, follow one another with no gap, and end where the wall strip ends |
| BusStrip.WallSegmentsPartition | main.ts:20-23 | a pixel lies on the wall strip exactly when some segment covers it, and no two segments cover the same pixel |
| BusStrip.RotatedForward | main.ts:97 | `rotate()` keeps the length, moves every pixel one place up, and brings the last pixel round to the front |
| BusStrip.RotatedForwardPermutes | main.ts:97 | rotating loses no pixel and duplicates none (same multiset) |
| BusStrip.ApartPixelsKept | main.ts:20-23 | a strip apart from another one keeps all its pixels while writes stay inside the other one's range |
| BusStrip.Strip.Create | main.ts:14-15 | `neopixel.create` gives a fresh buffer of the strip's length |
| BusStrip.Strip.View | main.ts:20-23 | `range(offset, length)` shares its parent's buffer at the parent's start plus the offset |
| BusStrip.Strip.SetPixelColor | main.ts:87 | writes pixel i of the strip, ignores an index outside it, and leaves the rest of the shared buffer alone |
| BusStrip.Strip.Rotate | main.ts:97 | the strip's pixels become their forward rotation; the rest of the shared buffer is unchanged |
| BusStrip.Strip.ShiftUp | main.ts:97 | every pixel but the first takes the colour of the one below it; pixels outside the strip keep theirs |
| BusAnimation.PackColorBytes | main.ts:85 | three bytes or-ed together with red shifted by 16 or 24 do not overlap: the word is ToInt32 of their weighted sum |
| BusAnimation.Red | main.ts:79 | `(c >> 16) & 0xff` is always a byte |
| BusAnimation.Green | main.ts:80 | `(c >> 8) & 0xff` is always a byte |
| BusAnimation.Blue | main.ts:81 | `c & 0xff` is always a byte |
| BusAnimation.ChannelsOfSum | main.ts:79-81 | the channel readers `(c >> 16) & 0xff`, `(c >> 8) & 0xff` and `c & 0xff` take a word of three bytes apart |
| BusAnimation.PackColorChannels | main.ts:79-81 | three bytes packed with red at bit 16 give back each byte through its channel reader |
| BusAnimation.RgbChannels | main.ts:116-120 | a colour from `neopixel.rgb(r, g, b)` gives back each channel modulo 256 |
| BusAnimation.PackColorHighRedReadsZero | main.ts:85 | with red shifted by 24, the red channel reader finds 0 for any bytes |
| BusAnimation.HighRedOfSum | main.ts:85 | a red byte at bit 24 is outside what the red reader sees, whether or not the word wraps to a negative number |
| BusAnimation.MaxDrift | main.ts:82 | `maxd` is the largest channel of the target less 4: no channel exceeds `maxd + 4`, one of them equals it, and `maxd` lies in [-4, 251] |
| BusAnimation.DriftStep | main.ts:86 | `max(0, min(maxd, random(3) - 1))` lies in [0, max(0, maxd)], is at most 1, and is 1 for a roll of 2 when maxd is at least 1 |
| BusAnimation.NextDriftAsWritten | main.ts:86 | as written, a drift update never decreases `d` |
| BusAnimation.DriftAfterAsWritten | main.ts:83-86 | as written, the drift after a run of rolls is never negative, and with rolls of `Math.random(3)` it is at most the number of rolls |
| BusAnimation.DriftAsWrittenGrows | main.ts:83-86 | as written, every roll of 2 adds one to `d`, so n such rolls give `d = n` with no upper bound |
| BusAnimation.DriftAsWrittenExceedsCap | main.ts:82-86 | for rgb(32, 32, 32), `maxd` is 28, yet 29 rolls of 2 take `d` to 29 as written |
| BusAnimation.NextDrift | main.ts:86 | the corrected update keeps `d` in [0, max(0, maxd)], never decreases it from within the bounds, and agrees with the code whenever the code stays within them |
| BusAnimation.DriftAfter | main.ts:83-86 | the corrected drift after any run of rolls lies in [0, max(0, maxd)] |
| BusAnimation.DriftAfterMonotone | main.ts:83-86 | the drift never decreases along a run of rolls |
| BusAnimation.AmbientPixelAsWritten | main.ts:85 | as written, while the channels stay bytes, the pixel is the 32-bit word with red at bit 24, green at bit 8 and blue at bit 0 |
| BusAnimation.AmbientPixelAsWrittenDropsRed | main.ts:85 | as written, an ambient pixel has no red for any target whose channels stay bytes under the drift |
| BusAnimation.AmbientPixel | main.ts:85 | (corrected) while the channels stay bytes, the pixel is the word with the darkened red at bit 16, green at bit 8 and blue at bit 0 |
| BusAnimation.AmbientPixelChannels | main.ts:85 | the corrected pixel darkens each channel of the target by exactly `d` |
| BusAnimation.GreyDriftFits | main.ts:82-86 | for a grey target, every drift up to the cap is at most the grey level, and the corrected pixel has each channel equal to the level less `d` |
| BusAnimation.ShiftIn | main.ts:97-98 | one tick keeps the length, puts the new colour at index 0, and moves every other pixel one place up |
| BusAnimation.Gradient | main.ts:84-88 | (corrected) the seeded gradient has one pixel per roll |
| BusAnimation.GradientAt | main.ts:84-88 | (corrected) pixel k of the seeded strip is the corrected pixel of the target, darkened by the capped drift reached after k rolls |
| BusAnimation.GreyGradientDarkens | main.ts:84-88 | (corrected) on a grey target every seeded pixel is grey, no brighter than the target, and no brighter than any pixel before it |
| BusAnimation.SeedGradient | main.ts:83-88 | (corrected) the constructor loop fills the strip with the gradient of the rolls it made, ends with the drift those rolls reach, and leaves the rest of the buffer alone |
| BusAnimation.ScrollIn | main.ts:97-98 | rotate then set pixel 0: the strip becomes `ShiftIn` of its old pixels |
| BusAnimation.Animation.Ambient | main.ts:76-89 | (corrected) a new ambient animation covers its strip with the gradient of its rolls and keeps the drift they reach |
| BusAnimation.Animation.Party | main.ts:102-105 | a new party animation is valid on its strip |
| BusAnimation.NewAnimation | main.ts:116-124 | creating an animation on a strip writes only that strip's range of its buffer, and a party animation writes nothing; the new animation and every animation on a strip apart from it are valid and show what they were seeded with |
| BusAnimation.Animation.Apply | main.ts:90-99 | (corrected) an ambient tick scrolls in the pixel for the current drift, takes one more roll, and keeps `d` non-decreasing and within the cap; a party tick (main.ts:107-109) changes nothing |
| Bus.FootprintOf | main.ts:14-23 | each strip and segment lies within its physical strip |
| Bus.GreyColours | main.ts:116-120 | rgb(100, 100, 100), rgb(64, 64, 64) and rgb(32, 32, 32) are the words 0x646464, 0x404040 and 0x202020 |
| Bus.GreyPixelAsWrittenHasNoRed | main.ts:116 | for every grey target (rgb(100, 100, 100) among them), the first pixel has no red as written, while the corrected pixel keeps the target's red |
| Bus.ModePlan | main.ts:112-127 | Ambient yields five ambient animations, Party two party animations, and every other value none |
| Bus.ModePlanPartitions | main.ts:112-127 | in Ambient and Party mode no two animations share a pixel and together they drive every pixel of both strips; in any other mode no pixel is driven |
| Bus.Controller.constructor | main.ts:63-68 | the initial state: brightness 64, mode Off, no animations, last command at the start time, with the wall cut into its segments |
| Bus.Controller.StripsLaid | main.ts:14-23 | every strip object lies on the buffer and range its footprint names |
| Bus.Controller.ModePlanSpread | main.ts:112-127 | the strips of any mode's animations lie apart: on different buffers, or on disjoint ranges of one |
| Bus.Controller.Push | main.ts:116-124 | one `push(new …Animation(strip, …))` appends one fresh animation on the entry's strip with its effect; the new animation and all earlier ones show what they were seeded with (an ambient strip the gradient of its rolls); pixels outside the new strip keep their colour, the other buffer is unchanged, and a party push changes no pixel; no other field changes |
| Bus.Controller.PushPlan | main.ts:114-125 | the pushes of one mode, in plan order: the list ends with one fresh animation per entry, on its strip with its effect, each ambient strip showing the gradient of its own rolls; a plan of party animations changes no pixel |
| Bus.Controller.SetMode | main.ts:112-127 | the list is replaced by one fresh animation per plan entry, on its strip and with its effect, each ambient strip showing the gradient of its own rolls; a mode other than Ambient changes no pixel; no other field changes |
| Bus.Controller.PressAOrB | main.ts:162-171 | a press records the time, steps the brightness, and sends exactly one message, which decodes to the new brightness |
| Bus.Controller.PressAB | main.ts:173-177 | a press records the time, moves to the next mode, and sends exactly one message, which decodes to that mode's number |
| Bus.Controller.Receive | main.ts:144-155 | a Brightness message sets the brightness to its byte and changes no pixel; a Mode message rebuilds the animations for its byte as `SetMode` does, changing pixels only for Ambient; any other tag changes nothing, buffers included |
| Bus.ModeMessageSelectsPlan | main.ts:151-152 | the number button AB sends decodes at the receiver to the sender's mode, whose plan has 0, 5 or 2 animations |
| LightsCodec.ToByte | lights/main.ts:101 | `setNumber(UInt8LE, …)` keeps a byte unchanged |
| LightsCodec.TagCode | lights/main.ts:91-95 | no message tag is 0 |
| LightsCodec.ReadU8 | lights/main.ts:109 | `getNumber(UInt8LE, i)` is byte i, or 0 past the end of the buffer |
| LightsCodec.ReadI32LE | lights/main.ts:120 | `getNumber(Int32LE, off)` is a signed 32-bit number, and 0 when the four bytes do not fit in the buffer |
| LightsCodec.Frame | lights/main.ts:99-102 | `broadcast` builds three bytes: the tag, the brightness, and 1 or 0 for the colour mode |
| LightsCodec.Decode | lights/main.ts:107-123 | (corrected) a frame is a Light state exactly when byte 0 is 1 (brightness a byte, colour mode on for any non-zero byte 2), an Awake request exactly when byte 0 is 3, and a Voltage report exactly when byte 0 is 4 and it holds 5 bytes, so a shorter tag-4 frame decodes to nothing |
| LightsCodec.LightFrameRoundTrip | lights/main.ts:99-113 | a Light frame decodes to the brightness and colour mode it was built from |
| LightsCodec.AwakeFrameRoundTrip | lights/main.ts:116-117 | an Awake frame decodes to an Awake request, whatever its other bytes |
| LightsCodec.VoltageFrame | lights/main.ts:119-120 | a Voltage frame is 5 bytes starting with tag 4 |
| LightsCodec.BytesRecombine | lights/main.ts:120 | the four little-endian bytes of a 32-bit pattern combine back into it |
| LightsCodec.VoltageFrameRoundTrip | lights/main.ts:119-120 | a 5-byte Voltage frame decodes to its reading, for every signed 32-bit reading |
| LightsCodec.VoltageAsWritten | lights/main.ts:120 | as written, the Int32 read at offset 1 is a signed 32-bit number, and 0 for any frame shorter than 5 bytes |
| LightsCodec.VoltageAsWrittenOnThreeBytes | lights/main.ts:99-120 | a Voltage frame in the 3-byte broadcast layout sets the voltage to 0 as written, while the corrected decoding drops it |
| LightsRender.Scale | lights/main.ts:15 | `map(b, 0, 255, 0, 1023)` sends a byte into [0, 1023], is 0 only for 0, and 1023 for 255 |
| LightsRender.ScaleMonotone | lights/main.ts:15 | scaling keeps the order of brightnesses |
| LightsRender.Phase | lights/main.ts:32 | the colour phase is in [0, 64) |
| LightsRender.Render | lights/main.ts:14-44 | brightness 0 drives every pin to 0; white mode drives only P0, at the scaled brightness; colour mode drives P0 and P8 to 0 and P2 to 16 per second of phase, with P1 + P2 + P8 equal to the scaled brightness |
| LightsRender.RenderHalfWhite | lights/main.ts:22-28 | brightness 128 in white mode drives P0 at 513 |
| LightsRender.RenderRedGoesNegative | lights/main.ts:31-36 | levels are not clamped: brightness 1 in colour mode at second 63 asks P1 for 4 - 1008 |
| LightsRender.RenderColourBounds | lights/main.ts:31-42 | in colour mode, red never exceeds the scaled brightness, and green lies in [0, 1008] |
| Lights.Dimmer | lights/main.ts:52 | `max(0, b - 64)` stays in [0, b], strictly decreases a lit light, and is 0 exactly for b ≤ 64 |
| Lights.Brighter | lights/main.ts:62 | `min(255, b + 64)` stays in [b, 255], strictly increases below 255, and is 255 exactly for b ≥ 191 |
| Lights.FourPressesSaturate | lights/main.ts:51-64 | four presses of A reach 0 and four presses of B reach 255, from any brightness |
| Lights.AsleepAsWritten | lights/main.ts:84 | as written, the condition holds only for a heartbeat later than now |
| Lights.IsAsleep | lights/main.ts:84 | (corrected) the condition holds only for a heartbeat earlier than now, and for every heartbeat more than `ASLEEP` ms before now |
| Lights.AsleepAsWrittenNeverFires | lights/main.ts:84 | with the heartbeat never later than now, the condition as written never holds, while the intended one holds once a minute has passed (e.g. heartbeat 0, now 60001) |
| Lights.LightNode.constructor | lights/main.ts:6-9 | start-up state is brightness 64, white mode, heartbeat now and voltage 14000; the first frame sent (line 125) is an Awake request |
| Lights.LightNode.Broadcast | lights/main.ts:97-104 | refreshes the heartbeat, sends exactly the 3-byte frame of the tag and the current state, and changes nothing else |
| Lights.LightNode.BroadcastState | lights/main.ts:97-104 | a Light broadcast's frame decodes back to the node's state |
| Lights.LightNode.PressA | lights/main.ts:51-54 | brightness becomes `Dimmer` of the old one; the colour mode is kept; one Light frame of the new state is sent |
| Lights.LightNode.HoldAOrAB | lights/main.ts:55-58 | holding A (or A and B, lines 76-79) sets brightness to exactly 0 and sends it |
| Lights.LightNode.PressB | lights/main.ts:61-64 | brightness becomes `Brighter` of the old one; one Light frame of the new state is sent |
| Lights.LightNode.HoldB | lights/main.ts:65-68 | holding B sets brightness to exactly 255 and sends it |
| Lights.LightNode.PressAB | lights/main.ts:71-74 | toggles the colour mode, keeps the brightness, and sends the new state |
| Lights.LightNode.CheckLiveness | lights/main.ts:82-89 | (corrected) fires exactly when more than `ASLEEP` has passed since the heartbeat; then it switches off and broadcasts, which refreshes the heartbeat; otherwise nothing changes |
| Lights.LightNode.Receive | lights/main.ts:107-123 | (corrected) no buffer or an undecodable frame changes nothing; Light sets brightness and colour mode and renders them; Awake re-broadcasts the state; a 5-byte Voltage frame records the reading, and a shorter one changes nothing |
| Lights.Relay | lights/main.ts:97-123 | a state broadcast by one node and received by another makes the receiver take on the sender's brightness and colour mode |

## Left out

- power/main.ts: it only reads an analog pin, scales it and sends and shows the result. It is I/O with no state.
- Radio setup and transport (`setGroup`, `setTransmitPower`, `setTransmitSerialNumber`, main.ts:137-138, lights/main.ts:2-4): each send is an append to `sent`; delivery, loss and ordering between nodes are not modelled.
- Pin, PWM and display calls (`digitalWritePin`, `analogWritePin`, `analogSetPeriod`, `showIcon`, `led.toggle`, `basic.pause`, strip `show` and `setBrightness`): `render` returns the four levels instead.
- The neopixel library internals: a strip is a start and length over a shared `array<int>` of colour words. Brightness scaling and the wire format are not modelled.
- The bus animation loop (main.ts:182-199): it is a background loop that calls each animation's `apply` between I/O calls. Each `apply` is modelled (`BusAnimation.Animation.Apply`), but not the loop or its interleaving with the handlers.
- The `basic.forever` and `control.inBackground` loops and the handler registrations: each handler is a separate method, and interleaving is not modelled.
- Fractional values: `pins.map` and `runningTime() / 1000` may yield fractions on the device. Both are floor divisions here.
- Reads past the end of a received buffer yield 0, as the runtime's `getNumber` does. The source itself does not state this.
- The comment at lights/main.ts:10 says ten minutes, but `10 * 6000` is one minute. The model uses the value.
- Lights.Relay is not a function of the source: it composes `broadcast` on one node with the receive handler on another.
- BusAnimation.Gradient: its own contract only gives the length. The pixels are stated by `BusAnimation.GradientAt`. They are the corrected pixels (red at bit 16) with the capped drift, not main.ts:85-86 as written.
- BusAnimation.GradientAt: gives the corrected pixel (`AmbientPixel`) with the capped drift (`DriftAfter`). As written, main.ts:85 puts red at bit 24 and main.ts:86 lets `d` pass `maxd`.
- BusAnimation.GreyGradientDarkens: holds of the corrected gradient only. As written, the first seeded pixel of a grey target has no red (`Bus.GreyPixelAsWrittenHasNoRed`), and neither has any pixel whose drift stays within the target (`BusAnimation.AmbientPixelAsWrittenDropsRed`), so those pixels are not grey.
- BusAnimation.AmbientPixel: is the corrected pixel, with red at bit 16. The pixel as written is `BusAnimation.AmbientPixelAsWritten`.
- BusAnimation.Red: its own contract only gives the byte range, and so do those of `BusAnimation.Green` and `BusAnimation.Blue`. Which byte each reads is stated by `BusAnimation.ChannelsOfSum`.
- Lights.IsAsleep: is the corrected liveness condition. The condition as written is `Lights.AsleepAsWritten`.
- BusAnimation.SeedGradient: seeds with the corrected drift (`NextDrift`) and pixel (`AmbientPixel`). The code's unbounded drift and red at bit 24 (main.ts:85-86) are modelled only by the as-written members under Findings.
- BusAnimation.Animation.Ambient: its gradient is the corrected one of `SeedGradient`.
- BusAnimation.Animation.Apply: ticks with the corrected drift and pixel, not the code's (main.ts:95-96).
- Bus.Controller.Push: an ambient animation it creates is seeded with the corrected gradient.
- Bus.Controller.PushPlan: the ambient animations it creates are seeded with the corrected gradient.
- Bus.Controller.SetMode: the ambient animations it creates are seeded with the corrected gradient.
- Bus.Controller.Receive: a Mode message for Ambient seeds with the corrected gradient.
- Lights.LightNode.CheckLiveness: fires on the corrected condition `runningTime() - heartBeat > ASLEEP`. The condition as written (lights/main.ts:84) never fires and is modelled by `Lights.AsleepAsWrittenNeverFires`.
- LightsCodec.Decode: a tag-4 frame shorter than 5 bytes decodes to nothing. The code reads its Int32 past the end and gets 0 (lights/main.ts:120), which `LightsCodec.VoltageAsWritten` models (see Findings).
- Lights.LightNode.Receive: a tag-4 frame shorter than 5 bytes leaves the voltage unchanged, where the code sets it to 0 (lights/main.ts:120).

## Findings

| source | as written | input that shows it | evidently intended | confidence | as-written member | corrected member |
|---|---|---|---|---|---|---|
| lights/main.ts:84 | `heartBeat - input.runningTime() > ASLEEP` | heartbeat 0, now 60001: the node has been silent for more than a minute, yet the condition is false, as it is whenever the heartbeat is not in the future | `runningTime() - heartBeat > ASLEEP` | high, not executed | Lights.AsleepAsWrittenNeverFires | Lights.LightNode.CheckLiveness |
| main.ts:85 | red `r - d` shifted left by 24, or-ed with green shifted by 8 and blue (also line 95) | target rgb(100, 100, 100) with d = 0: the pixel's red byte (bits 16-23) is 0 | red shifted by 16, as `neopixel.rgb` packs it | high, not executed | Bus.GreyPixelAsWrittenHasNoRed | BusAnimation.AmbientPixelChannels |
| main.ts:86 | `this.d += Math.max(0, Math.min(maxd, Math.random(3) - 1))` (also line 96) | target rgb(32, 32, 32), maxd 28: 29 rolls of 2 take d to 29, past maxd; with more rolls the channels go negative | d itself kept within [0, maxd] | medium, not executed | BusAnimation.DriftAsWrittenExceedsCap | BusAnimation.NextDrift |
| lights/main.ts:120 | `getNumber(NumberFormat.Int32LE, 1)` on frames that `broadcast` makes 3 bytes long (line 99) | a Voltage frame [4, b, c] in the broadcast layout: the 4-byte read at offset 1 runs past the end and yields 0 | a Voltage frame long enough to hold its reading (5 bytes), and shorter frames ignored | medium, not executed | LightsCodec.VoltageAsWrittenOnThreeBytes | LightsCodec.VoltageFrameRoundTrip |
