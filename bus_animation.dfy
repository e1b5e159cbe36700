/**
 * Strip animations of the bus (main.ts). An ambient animation fills its
 * strip with a gradient below a target colour and then scrolls it, one
 * pixel per tick; the drift `d` that darkens each new pixel is a random
 * walk. A party animation is a placeholder that does nothing.
 *
 * `Math.random(3)` is a nondeterministic choice in {0, 1, 2}; the choices
 * an animation has made are kept in the ghost field `rolls`.
 */
module BusAnimation {
  import opened Bits
  import opened BusStrip

  function Max(a: int, b: int): (m: int) { if a < b then b else a }
  function Min(a: int, b: int): (m: int) { if a < b then a else b }

  /**
   * `(r << redShift) | (g << 8) | b`: the packing of a colour word. The
   * neopixel `rgb` uses a red shift of 16, as do `setPixelColor`'s
   * channel readers below.
   */
  function PackColor(redShift: nat, r: int, g: int, b: int): (c: int)
    requires redShift < 32
  {
    Or32(Or32(Shl(r, redShift), Shl(g, 8)), b)
  }

  /** Three bytes packed with a red shift of 16 or 24 do not overlap: the word is their weighted sum. */
  lemma {:induction false} PackColorBytes(redShift: nat, r: int, g: int, b: int)
    requires redShift == 16 || redShift == 24
    requires 0 <= r < 256 && 0 <= g < 256 && 0 <= b < 256
    ensures PackColor(redShift, r, g, b) == Int32(r * Pow2(redShift) + g * 0x100 + b)
  {
    Pow2Bytes();
    var high := r * Pow2(redShift);
    var a: nat := if redShift == 16 then r * 0x100 + g else r * 0x1_0000 + g;
    assert a * Pow2(8) == high + g * 0x100;
    Int32Small(g * 0x100);
    assert Shl(g, 8) == g * 0x100;
    OrIntoClearBits(r, g * 0x100, redShift);
    assert Or32(Shl(r, redShift), Shl(g, 8)) == Int32(a * Pow2(8));
    OrIntoClearBits(a, b, 8);
  }

  /** `neopixel.rgb(r, g, b)`: each channel masked to a byte, red in bits 16 to 23. */
  function Rgb(r: int, g: int, b: int): (c: int)
  {
    PackColor(16, LowByte(r), LowByte(g), LowByte(b))
  }

  /**
   * `(c >> 16) & 0xff`, `(c >> 8) & 0xff` and `c & 0xff`, used both on the
   * target colours and, inside `setPixelColor`, on the pixel words. The
   * arithmetic shift is a floor division; dropping the 32-bit wrap first
   * would only change `c` by a multiple of 2^32, which leaves the byte alone.
   */
  function Red(c: int): (v: int)
    ensures 0 <= v < 256
  {
    LowByte(c / 0x1_0000)
  }

  function Green(c: int): (v: int)
    ensures 0 <= v < 256
  {
    LowByte(c / 0x100)
  }

  function Blue(c: int): (v: int)
    ensures 0 <= v < 256
  {
    LowByte(c)
  }

  /** The channel readers take a word of three non-overlapping bytes apart. */
  lemma {:induction false} ChannelsOfSum(r: int, g: int, b: int)
    requires 0 <= r < 256 && 0 <= g < 256 && 0 <= b < 256
    ensures Red(r * 0x1_0000 + g * 0x100 + b) == r
    ensures Green(r * 0x1_0000 + g * 0x100 + b) == g
    ensures Blue(r * 0x1_0000 + g * 0x100 + b) == b
  {
    DivMod65536(r, g * 0x100 + b);
    DivMod256(r * 0x100 + g, b);
    DivMod256(r, g);
  }

  /** Three bytes packed with red in bits 16 to 23 come back out of the three channel readers. */
  lemma {:induction false} PackColorChannels(r: int, g: int, b: int)
    requires 0 <= r < 256 && 0 <= g < 256 && 0 <= b < 256
    ensures PackColor(16, r, g, b) == r * 0x1_0000 + g * 0x100 + b
    ensures Red(PackColor(16, r, g, b)) == r
    ensures Green(PackColor(16, r, g, b)) == g
    ensures Blue(PackColor(16, r, g, b)) == b
  {
    PackColorBytes(16, r, g, b);
    Pow2Bytes();
    Int32Small(r * 0x1_0000 + g * 0x100 + b);
    ChannelsOfSum(r, g, b);
  }

  /** A colour built with `rgb` gives back its channels, each taken modulo 256. */
  lemma {:induction false} RgbChannels(r: int, g: int, b: int)
    ensures Red(Rgb(r, g, b)) == LowByte(r)
    ensures Green(Rgb(r, g, b)) == LowByte(g)
    ensures Blue(Rgb(r, g, b)) == LowByte(b)
  {
    PackColorChannels(LowByte(r), LowByte(g), LowByte(b));
  }

  /**
   * Packed with red shifted by 24, as the ambient animation does, three
   * bytes land with red in the top byte, and the red channel reader finds 0.
   */
  lemma {:induction false} PackColorHighRedReadsZero(r: int, g: int, b: int)
    requires 0 <= r < 256 && 0 <= g < 256 && 0 <= b < 256
    ensures Red(PackColor(24, r, g, b)) == 0
  {
    PackColorBytes(24, r, g, b);
    Pow2Bytes();
    HighRedOfSum(r, g * 0x100 + b);
  }

  /** A red byte above bit 24 is outside what `Red` reads, with or without the 32-bit wrap. */
  lemma {:induction false} HighRedOfSum(r: int, low: int)
    requires 0 <= r < 256 && 0 <= low < 0x1_0000
    ensures Red(Int32(r * 0x100_0000 + low)) == 0
  {
    var w := r * 0x100_0000 + low;
    var hi := if w < Two31 then r else r - 256;
    if w < Two31 {
      Int32Small(w);
    } else {
      Int32Wrap(w);
    }
    assert Int32(w) == (hi * 0x100) * 0x1_0000 + low;
    DivMod65536(hi * 0x100, low);
    DivMod256(hi, 0);
  }

  /** `maxd`: the brightest channel of the target colour, less 4. */
  function MaxDrift(color: int): (maxd: int)
    ensures -4 <= maxd < 252
    ensures Red(color) <= maxd + 4 && Green(color) <= maxd + 4 && Blue(color) <= maxd + 4
    ensures maxd + 4 == Red(color) || maxd + 4 == Green(color) || maxd + 4 == Blue(color)
  {
    Max(Red(color), Max(Green(color), Blue(color))) - 4
  }

  /** The largest value the drift may take: `maxd`, or 0 for a colour too dark to drift. */
  function DriftCap(color: int): (cap: int)
  {
    Max(0, MaxDrift(color))
  }

  /**
   * `Math.max(0, Math.min(maxd, Math.random(3) - 1))`: a step of 0 or 1,
   * never more than `maxd`.
   */
  function DriftStep(maxd: int, roll: int): (step: int)
    ensures 0 <= step <= Max(0, maxd)
    ensures roll < 3 ==> step <= 1
    ensures roll == 2 && maxd >= 1 ==> step == 1
  {
    Max(0, Min(maxd, roll - 1))
  }

  /** `this.d += step`, as written: only the step is clipped, never the drift itself. */
  function NextDriftAsWritten(d: int, maxd: int, roll: int): (r: int)
    ensures d <= r
  {
    d + DriftStep(maxd, roll)
  }

  /**
   * The drift after a run of steps as written, starting from 0: it never
   * goes below 0, and with rolls of `Math.random(3)` it grows by at most
   * one per roll, whatever `maxd` is.
   */
  function DriftAfterAsWritten(maxd: int, rolls: seq<int>): (d: int)
    ensures 0 <= d
    ensures (forall i :: 0 <= i < |rolls| ==> rolls[i] < 3) ==> d <= |rolls|
  {
    if rolls == [] then 0
    else NextDriftAsWritten(DriftAfterAsWritten(maxd, rolls[..|rolls| - 1]), maxd, rolls[|rolls| - 1])
  }

  /** As written, a drift that keeps stepping passes any bound: each roll of 2 adds one. */
  lemma {:induction false} DriftAsWrittenGrows(maxd: int, rolls: seq<int>)
    requires maxd >= 1
    requires forall i :: 0 <= i < |rolls| ==> rolls[i] == 2
    ensures DriftAfterAsWritten(maxd, rolls) == |rolls|
  {
    if rolls != [] {
      DriftAsWrittenGrows(maxd, rolls[..|rolls| - 1]);
    }
  }

  /**
   * The grey 32 of the stove, AC and counter-top animations has `maxd` 28,
   * yet 29 ticks that each roll 2 take the drift, as written, to 29.
   */
  lemma DriftAsWrittenExceedsCap()
    ensures MaxDrift(Rgb(32, 32, 32)) == 28
    ensures DriftAfterAsWritten(28, seq(29, i => 2)) == 29
  {
    RgbChannels(32, 32, 32);
    DriftAsWrittenGrows(28, seq(29, i => 2));
  }

  /**
   * The drift update with the sum clipped to `[0, maxd]`, so that the
   * drift is the bounded walk its step clipping aims at. From within the
   * bounds it never decreases and never leaves them.
   */
  function NextDrift(d: int, maxd: int, roll: int): (r: int)
    ensures 0 <= d <= Max(0, maxd) ==> d <= r <= Max(0, maxd)
    ensures 0 <= r <= Max(0, maxd)
    ensures d + DriftStep(maxd, roll) <= maxd && 0 <= d ==> r == NextDriftAsWritten(d, maxd, roll)
  {
    Max(0, Min(maxd, d + DriftStep(maxd, roll)))
  }

  /** The drift after a run of steps, starting from 0: always within `[0, maxd]`. */
  function DriftAfter(maxd: int, rolls: seq<int>): (d: int)
    ensures 0 <= d <= Max(0, maxd)
  {
    if rolls == [] then 0
    else NextDrift(DriftAfter(maxd, rolls[..|rolls| - 1]), maxd, rolls[|rolls| - 1])
  }

  /** The drift never decreases: a longer run of steps ends with at least as much. */
  lemma {:induction false} DriftAfterMonotone(maxd: int, rolls: seq<int>, i: nat)
    requires i <= |rolls|
    ensures DriftAfter(maxd, rolls[..i]) <= DriftAfter(maxd, rolls)
    decreases |rolls| - i
  {
    if i < |rolls| {
      var longer := rolls[..i + 1];
      assert longer[..i] == rolls[..i];
      assert DriftAfter(maxd, rolls[..i]) <= DriftAfter(maxd, longer);
      DriftAfterMonotone(maxd, rolls, i + 1);
    } else {
      assert rolls[..i] == rolls;
    }
  }

  /**
   * `((r - d) << 24) | ((g - d) << 8) | (b - d)` as written: red is shifted
   * into the top byte, where the channel readers never look.
   */
  function AmbientPixelAsWritten(color: int, d: int): (c: int)
    ensures 0 <= d <= Red(color) && d <= Green(color) && d <= Blue(color) ==>
              c == Int32((Red(color) - d) * 0x100_0000 + (Green(color) - d) * 0x100 + (Blue(color) - d))
  {
    var r, g, b := Red(color) - d, Green(color) - d, Blue(color) - d;
    if 0 <= d && 0 <= r && 0 <= g && 0 <= b then
      PackColorBytes(24, r, g, b);
      Pow2Bytes();
      PackColor(24, r, g, b)
    else
      PackColor(24, r, g, b)
  }

  /**
   * As written, a pixel of any target colour whose channels stay bytes
   * under the drift has no red at all.
   */
  lemma {:induction false} AmbientPixelAsWrittenDropsRed(color: int, d: int)
    requires 0 <= d <= Red(color) && d <= Green(color) && d <= Blue(color)
    ensures Red(AmbientPixelAsWritten(color, d)) == 0
  {
    HighRedOfSum(Red(color) - d, (Green(color) - d) * 0x100 + (Blue(color) - d));
  }

  /**
   * The pixel with red in the red byte: the target colour darkened by `d`
   * on each channel. While the channels stay bytes the word is the plain
   * sum of the three darkened bytes, red weighted by 2^16.
   */
  function AmbientPixel(color: int, d: int): (c: int)
    ensures 0 <= d <= Red(color) && d <= Green(color) && d <= Blue(color) ==>
              c == (Red(color) - d) * 0x1_0000 + (Green(color) - d) * 0x100 + (Blue(color) - d)
  {
    var r, g, b := Red(color) - d, Green(color) - d, Blue(color) - d;
    if 0 <= d && 0 <= r && 0 <= g && 0 <= b then
      PackColorChannels(r, g, b);
      PackColor(16, r, g, b)
    else
      PackColor(16, r, g, b)
  }

  /**
   * A drift no larger than any channel darkens each channel by exactly `d`,
   * and within the drift cap of a grey target every channel stays between
   * 0 and the target.
   */
  lemma {:induction false} AmbientPixelChannels(color: int, d: int)
    requires 0 <= d <= Red(color) && d <= Green(color) && d <= Blue(color)
    ensures Red(AmbientPixel(color, d)) == Red(color) - d
    ensures Green(AmbientPixel(color, d)) == Green(color) - d
    ensures Blue(AmbientPixel(color, d)) == Blue(color) - d
  {
    ChannelsOfSum(Red(color) - d, Green(color) - d, Blue(color) - d);
  }

  /** For a grey target, every drift the walk can reach stays within every channel. */
  lemma {:induction false} GreyDriftFits(c: int, d: int)
    requires 0 <= c < 256 && 0 <= d <= DriftCap(Rgb(c, c, c))
    ensures Red(Rgb(c, c, c)) == c && Green(Rgb(c, c, c)) == c && Blue(Rgb(c, c, c)) == c
    ensures d <= c
    ensures Red(AmbientPixel(Rgb(c, c, c), d)) == c - d
    ensures Green(AmbientPixel(Rgb(c, c, c), d)) == c - d
    ensures Blue(AmbientPixel(Rgb(c, c, c), d)) == c - d
  {
    var grey := Rgb(c, c, c);
    RgbChannels(c, c, c);
    LowByteOfByte(c);
    assert MaxDrift(grey) == c - 4;
    AmbientPixelChannels(grey, d);
  }

  /** One tick of an ambient strip: rotate, then write the new colour at the head. */
  function ShiftIn(s: seq<int>, c: int): (r: seq<int>)
    ensures |r| == |s|
    ensures |s| > 0 ==> r[0] == c
    ensures forall i :: 1 <= i < |s| ==> r[i] == s[i - 1]
  {
    if s == [] then [] else RotatedForward(s)[0 := c]
  }

  /**
   * The pixels an ambient animation seeds its strip with, one per roll:
   * each is the target colour darkened by the drift reached before its roll.
   */
  function Gradient(color: int, rolls: seq<int>): (px: seq<int>)
    ensures |px| == |rolls|
  {
    if rolls == [] then []
    else
      var prefix := rolls[..|rolls| - 1];
      Gradient(color, prefix) + [AmbientPixel(color, DriftAfter(MaxDrift(color), prefix))]
  }

  /** Pixel k of the gradient carries the drift after the first k rolls. */
  lemma {:induction false} GradientAt(color: int, rolls: seq<int>, k: int)
    requires 0 <= k < |rolls|
    ensures Gradient(color, rolls)[k] == AmbientPixel(color, DriftAfter(MaxDrift(color), rolls[..k]))
  {
    var prefix := rolls[..|rolls| - 1];
    if k < |rolls| - 1 {
      GradientAt(color, prefix, k);
      assert prefix[..k] == rolls[..k];
    }
  }

  /**
   * On a grey target the seeded gradient only darkens along the strip: the
   * pixels are grey, no brighter than the target, and pixel k is no
   * brighter than any pixel before it.
   */
  lemma {:induction false} GreyGradientDarkens(c: int, rolls: seq<int>, j: int, k: int)
    requires 0 <= c < 256 && 0 <= j <= k < |rolls|
    ensures var px := Gradient(Rgb(c, c, c), rolls);
      && Red(px[k]) == Green(px[k]) == Blue(px[k])
      && Red(px[k]) <= Red(px[j]) <= c
  {
    var grey := Rgb(c, c, c);
    var maxd := MaxDrift(grey);
    var dj, dk := DriftAfter(maxd, rolls[..j]), DriftAfter(maxd, rolls[..k]);
    GradientAt(grey, rolls, j);
    GradientAt(grey, rolls, k);
    DriftAfterMonotone(maxd, rolls[..k], j);
    assert rolls[..k][..j] == rolls[..j];
    GreyDriftFits(c, dj);
    GreyDriftFits(c, dk);
  }

  predicate ValidRolls(rolls: seq<int>)
  {
    forall i :: 0 <= i < |rolls| ==> 0 <= rolls[i] < 3
  }

  /**
   * The loop of the ambient constructor: pixel i takes the colour for the
   * drift reached so far, then the drift takes a random step.
   */
  method SeedGradient(strip: Strip, color: int) returns (drift: int, ghost steps: seq<int>)
    requires strip.Valid()
    modifies strip.buf
    ensures |steps| == strip.length && ValidRolls(steps)
    ensures drift == DriftAfter(MaxDrift(color), steps)
    ensures strip.Pixels() == Gradient(color, steps)
    ensures strip.KeepsOutside(old(strip.buf[..]))
  {
    var maxd := MaxDrift(color);
    drift := 0;
    steps := [];
    var i := 0;
    while i < strip.length
      invariant 0 <= i <= strip.length && |steps| == i && ValidRolls(steps)
      invariant drift == DriftAfter(maxd, steps)
      invariant strip.Pixels()[..i] == Gradient(color, steps)
      invariant strip.KeepsOutside(old(strip.buf[..]))
    {
      var c := AmbientPixel(color, drift);
      var roll :| 0 <= roll < 3;
      ghost var prev := steps;
      drift := NextDrift(drift, maxd, roll);
      steps := steps + [roll];
      assert steps[..i] == prev;
      strip.SetPixelColor(i, c);
      assert strip.Pixels()[..i + 1] == strip.Pixels()[..i] + [c];
      i := i + 1;
    }
  }

  /** One tick of `apply` on the strip: rotate it, then write `c` at its head. */
  method ScrollIn(strip: Strip, c: int)
    requires strip.Valid()
    modifies strip.buf
    ensures strip.Pixels() == ShiftIn(old(strip.Pixels()), c)
    ensures strip.KeepsOutside(old(strip.buf[..]))
  {
    strip.Rotate();
    strip.SetPixelColor(0, c);
  }

  /** The two kinds of animation, with what each carries. */
  datatype Effect = Ambient(color: int) | Party

  /** `Animation` and its two subclasses, as one class dispatching on its effect. */
  class Animation {
    const effect: Effect
    const strip: Strip
    const n: nat
    var d: int
    ghost var rolls: seq<int>

    ghost predicate Valid()
      reads this
    {
      strip.Valid() && n == strip.length && ValidRolls(rolls) &&
      (effect.Ambient? ==> d == DriftAfter(MaxDrift(effect.color), rolls)) &&
      (effect.Party? ==> rolls == [])
    }

    /**
     * Right after construction: an ambient strip shows the gradient of the
     * animation's rolls, one roll per pixel. A party animation writes nothing.
     */
    ghost predicate Seeded()
      reads this, strip.buf
    {
      effect.Ambient? ==> strip.Valid() && |rolls| == n && strip.Pixels() == Gradient(effect.color, rolls)
    }

    /**
     * `new AmbientAnimation(strip, color)`: seeds pixel i with the colour
     * darkened by the drift after i steps, then keeps the drift reached.
     */
    constructor Ambient(strip: Strip, color: int)
      requires strip.Valid()
      modifies strip.buf
      ensures Valid() && effect == Effect.Ambient(color) && this.strip == strip
      ensures |rolls| == n && d == DriftAfter(MaxDrift(color), rolls)
      ensures strip.Pixels() == Gradient(color, rolls) && Seeded()
      ensures strip.KeepsOutside(old(strip.buf[..]))
    {
      effect := Effect.Ambient(color);
      this.strip := strip;
      n := strip.length;
      d := 0;
      rolls := [];
      new;
      d, rolls := SeedGradient(strip, color);
    }

    /** `new PartyAnimation(strip)`. */
    constructor Party(strip: Strip)
      requires strip.Valid()
      ensures Valid() && Seeded() && effect == Effect.Party && this.strip == strip
    {
      effect := Effect.Party;
      this.strip := strip;
      n := strip.length;
      d := 0;
      rolls := [];
    }

    /**
     * `apply()`: an ambient strip scrolls one place and takes the colour for
     * the current drift at its head, then the drift takes one more step; a
     * party strip is left as it is.
     */
    method Apply()
      requires Valid()
      modifies this, strip.buf
      ensures Valid()
      ensures effect.Party? ==> d == old(d) && rolls == old(rolls) && strip.buf[..] == old(strip.buf[..])
      ensures effect.Ambient? ==>
                && |rolls| == |old(rolls)| + 1 && rolls[..|old(rolls)|] == old(rolls)
                && d == NextDrift(old(d), MaxDrift(effect.color), rolls[|old(rolls)|])
                && old(d) <= d <= DriftCap(effect.color)
                && strip.Pixels() == ShiftIn(old(strip.Pixels()), AmbientPixel(effect.color, old(d)))
                && strip.KeepsOutside(old(strip.buf[..]))
    {
      match effect
      case Party =>
      case Ambient(color) =>
        var maxd := MaxDrift(color);
        var c := AmbientPixel(color, d);
        var roll :| 0 <= roll < 3;
        d := NextDrift(d, maxd, roll);
        rolls := rolls + [roll];
        assert rolls[..|rolls| - 1] == old(rolls);
        ScrollIn(strip, c);
    }
  }

  /** Every animation of the list is well formed and still shows what it was seeded with. */
  ghost predicate Shows(xs: seq<Animation>)
    reads xs, set x | x in xs :: x.strip.buf
  {
    forall x :: x in xs ==> x.Valid() && x.Seeded()
  }

  /**
   * Creating an animation on `strip`: an ambient one seeds that strip and
   * writes no other pixel, a party one writes nothing, so every animation of
   * `others` on a strip apart from `strip` still shows what it showed.
   */
  method NewAnimation(strip: Strip, effect: Effect, ghost others: seq<Animation>) returns (a: Animation)
    requires strip.Valid()
    requires Shows(others) && forall x :: x in others ==> Apart(x.strip, strip)
    modifies strip.buf
    ensures fresh(a) && a.strip == strip && a.effect == effect
    ensures Shows(others + [a])
    ensures strip.KeepsOutside(old(strip.buf[..]))
    ensures effect.Party? ==> unchanged(strip.buf)
  {
    ghost var before := strip.buf[..];
    if effect.Ambient? {
      a := new Animation.Ambient(strip, effect.color);
    } else {
      a := new Animation.Party(strip);
    }
    forall x | x in others
      ensures x.Seeded()
    {
      if x.effect.Ambient? && x.strip.buf == strip.buf {
        ApartPixelsKept(strip, x.strip, before);
      }
    }
  }


}
