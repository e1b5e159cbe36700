/**
 * `render()` of lights/main.ts: the levels written to the four output
 * pins for a brightness, a colour mode and the time. P0 drives the white
 * channel; P1, P2 and P8 drive red, green and blue.
 *
 * `pins.map` and `runningTime() / 1000` are taken with floor division.
 */
module LightsRender {

  /** The levels of pins P0, P1, P2 and P8, in that order. */
  datatype Levels = Levels(p0: int, p1: int, p2: int, p8: int)

  /** `pins.map(b, 0, 0xff, 0, 1023)`: a brightness byte scaled to the 10-bit PWM range. */
  function Scale(b: int): (v: int)
    ensures 0 <= b <= 255 ==> 0 <= v <= 1023
    ensures 0 <= b ==> (v == 0 <==> b == 0)
    ensures b == 255 ==> v == 1023
  {
    b * 1023 / 255
  }

  /** Scaling never reverses the order of two brightnesses. */
  lemma {:induction false} ScaleMonotone(a: int, b: int)
    requires a <= b
    ensures Scale(a) <= Scale(b)
  {
    assert a * 1023 <= b * 1023;
  }

  /** `(runningTime() / 1000) % 64`: whole seconds, modulo 64. */
  function Phase(now: nat): (t: int)
    ensures 0 <= t < 64
  {
    (now / 1000) % 64
  }

  /**
   * The three branches of `render`: everything off at brightness 0; white
   * at the scaled brightness; or, in colour mode, red and green sharing the
   * scaled brightness as green ramps up by 16 per second, with blue always
   * 0 and the white channel off.
   */
  function Render(brightness: int, colorMode: bool, now: nat): (l: Levels)
    ensures brightness == 0 ==> l == Levels(0, 0, 0, 0)
    ensures brightness != 0 && !colorMode ==> l == Levels(Scale(brightness), 0, 0, 0)
    ensures brightness != 0 && colorMode ==>
              && l.p0 == 0 && l.p8 == 0
              && l.p2 == 16 * Phase(now)
              && l.p1 + l.p2 + l.p8 == Scale(brightness)
  {
    var v := Scale(brightness);
    if brightness == 0 then Levels(0, 0, 0, 0)
    else if !colorMode then Levels(v, 0, 0, 0)
    else
      var t := Phase(now);
      var r := v - t * 16;
      var g := t * 16;
      var b := v - r - g;
      Levels(0, r, g, b)
  }

  /** Half brightness in white mode drives P0 at 513 of 1023. */
  lemma RenderHalfWhite(now: nat)
    ensures Render(128, false, now) == Levels(513, 0, 0, 0)
  {
  }

  /**
   * No level is clamped: in colour mode a dim light late in the ramp asks
   * P1 for a negative level.
   */
  lemma RenderRedGoesNegative()
    ensures Render(1, true, 63000).p1 == 4 - 1008
  {
  }

  /** In colour mode red is never above the scaled brightness, and green never above 1008. */
  lemma {:induction false} RenderColourBounds(brightness: int, now: nat)
    requires 0 < brightness <= 255
    ensures Render(brightness, true, now).p1 <= Scale(brightness)
    ensures 0 <= Render(brightness, true, now).p2 <= 16 * 63
  {
  }
}
