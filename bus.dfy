/**
 * The bus controller of main.ts: its state record, the buttons, the radio
 * receive handler and `setMode`, which rebuilds the list of animations
 * over the ceiling strip and the four segments of the wall strip.
 *
 * A radio send is an append to `sent`; `input.runningTime()` is the
 * parameter `now` of each handler.
 */
module Bus {
  import opened Wrappers
  import opened BusProtocol
  import opened BusStrip
  import opened BusAnimation

  /** Where a strip's pixels lie: on the wall strip or on the ceiling strip, and which range. */
  datatype Footprint = Footprint(onWall: bool, r: Range)

  /** The strips and segments of main.ts, as laid out on the two physical strips. */
  function FootprintOf(id: StripId): (f: Footprint)
    ensures f.r.offset + f.r.length <= (if f.onWall then WallLength else CeilingLength)
  {
    var segs := WallSegments(WallLength);
    match id
    case Ceiling => Footprint(false, Range(0, CeilingLength))
    case Wall => Footprint(true, Range(0, WallLength))
    case CounterTop => Footprint(true, segs[0])
    case AC => Footprint(true, segs[1])
    case Stove => Footprint(true, segs[2])
    case Seat => Footprint(true, segs[3])
  }

  predicate Disjoint(a: Footprint, b: Footprint)
  {
    a.onWall != b.onWall || a.r.offset + a.r.length <= b.r.offset || b.r.offset + b.r.length <= a.r.offset
  }

  /** The three greys of the ambient mode, as `rgb` packs them. */
  const Grey100 := 0x64_6464
  const Grey64 := 0x40_4040
  const Grey32 := 0x20_2020

  /** Each grey is the word `rgb` packs for it. */
  lemma GreyColours()
    ensures Rgb(100, 100, 100) == Grey100
    ensures Rgb(64, 64, 64) == Grey64
    ensures Rgb(32, 32, 32) == Grey32
  {
    PackColorChannels(100, 100, 100);
    PackColorChannels(64, 64, 64);
    PackColorChannels(32, 32, 32);
  }

  /**
   * As written, the first pixel an ambient animation writes for a grey
   * target, the ceiling's rgb(100, 100, 100) among them, shows no red,
   * while the corrected packing shows the target's red.
   */
  lemma {:induction false} GreyPixelAsWrittenHasNoRed(c: int)
    requires 0 < c < 256
    ensures Red(Rgb(c, c, c)) == c
    ensures Red(AmbientPixelAsWritten(Rgb(c, c, c), 0)) == 0
    ensures Red(AmbientPixel(Rgb(c, c, c), 0)) == c
  {
    GreyDriftFits(c, 0);
    AmbientPixelAsWrittenDropsRed(Rgb(c, c, c), 0);
  }

  /** An animation to create: on which strip, with which effect. */
  datatype Placement = Placement(strip: StripId, effect: Effect)

  /**
   * The animations `setMode(value)` creates, in order: five ambient greys
   * for Ambient (1), two party animations for Party (2), and none for Off
   * or any other number.
   */
  function ModePlan(value: int): (plan: seq<Placement>)
    ensures value == Ordinal(Mode.Ambient) ==> |plan| == 5 && forall i :: 0 <= i < 5 ==> plan[i].effect.Ambient?
    ensures value == Ordinal(Mode.Party) ==> |plan| == 2 && forall i :: 0 <= i < 2 ==> plan[i].effect.Party?
    ensures value != Ordinal(Mode.Ambient) && value != Ordinal(Mode.Party) ==> plan == []
  {
    if value == Ordinal(Mode.Ambient) then
      [ Placement(Ceiling, Effect.Ambient(Grey100)),
        Placement(Seat, Effect.Ambient(Grey64)),
        Placement(Stove, Effect.Ambient(Grey32)),
        Placement(AC, Effect.Ambient(Grey32)),
        Placement(CounterTop, Effect.Ambient(Grey32)) ]
    else if value == Ordinal(Mode.Party) then
      [ Placement(Ceiling, Effect.Party), Placement(Wall, Effect.Party) ]
    else
      []
  }

  /** Some animation of the plan drives pixel k of the wall strip (`onWall`) or of the ceiling strip. */
  predicate Animates(plan: seq<Placement>, onWall: bool, k: int)
  {
    exists i :: 0 <= i < |plan| && FootprintOf(plan[i].strip).onWall == onWall && Covers(FootprintOf(plan[i].strip).r, k)
  }

  /**
   * In Ambient and in Party mode the animations never share a pixel, and
   * together they drive every pixel of both strips; in any other mode
   * nothing is driven.
   */
  lemma {:induction false} ModePlanPartitions(value: int)
    ensures value == Ordinal(Mode.Ambient) || value == Ordinal(Mode.Party) ==>
              && (forall i, j :: 0 <= i < j < |ModePlan(value)| ==>
                    Disjoint(FootprintOf(ModePlan(value)[i].strip), FootprintOf(ModePlan(value)[j].strip)))
              && (forall onWall: bool, k :: 0 <= k < (if onWall then WallLength else CeilingLength) ==>
                    Animates(ModePlan(value), onWall, k))
    ensures value != Ordinal(Mode.Ambient) && value != Ordinal(Mode.Party) ==>
              forall onWall: bool, k :: !Animates(ModePlan(value), onWall, k)
  {
    var plan := ModePlan(value);
    if value == Ordinal(Mode.Ambient) || value == Ordinal(Mode.Party) {
      forall onWall: bool, k | 0 <= k < (if onWall then WallLength else CeilingLength)
        ensures Animates(plan, onWall, k)
      {
        if !onWall {
          assert FootprintOf(plan[0].strip).onWall == onWall && Covers(FootprintOf(plan[0].strip).r, k);
        } else if value == Ordinal(Mode.Party) {
          assert FootprintOf(plan[1].strip).onWall == onWall && Covers(FootprintOf(plan[1].strip).r, k);
        } else {
          var i := if k < 60 then 4 else if k < 120 then 3 else if k < 180 then 2 else 1;
          assert FootprintOf(plan[i].strip).onWall == onWall && Covers(FootprintOf(plan[i].strip).r, k);
        }
      }
    }
  }

  /** `state` and the strips of main.ts. */
  class Controller {
    const ceiling: Strip
    const wall: Strip
    const countertop: Strip
    const ac: Strip
    const stove: Strip
    const seat: Strip

    var lastCommand: int
    var brightness: int
    var mode: Mode
    var animations: seq<Animation>
    /** The numbers sent on the radio, oldest first. */
    var sent: seq<int>

    function StripOf(id: StripId): (s: Strip)
    {
      match id
      case Ceiling => ceiling
      case Wall => wall
      case CounterTop => countertop
      case AC => ac
      case Stove => stove
      case Seat => seat
    }

    /** The strip lies where its footprint says, on the buffer of the physical strip it belongs to. */
    predicate Laid(s: Strip, f: Footprint)
    {
      s.buf == (if f.onWall then wall.buf else ceiling.buf) && s.start == f.r.offset && s.length == f.r.length
    }

    ghost predicate Valid()
      reads this, animations
    {
      && ceiling.buf != wall.buf
      && ceiling.buf.Length == CeilingLength && wall.buf.Length == WallLength
      && ceiling.start == 0 && ceiling.length == CeilingLength
      && wall.start == 0 && wall.length == WallLength
      && countertop.buf == wall.buf && countertop.start == 0 && countertop.length == 60
      && ac.buf == wall.buf && ac.start == 60 && ac.length == 60
      && stove.buf == wall.buf && stove.start == 120 && stove.length == 60
      && seat.buf == wall.buf && seat.start == 180 && seat.length == WallLength - 180
      && 0 <= brightness <= 255
      && (forall i :: 0 <= i < |animations| ==> animations[i].strip.buf == ceiling.buf || animations[i].strip.buf == wall.buf)
    }

    /** The initial `state`, with the strips created and the wall cut into its segments. */
    constructor (now: int)
      ensures Valid()
      ensures lastCommand == now && brightness == 64 && mode == Off && animations == [] && sent == []
      ensures fresh(ceiling.buf) && fresh(wall.buf)
    {
      var c := new Strip.Create(CeilingLength);
      var w := new Strip.Create(WallLength);
      var segs := WallSegments(WallLength);
      ceiling, wall := c, w;
      countertop := new Strip.View(w, segs[0]);
      ac := new Strip.View(w, segs[1]);
      stove := new Strip.View(w, segs[2]);
      seat := new Strip.View(w, segs[3]);
      lastCommand, brightness, mode, animations, sent := now, 64, Off, [], [];
    }

    /** Every strip and segment lies where its footprint says. */
    lemma StripsLaid(id: StripId)
      requires Valid()
      ensures Laid(StripOf(id), FootprintOf(id))
      ensures StripOf(id).Valid()
    {
    }

    /** Both pixel buffers hold what they held in the earlier state. */
    twostate predicate BuffersKept()
      reads this, ceiling.buf, wall.buf
    {
      unchanged(ceiling.buf, wall.buf)
    }

    /**
     * The list holds one animation per entry of `plan` before the k-th, in
     * order, each on the entry's strip with the entry's effect and still
     * showing what it was seeded with.
     */
    ghost predicate Placed(plan: seq<Placement>, k: nat)
      reads this, animations, set i | 0 <= i < |animations| :: animations[i].strip.buf
    {
      k <= |plan| && |animations| == k &&
      (forall i :: 0 <= i < k ==> animations[i].strip == StripOf(plan[i].strip) && animations[i].effect == plan[i].effect) &&
      Shows(animations)
    }

    /** No two entries of the plan share a pixel: their strips lie apart. */
    predicate Spread(plan: seq<Placement>)
    {
      forall j, l :: 0 <= j < l < |plan| ==> Apart(StripOf(plan[j].strip), StripOf(plan[l].strip))
    }

    /** The strips of every mode's plan lie apart, as their footprints are disjoint. */
    lemma ModePlanSpread(value: int)
      requires Valid()
      ensures Spread(ModePlan(value))
    {
      ModePlanPartitions(value);
      var plan := ModePlan(value);
      forall j, l | 0 <= j < l < |plan|
        ensures Apart(StripOf(plan[j].strip), StripOf(plan[l].strip))
      {
        StripsLaid(plan[j].strip);
        StripsLaid(plan[l].strip);
      }
    }

    /**
     * `state.animations.push(new AmbientAnimation(strip, color))` or
     * `push(new PartyAnimation(strip))` for entry k of the plan. The new
     * animation is created on a strip apart from those of the entries
     * before it, which therefore keep their pixels.
     */
    method Push(plan: seq<Placement>, k: nat) returns (a: Animation)
      requires Valid() && k < |plan| && Placed(plan, k)
      requires forall j :: 0 <= j < k ==> Apart(StripOf(plan[j].strip), StripOf(plan[k].strip))
      modifies this, ceiling.buf, wall.buf
      ensures Valid() && Placed(plan, k + 1)
      ensures lastCommand == old(lastCommand) && brightness == old(brightness) && mode == old(mode) && sent == old(sent)
      ensures animations == old(animations) + [a] && fresh(a)
      ensures StripOf(plan[k].strip).KeepsOutside(old(StripOf(plan[k].strip).buf[..]))
      ensures StripOf(plan[k].strip).buf != ceiling.buf ==> unchanged(ceiling.buf)
      ensures StripOf(plan[k].strip).buf != wall.buf ==> unchanged(wall.buf)
      ensures plan[k].effect.Party? ==> BuffersKept()
    {
      var p := plan[k];
      StripsLaid(p.strip);
      a := NewAnimation(StripOf(p.strip), p.effect, animations);
      animations := animations + [a];
    }

    /**
     * The pushes of `setMode`, onto the emptied list: one new animation per
     * entry of the plan, in order. The entries lie apart, so every animation
     * still shows its seeding when the list is complete, and a plan of party
     * animations leaves the pixels alone.
     */
    method PushPlan(plan: seq<Placement>)
      requires Valid() && animations == [] && Spread(plan)
      modifies this, ceiling.buf, wall.buf
      ensures Valid() && Placed(plan, |plan|)
      ensures lastCommand == old(lastCommand) && brightness == old(brightness) && mode == old(mode) && sent == old(sent)
      ensures forall a :: a in animations ==> fresh(a)
      ensures (forall i :: 0 <= i < |plan| ==> plan[i].effect.Party?) ==> BuffersKept()
    {
      for k := 0 to |plan|
        invariant Valid() && Placed(plan, k)
        invariant lastCommand == old(lastCommand) && brightness == old(brightness) && mode == old(mode) && sent == old(sent)
        invariant forall a :: a in animations ==> fresh(a)
        invariant (forall i :: 0 <= i < |plan| ==> plan[i].effect.Party?) ==> BuffersKept()
      {
        var a := Push(plan, k);
      }
    }

    /**
     * `setMode(value)`: the list is replaced by fresh animations, one per
     * entry of the plan for `value`, each on its strip with its effect and
     * showing what it was seeded with; a mode other than Ambient leaves the
     * pixels alone. The mode itself is not stored.
     */
    method SetMode(value: int)
      requires Valid()
      modifies this, ceiling.buf, wall.buf
      ensures Valid()
      ensures lastCommand == old(lastCommand) && brightness == old(brightness) && mode == old(mode) && sent == old(sent)
      ensures Placed(ModePlan(value), |ModePlan(value)|) && forall a :: a in animations ==> fresh(a)
      ensures value != Ordinal(Mode.Ambient) ==> BuffersKept()
    {
      animations := [];
      ModePlanSpread(value);
      PushPlan(ModePlan(value));
    }
  
    /**
     * Button A or button B (the two handlers are the same): note the time,
     * step the brightness by 8 modulo 255, and send the new brightness.
     * The message sent decodes to exactly that brightness.
     */
    method PressAOrB(now: int)
      requires Valid()
      modifies this
      ensures Valid()
      ensures lastCommand == now && brightness == NextBrightness(old(brightness))
      ensures mode == old(mode) && animations == old(animations)
      ensures sent == old(sent) + [PackState(Tag.Brightness, brightness)]
      ensures DecodeState(sent[|sent| - 1]) == Some(SetBrightness(brightness))
    {
      lastCommand := now;
      brightness := NextBrightness(brightness);
      sent := sent + [PackState(Tag.Brightness, brightness)];
      PackStateRoundTrip(Tag.Brightness, brightness);
    }

    /**
     * Button AB: note the time, move to the next mode and send it. The
     * sender's own animations are not rebuilt; the message decodes to the
     * new mode's number.
     */
    method PressAB(now: int)
      requires Valid()
      modifies this
      ensures Valid()
      ensures lastCommand == now && mode == NextMode(old(mode))
      ensures brightness == old(brightness) && animations == old(animations)
      ensures sent == old(sent) + [PackState(Tag.Mode, Ordinal(mode))]
      ensures DecodeState(sent[|sent| - 1]) == Some(SelectMode(Ordinal(mode)))
    {
      lastCommand := now;
      mode := NextMode(mode);
      sent := sent + [PackState(Tag.Mode, Ordinal(mode))];
      PackStateRoundTrip(Tag.Mode, Ordinal(mode));
    }

    /**
     * The radio receive handler: a Brightness message sets the brightness
     * to its byte, a Mode message runs `setMode` on its byte, and any other
     * tag changes nothing.
     */
    method Receive(n: int)
      requires Valid()
      modifies this, ceiling.buf, wall.buf
      ensures Valid()
      ensures lastCommand == old(lastCommand) && mode == old(mode) && sent == old(sent)
      ensures match DecodeState(n)
        case None =>
          brightness == old(brightness) && animations == old(animations) && BuffersKept()
        case Some(SetBrightness(b)) =>
          brightness == b && animations == old(animations) && BuffersKept()
        case Some(SelectMode(m)) =>
          brightness == old(brightness) && Placed(ModePlan(m), |ModePlan(m)|) &&
          (forall a :: a in animations ==> fresh(a)) &&
          (m != Ordinal(Mode.Ambient) ==> BuffersKept())
    {
      match DecodeState(n)
      case None =>
      case Some(SetBrightness(b)) =>
        brightness := b;
      case Some(SelectMode(m)) =>
        SetMode(m);
    }
  }

  /**
   * A Mode message sent by button AB selects, at every receiver, the plan
   * of the sender's new mode: none for Off, five ambient greys for
   * Ambient, two party animations for Party.
   */
  lemma {:induction false} ModeMessageSelectsPlan(m: Mode)
    ensures DecodeState(PackState(Tag.Mode, Ordinal(m))) == Some(SelectMode(Ordinal(m)))
    ensures |ModePlan(Ordinal(m))| == (match m case Off => 0 case Ambient => 5 case Party => 2)
  {
    PackStateRoundTrip(Tag.Mode, Ordinal(m));
  }
}
