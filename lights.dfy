/**
 * The single-strip light controller of lights/main.ts: its module
 * variables, its button handlers, the liveness check, `broadcast` and the
 * radio receive handler.
 *
 * A radio send is an append to `sent`; `input.runningTime()` is the
 * parameter `now` of each handler, and the levels `render` writes to the
 * pins are returned to the caller.
 */
module Lights {
  import opened Wrappers
  import opened LightsCodec
  import opened LightsRender

  /** `ASLEEP = 10 * 6000`: one minute in milliseconds. */
  const Asleep := 10 * 6000

  /** Button A: `max(0, brightness - 64)`. */
  function Dimmer(b: int): (r: int)
    requires 0 <= b <= 255
    ensures 0 <= r <= b
    ensures b > 0 ==> r < b
    ensures r == 0 <==> b <= 64
  {
    if b - 64 < 0 then 0 else b - 64
  }

  /** Button B: `min(0xff, brightness + 64)`. */
  function Brighter(b: int): (r: int)
    requires 0 <= b <= 255
    ensures b <= r <= 255
    ensures b < 255 ==> b < r
    ensures r == 255 <==> b >= 191
  {
    if 0xff < b + 64 then 0xff else b + 64
  }

  /** Four presses of A switch the light off and four presses of B bring it to full, from any brightness. */
  lemma {:induction false} FourPressesSaturate(b: int)
    requires 0 <= b <= 255
    ensures Dimmer(Dimmer(Dimmer(Dimmer(b)))) == 0
    ensures Brighter(Brighter(Brighter(Brighter(b)))) == 255
  {
    var d1 := Dimmer(b);
    var d2 := Dimmer(d1);
    var d3 := Dimmer(d2);
    assert d3 <= 64;
    var u1 := Brighter(b);
    var u2 := Brighter(u1);
    var u3 := Brighter(u2);
    assert u3 >= 191;
  }

  /** The liveness condition as written: `heartBeat - runningTime() > ASLEEP`. */
  predicate AsleepAsWritten(heartBeat: int, now: int): (asleep: bool)
    ensures asleep ==> now < heartBeat
  {
    heartBeat - now > Asleep
  }

  /** The liveness condition meant: more than `ASLEEP` milliseconds since the last heartbeat. */
  predicate IsAsleep(heartBeat: int, now: int): (asleep: bool)
    ensures asleep ==> heartBeat < now
    ensures heartBeat + Asleep < now ==> asleep
  {
    now - heartBeat > Asleep
  }

  /**
   * The heartbeat only ever holds an earlier reading of the clock, so the
   * condition as written never holds, while the intended one holds once a
   * minute has passed: a node silent since time 0 is asleep at 60001.
   */
  lemma {:induction false} AsleepAsWrittenNeverFires(heartBeat: int, now: int)
    requires heartBeat <= now
    ensures !AsleepAsWritten(heartBeat, now)
    ensures IsAsleep(heartBeat, now) <==> now > heartBeat + Asleep
    ensures IsAsleep(0, 60001) && !AsleepAsWritten(0, 60001)
  {
  }

  /** The module variables of lights/main.ts. */
  class LightNode {
    var brightness: int
    var colorMode: bool
    var heartBeat: int
    var voltage: int
    /** The frames sent on the radio, oldest first. */
    var sent: seq<seq<byte>>

    ghost predicate Valid()
      reads this
    {
      0 <= brightness <= 255
    }

    /** The last frame sent decodes to the node's own state. */
    ghost predicate LastSentIsState()
      reads this
    {
      |sent| > 0 && Decode(sent[|sent| - 1]) == Some(LightState(brightness, colorMode))
    }

    /**
     * Start-up: brightness 64, white mode, a heartbeat at the start time and
     * a voltage of 14000, then the `broadcast(Message.Awake)` at the end of
     * the program, which asks the other nodes for their state.
     */
    constructor (now: nat)
      ensures Valid()
      ensures brightness == 64 && !colorMode && heartBeat == now && voltage == 14000
      ensures sent == [Frame(Awake, 64, false)]
      ensures Decode(sent[0]) == Some(AwakeRequest)
    {
      brightness, colorMode, heartBeat, voltage, sent := 64, false, now, 14000, [];
      new;
      Broadcast(Awake, now);
      AwakeFrameRoundTrip(64, false);
    }

    /**
     * `broadcast(msg)`: refresh the heartbeat, fill a 3-byte buffer with the
     * tag, the brightness and the colour mode, and send it.
     */
    method Broadcast(tag: Tag, now: nat)
      modifies this
      ensures heartBeat == now
      ensures brightness == old(brightness) && colorMode == old(colorMode) && voltage == old(voltage)
      ensures sent == old(sent) + [Frame(tag, brightness, colorMode)]
    {
      heartBeat := now;
      var buf := new byte[3];
      buf[0] := TagCode(tag);
      buf[1] := ToByte(brightness);
      buf[2] := if colorMode then 1 else 0;
      assert buf[..] == Frame(tag, brightness, colorMode);
      sent := sent + [buf[..]];
    }

    /** A Light broadcast of a valid state: its frame decodes back to that state. */
    method BroadcastState(now: nat)
      requires Valid()
      modifies this
      ensures Valid() && LastSentIsState()
      ensures heartBeat == now
      ensures brightness == old(brightness) && colorMode == old(colorMode) && voltage == old(voltage)
      ensures sent == old(sent) + [Frame(Light, brightness, colorMode)]
    {
      Broadcast(Light, now);
      LightFrameRoundTrip(brightness, colorMode);
    }

    /** Button A: dimmer by 64, not below 0, then broadcast. */
    method PressA(now: nat)
      requires Valid()
      modifies this
      ensures Valid() && LastSentIsState()
      ensures brightness == Dimmer(old(brightness)) && colorMode == old(colorMode) && voltage == old(voltage)
      ensures heartBeat == now && sent == old(sent) + [Frame(Light, brightness, colorMode)]
    {
      brightness := Dimmer(brightness);
      BroadcastState(now);
    }

    /** Holding A, or holding A and B together: off, then broadcast. */
    method HoldAOrAB(now: nat)
      requires Valid()
      modifies this
      ensures Valid() && LastSentIsState()
      ensures brightness == 0 && colorMode == old(colorMode) && voltage == old(voltage)
      ensures heartBeat == now && sent == old(sent) + [Frame(Light, 0, colorMode)]
    {
      brightness := 0;
      BroadcastState(now);
    }

    /** Button B: brighter by 64, not above 255, then broadcast. */
    method PressB(now: nat)
      requires Valid()
      modifies this
      ensures Valid() && LastSentIsState()
      ensures brightness == Brighter(old(brightness)) && colorMode == old(colorMode) && voltage == old(voltage)
      ensures heartBeat == now && sent == old(sent) + [Frame(Light, brightness, colorMode)]
    {
      brightness := Brighter(brightness);
      BroadcastState(now);
    }

    /** Holding B: full brightness, then broadcast. */
    method HoldB(now: nat)
      requires Valid()
      modifies this
      ensures Valid() && LastSentIsState()
      ensures brightness == 255 && colorMode == old(colorMode) && voltage == old(voltage)
      ensures heartBeat == now && sent == old(sent) + [Frame(Light, 255, colorMode)]
    {
      brightness := 0xff;
      BroadcastState(now);
    }

    /** Buttons A and B together: switch between white and colour, then broadcast. */
    method PressAB(now: nat)
      requires Valid()
      modifies this
      ensures Valid() && LastSentIsState()
      ensures colorMode == !old(colorMode) && brightness == old(brightness) && voltage == old(voltage)
      ensures heartBeat == now && sent == old(sent) + [Frame(Light, brightness, colorMode)]
    {
      colorMode := !colorMode;
      BroadcastState(now);
    }

    /**
     * One pass of the liveness loop: a node that has not broadcast for more
     * than `ASLEEP` switches off and broadcasts, which refreshes its
     * heartbeat; otherwise nothing changes.
     */
    method CheckLiveness(now: nat) returns (fired: bool)
      requires Valid()
      modifies this
      ensures Valid()
      ensures fired <==> IsAsleep(old(heartBeat), now)
      ensures fired ==> brightness == 0 && heartBeat == now && LastSentIsState() &&
                        sent == old(sent) + [Frame(Light, 0, colorMode)]
      ensures !fired ==> brightness == old(brightness) && heartBeat == old(heartBeat) && sent == old(sent)
      ensures colorMode == old(colorMode) && voltage == old(voltage)
    {
      fired := IsAsleep(heartBeat, now);
      if fired {
        brightness := 0;
        BroadcastState(now);
      }
    }

    /**
     * The radio receive handler. No buffer, or a frame that does not
     * decode, changes nothing. A Light frame takes on the sender's
     * brightness and colour mode and renders them, without refreshing the
     * heartbeat. An Awake frame answers with this node's state. A Voltage
     * frame records the reading.
     */
    method Receive(packet: Option<seq<byte>>, now: nat) returns (rendered: Option<Levels>)
      requires Valid()
      modifies this
      ensures Valid()
      ensures packet.None? || Decode(packet.value).None? ==>
                brightness == old(brightness) && colorMode == old(colorMode) && voltage == old(voltage) &&
                heartBeat == old(heartBeat) && sent == old(sent) && rendered.None?
      ensures packet.Some? ==> match Decode(packet.value)
        case None => true
        case Some(LightState(b, c)) =>
          brightness == b && colorMode == c && rendered == Some(Render(b, c, now)) &&
          voltage == old(voltage) && heartBeat == old(heartBeat) && sent == old(sent)
        case Some(AwakeRequest) =>
          brightness == old(brightness) && colorMode == old(colorMode) && voltage == old(voltage) &&
          heartBeat == now && sent == old(sent) + [Frame(Light, brightness, colorMode)] &&
          LastSentIsState() && rendered.None?
        case Some(VoltageReport(v)) =>
          voltage == v && brightness == old(brightness) && colorMode == old(colorMode) &&
          heartBeat == old(heartBeat) && sent == old(sent) && rendered.None?
    {
      rendered := None;
      if packet.None? {
        return;
      }
      match Decode(packet.value)
      case None =>
      case Some(LightState(b, c)) =>
        brightness, colorMode := b, c;
        rendered := Some(Render(brightness, colorMode, now));
      case Some(AwakeRequest) =>
        BroadcastState(now);
      case Some(VoltageReport(v)) =>
        voltage := v;
    }
  }

  /**
   * A state broadcast by one node and received by another: the receiver
   * takes on the sender's brightness and colour mode and renders them.
   */
  method Relay(sender: LightNode, receiver: LightNode, now: nat) returns (rendered: Option<Levels>)
    requires sender.Valid() && receiver.Valid() && sender != receiver
    modifies sender, receiver
    ensures receiver.brightness == sender.brightness && receiver.colorMode == sender.colorMode
    ensures rendered == Some(Render(sender.brightness, sender.colorMode, now))
  {
    sender.BroadcastState(now);
    rendered := receiver.Receive(Some(sender.sent[|sender.sent| - 1]), now);
  }
}
