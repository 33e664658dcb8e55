/**
 * The trailer controller's light logic in src/phase1/src/main.cpp: the global
 * flags `output_enabled`, `process_frames`, `left_state`, `right_state` and
 * `tail_state` are the fields of class `Controller`, and the `digitalWrite`
 * calls made on the three lamp pins are recorded, in order, in `writes`.
 */
module TrailerController {
  import opened Serial
  import LinChecksum
  import LinPhase1

  datatype Option<T> = None | Some(value: T)

  /** The identifier of the lights frame sent by the car. */
  const LIN_FRAME_PID: byte := 0xCF
  const TAIL_PIN: int := 2
  const LEFT_PIN: int := 3
  const RIGHT_PIN: int := 4

  /** The icons of the status page, one character each. */
  const LEFT_ARROW_ICON: char := '\U{25C4}'
  const HEADLIGHT_ICON: char := '\U{1F4A1}'
  const RIGHT_ARROW_ICON: char := '\U{25BA}'

  /** One `digitalWrite(pin, level)` call. */
  datatype PinWrite = PinWrite(pin: int, level: bool)

  /** The three light states of the four-pin trailer connector. */
  datatype Lights = Lights(left: bool, right: bool, tail: bool)

  /** The level the last write in `writes` gave `pin`, if any wrote it. */
  function LastWrite(writes: seq<PinWrite>, pin: int): Option<bool>
    decreases |writes|
  {
    if writes == [] then None
    else if writes[|writes| - 1].pin == pin then Some(writes[|writes| - 1].level)
    else LastWrite(writes[..|writes| - 1], pin)
  }

  /** The level of `pin` after `writes`; `setup` drives the lamp pins low before anything else. */
  function Level(writes: seq<PinWrite>, pin: int): bool
  {
    match LastWrite(writes, pin)
    case None => false
    case Some(level) => level
  }

  /** Writes made later decide a pin's level; a pin they leave alone keeps its earlier level. */
  lemma {:induction false} LastWriteOfAppend(writes: seq<PinWrite>, later: seq<PinWrite>, pin: int)
    ensures LastWrite(writes + later, pin)
         == if LastWrite(later, pin).Some? then LastWrite(later, pin) else LastWrite(writes, pin)
    decreases |later|
  {
    if later != [] {
      var all := writes + later;
      assert all[|all| - 1] == later[|later| - 1];
      assert all[..|all| - 1] == writes + later[..|later| - 1];
      LastWriteOfAppend(writes, later[..|later| - 1], pin);
    } else {
      assert writes + later == writes;
    }
  }

  /** The last write to `pin` among two writes. */
  lemma LastWriteOfPair(a: PinWrite, b: PinWrite, pin: int)
    ensures LastWrite([a, b], pin)
         == if b.pin == pin then Some(b.level) else if a.pin == pin then Some(a.level) else None
  {
    assert [a, b][..1] == [a];
    assert [a][..0] == [];
    assert LastWrite([a], pin) == if a.pin == pin then Some(a.level) else None;
  }

  /** `setLightState(pin, state)`: the write it makes, which is none while the output is disabled. */
  function Gated(enabled: bool, pin: int, level: bool): (w: seq<PinWrite>)
    ensures |w| <= 1 && (w != [] <==> enabled)
    ensures w != [] ==> w[0].pin == pin && w[0].level == level
  {
    if enabled then [PinWrite(pin, level)] else []
  }

  /** Setting the three lamps, left, right, tail, as `processLightLINFrame` and `handleControlPage` do. */
  function LightWrites(enabled: bool, l: Lights): seq<PinWrite>
  {
    Gated(enabled, LEFT_PIN, l.left) + Gated(enabled, RIGHT_PIN, l.right) + Gated(enabled, TAIL_PIN, l.tail)
  }

  /** With the output enabled, setting the lamps writes left, right and tail, in that order. */
  lemma LightWritesEnabled(l: Lights)
    ensures LightWrites(true, l) == [PinWrite(LEFT_PIN, l.left), PinWrite(RIGHT_PIN, l.right), PinWrite(TAIL_PIN, l.tail)]
  {
  }

  /** With the output enabled, setting the lamps makes each pin show its light; disabled, no pin changes. */
  lemma LightWritesShowLights(writes: seq<PinWrite>, enabled: bool, l: Lights)
    ensures enabled ==> Level(writes + LightWrites(enabled, l), LEFT_PIN) == l.left
    ensures enabled ==> Level(writes + LightWrites(enabled, l), RIGHT_PIN) == l.right
    ensures enabled ==> Level(writes + LightWrites(enabled, l), TAIL_PIN) == l.tail
    ensures !enabled ==> writes + LightWrites(enabled, l) == writes
  {
    if enabled {
      var lr := [PinWrite(LEFT_PIN, l.left), PinWrite(RIGHT_PIN, l.right)];
      var t := [PinWrite(TAIL_PIN, l.tail)];
      assert LightWrites(enabled, l) == lr + t;
      assert writes + LightWrites(enabled, l) == (writes + lr) + t;
      LastWriteOfPair(lr[0], lr[1], LEFT_PIN);
      LastWriteOfPair(lr[0], lr[1], RIGHT_PIN);
      LastWriteOfAppend(writes, lr, LEFT_PIN);
      LastWriteOfAppend(writes, lr, RIGHT_PIN);
      LastWriteOfAppend(writes + lr, t, LEFT_PIN);
      LastWriteOfAppend(writes + lr, t, RIGHT_PIN);
      LastWriteOfAppend(writes + lr, t, TAIL_PIN);
    }
  }

  /** What `toggleOutputEnabled` writes when it disables the output: every lamp low. */
  function AllLow(): seq<PinWrite>
  {
    [PinWrite(LEFT_PIN, false), PinWrite(RIGHT_PIN, false), PinWrite(TAIL_PIN, false)]
  }

  /** After disabling, every lamp is off, whatever was lit before. */
  lemma DisableTurnsLampsOff(writes: seq<PinWrite>)
    ensures !Level(writes + AllLow(), LEFT_PIN)
    ensures !Level(writes + AllLow(), RIGHT_PIN)
    ensures !Level(writes + AllLow(), TAIL_PIN)
  {
    assert AllLow() == LightWrites(true, Lights(false, false, false));
    LightWritesShowLights(writes, true, Lights(false, false, false));
  }

  /** Lighting `pin` and turning it off again. */
  function Blink(pin: int): seq<PinWrite>
  {
    [PinWrite(pin, true), PinWrite(pin, false)]
  }

  /** The writes of `runTestSequence`: all off, then left, right and tail lit one at a time. */
  function TestPattern(): seq<PinWrite>
  {
    AllLow() + Blink(LEFT_PIN) + Blink(RIGHT_PIN) + Blink(TAIL_PIN)
  }

  /** The pins that `writes` drives high, in order. */
  function LitInTurn(writes: seq<PinWrite>): seq<int>
    decreases |writes|
  {
    if writes == [] then []
    else LitInTurn(writes[..|writes| - 1]) + (if writes[|writes| - 1].level then [writes[|writes| - 1].pin] else [])
  }

  /** The pins lit by two runs of writes are those lit by the first, then those lit by the second. */
  lemma {:induction false} LitInTurnOfAppend(writes: seq<PinWrite>, later: seq<PinWrite>)
    ensures LitInTurn(writes + later) == LitInTurn(writes) + LitInTurn(later)
    decreases |later|
  {
    if later != [] {
      var all := writes + later;
      assert all[|all| - 1] == later[|later| - 1];
      assert all[..|all| - 1] == writes + later[..|later| - 1];
      LitInTurnOfAppend(writes, later[..|later| - 1]);
    } else {
      assert writes + later == writes;
    }
  }

  /** Blinking a pin lights that pin once and leaves it off; other pins keep their levels. */
  lemma BlinkLeavesOff(writes: seq<PinWrite>, pin: int, other: int)
    ensures LitInTurn(Blink(pin)) == [pin]
    ensures !Level(writes + Blink(pin), pin)
    ensures other != pin ==> Level(writes + Blink(pin), other) == Level(writes, other)
  {
    var b := Blink(pin);
    assert b[..1] == [b[0]];
    assert b[..1][..0] == [];
    assert LitInTurn(b[..1]) == [pin];
    LastWriteOfPair(b[0], b[1], pin);
    LastWriteOfPair(b[0], b[1], other);
    LastWriteOfAppend(writes, b, pin);
    LastWriteOfAppend(writes, b, other);
  }

  /** The test lights left, right and tail once each, in that order, and leaves every lamp off. */
  lemma TestPatternLightsEachOnce(writes: seq<PinWrite>)
    ensures LitInTurn(TestPattern()) == [LEFT_PIN, RIGHT_PIN, TAIL_PIN]
    ensures !Level(writes + TestPattern(), LEFT_PIN)
    ensures !Level(writes + TestPattern(), RIGHT_PIN)
    ensures !Level(writes + TestPattern(), TAIL_PIN)
  {
    var w0 := writes + AllLow();
    var w1 := w0 + Blink(LEFT_PIN);
    var w2 := w1 + Blink(RIGHT_PIN);
    assert writes + TestPattern() == w2 + Blink(TAIL_PIN);
    BlinkLeavesOff(w0, LEFT_PIN, RIGHT_PIN);
    BlinkLeavesOff(w1, RIGHT_PIN, LEFT_PIN);
    BlinkLeavesOff(w2, TAIL_PIN, LEFT_PIN);
    BlinkLeavesOff(w2, TAIL_PIN, RIGHT_PIN);

    assert LitInTurn(AllLow()) == [] by {
      var a := AllLow();
      assert a[..2] == [a[0], a[1]] && a[..2][..1] == [a[0]] && a[..2][..1][..0] == [];
    }
    LitInTurnOfAppend(AllLow(), Blink(LEFT_PIN));
    LitInTurnOfAppend(AllLow() + Blink(LEFT_PIN), Blink(RIGHT_PIN));
    LitInTurnOfAppend(AllLow() + Blink(LEFT_PIN) + Blink(RIGHT_PIN), Blink(TAIL_PIN));
  }

  /**
   * `processLightLINFrame(dataByte)`: bit 0 is the left signal, bit 1 the
   * right signal and bit 2 the tail lights (`dataByte & 0x01` and so on,
   * taken as a `bool`).
   */
  function LightsOf(dataByte: byte): (l: Lights)
    ensures l.left <==> dataByte % 2 == 1
    ensures l.right <==> dataByte % 4 >= 2
    ensures l.tail <==> dataByte % 8 >= 4
  {
    Lights(Bit(dataByte, 0x01), Bit(dataByte, 0x02), Bit(dataByte, 0x04))
  }

  /** `dataByte & mask` taken as a `bool`, for a one-bit `mask` of 1, 2 or 4. */
  function Bit(dataByte: byte, mask: int): (on: bool)
    requires mask == 1 || mask == 2 || mask == 4
    ensures on <==> dataByte % (2 * mask) >= mask
  {
    (dataByte / mask) % 2 == 1
  }

  /** The data byte a sender puts on the bus for the lights `l`, with every other bit clear. */
  function EncodeLights(l: Lights): (b: byte)
    ensures b < 8
  {
    (if l.left then 1 else 0) + (if l.right then 2 else 0) + (if l.tail then 4 else 0)
  }

  /** Decoding gives back the lights that were encoded. */
  lemma DecodeEncode(l: Lights)
    ensures LightsOf(EncodeLights(l)) == l
  {
  }

  /** Only the low three bits count: the brake and reverse bits above them are ignored. */
  lemma HigherBitsIgnored(dataByte: byte)
    ensures LightsOf(dataByte) == LightsOf(dataByte % 8)
    ensures EncodeLights(LightsOf(dataByte)) == dataByte % 8
  {
    var q, r := dataByte / 8, dataByte % 8;
    assert dataByte == 8 * q + r;
    assert dataByte / 2 == 4 * q + r / 2;
    assert dataByte / 4 == 2 * q + r / 4;
    assert r == r % 2 + 2 * (r / 2 % 2) + 4 * (r / 4 % 2);
  }

  /** The light states after `handleControlPage` with request argument `id` (if any). */
  function ControlLights(id: Option<int>, l: Lights): (r: Lights)
    ensures id.None? ==> r == Lights(false, false, false)
    ensures id.Some? ==> && (r.left != l.left <==> id.value == 0)
                         && (r.right != l.right <==> id.value == 1)
                         && (r.tail != l.tail <==> id.value == 2)
  {
    match id
    case None => Lights(false, false, false)
    case Some(n) =>
      if n == 0 then l.(left := !l.left)
      else if n == 1 then l.(right := !l.right)
      else if n == 2 then l.(tail := !l.tail)
      else l
  }

  /** How many of the three lights differ between `a` and `b`. */
  function Changed(a: Lights, b: Lights): (n: nat)
    ensures n <= 3 && (n == 0 <==> a == b)
  {
    (if a.left != b.left then 1 else 0) + (if a.right != b.right then 1 else 0) + (if a.tail != b.tail then 1 else 0)
  }

  /**
   * An id of 0, 1 or 2 toggles exactly one light, any other id none, and a
   * second request with the same id restores the lights.
   */
  lemma ControlTogglesOne(id: int, l: Lights)
    ensures Changed(l, ControlLights(Some(id), l)) == if 0 <= id <= 2 then 1 else 0
    ensures ControlLights(Some(id), ControlLights(Some(id), l)) == l
  {
  }

  /** The frame test in `loop`: a frame is taken when its last byte is the checksum of the bytes before it. */
  predicate FrameAccepted(buffer: seq<byte>, bytesRead: int)
    requires bytesRead <= |buffer|
    ensures FrameAccepted(buffer, bytesRead) <==>
              bytesRead > 0 && LinChecksum.Accumulator(buffer, bytesRead - 1) + buffer[bytesRead - 1] == 0xFF
  {
    bytesRead > 0 && LinChecksum.Checksum(buffer, bytesRead - 1) == buffer[bytesRead - 1]
  }

  /** A frame whose sender appended the checksum is accepted. */
  lemma ChecksummedFrameAccepted(head: seq<byte>)
    ensures FrameAccepted(head + [LinChecksum.Checksum(head, |head|)], |head| + 1)
  {
    LinChecksum.ChecksumRoundTrip(head);
  }

  /** An accepted frame with one protected byte changed (other than 0x00 for 0xFF or back) is rejected. */
  lemma CorruptedFrameRejected(buffer: seq<byte>, bytesRead: int, k: int, b: byte)
    requires bytesRead <= |buffer| && FrameAccepted(buffer, bytesRead)
    requires 1 <= k < bytesRead - 1 && buffer[k] != b
    requires !(buffer[k] == 0 && b == 0xFF) && !(buffer[k] == 0xFF && b == 0)
    ensures !FrameAccepted(buffer[k := b], bytesRead)
  {
    LinChecksum.ChecksumDetectsOneByteChange(buffer, bytesRead - 1, k, b);
  }

  class Controller {
    var outputEnabled: bool
    var processFrames: bool
    var leftState: bool
    var rightState: bool
    var tailState: bool
    /** The `digitalWrite` calls on the lamp pins so far, oldest first. */
    var writes: seq<PinWrite>

    ghost function Lamps(): Lights
      reads this
    {
      Lights(leftState, rightState, tailState)
    }

    /**
     * The globals after `setup`: frames are processed, every light is off and
     * the three lamp pins have been driven low. `savedOutputEnabled` is the
     * value `setup` read back from the file system (false when there is none).
     */
    constructor (savedOutputEnabled: bool)
      ensures outputEnabled == savedOutputEnabled && processFrames
      ensures Lamps() == Lights(false, false, false)
      ensures writes == [PinWrite(LEFT_PIN, false), PinWrite(RIGHT_PIN, false), PinWrite(TAIL_PIN, false)]
    {
      outputEnabled := savedOutputEnabled;
      processFrames := true;
      leftState, rightState, tailState := false, false, false;
      writes := AllLow();
    }

    /** `populateActiveLights`: left arrow, bulb and right arrow, each present exactly when its light is on. */
    function PopulateActiveLights(): (s: string)
      reads this
      ensures |s| == Changed(Lights(false, false, false), Lamps())
      ensures LEFT_ARROW_ICON in s <==> leftState
      ensures HEADLIGHT_ICON in s <==> tailState
      ensures RIGHT_ARROW_ICON in s <==> rightState
      ensures forall i, j :: 0 <= i < j < |s| ==> IconRank(s[i]) < IconRank(s[j])
    {
      (if leftState then [LEFT_ARROW_ICON] else [])
      + (if tailState then [HEADLIGHT_ICON] else [])
      + (if rightState then [RIGHT_ARROW_ICON] else [])
    }

    /** `setLightState(pin, state)`: writes the pin only while the output is enabled. */
    method SetLightState(pin: int, state: bool)
      modifies this`writes
      ensures writes == if outputEnabled then old(writes) + [PinWrite(pin, state)] else old(writes)
    {
      if outputEnabled {
        writes := writes + [PinWrite(pin, state)];
      }
    }

    /** `handleRoot`: serving the status page resumes frame processing; nothing else changes. */
    method HandleRoot()
      modifies this`processFrames
      ensures processFrames
    {
      processFrames := true;
    }

    /** `toggleOutputEnabled`: flip the output, resume frame processing, and turn the lamps off when disabling. */
    method ToggleOutputEnabled()
      modifies this
      ensures outputEnabled == !old(outputEnabled) && processFrames
      ensures Lamps() == old(Lamps())
      ensures writes == old(writes) + (if outputEnabled then [] else AllLow())
    {
      outputEnabled := !outputEnabled;
      processFrames := true;
      if !outputEnabled {
        writes := writes + [PinWrite(LEFT_PIN, false)];
        writes := writes + [PinWrite(RIGHT_PIN, false)];
        writes := writes + [PinWrite(TAIL_PIN, false)];
      }
    }

    /** `processLightLINFrame(dataByte)`: take the lights from the data byte and show them. */
    method ProcessLightLINFrame(dataByte: byte)
      modifies this`leftState, this`rightState, this`tailState, this`writes
      ensures Lamps() == LightsOf(dataByte)
      ensures writes == old(writes) + LightWrites(outputEnabled, Lamps())
    {
      leftState := Bit(dataByte, 0x01);
      rightState := Bit(dataByte, 0x02);
      tailState := Bit(dataByte, 0x04);
      SetLightState(LEFT_PIN, leftState);
      SetLightState(RIGHT_PIN, rightState);
      SetLightState(TAIL_PIN, tailState);
    }

    /**
     * `runTestSequence`: force the output on, light each lamp in turn, then
     * put the output flag back as it was and resume frame processing.
     * The pauses and the LED flashes are not modelled.
     */
    method RunTestSequence()
      modifies this`outputEnabled, this`processFrames, this`writes
      ensures outputEnabled == old(outputEnabled) && processFrames
      ensures writes == old(writes) + TestPattern()
    {
      var originalOutputEnabled := outputEnabled;
      outputEnabled := true;
      processFrames := false;
      ghost var before := writes;

      SetLightState(LEFT_PIN, false);
      SetLightState(RIGHT_PIN, false);
      SetLightState(TAIL_PIN, false);
      ghost var w0 := writes;
      assert w0 == before + AllLow();

      SetLightState(LEFT_PIN, true);
      SetLightState(LEFT_PIN, false);
      ghost var w1 := writes;
      assert w1 == w0 + Blink(LEFT_PIN);
      SetLightState(RIGHT_PIN, true);
      SetLightState(RIGHT_PIN, false);
      ghost var w2 := writes;
      assert w2 == w1 + Blink(RIGHT_PIN);
      SetLightState(TAIL_PIN, true);
      SetLightState(TAIL_PIN, false);
      assert writes == w2 + Blink(TAIL_PIN);
      assert before + TestPattern() == ((before + AllLow()) + Blink(LEFT_PIN) + Blink(RIGHT_PIN)) + Blink(TAIL_PIN);

      outputEnabled := originalOutputEnabled;
      processFrames := true;
    }

    /**
     * The state logic of `handleControlPage`: manual control forces the output
     * on and stops frame processing, applies the request's `id` (parsed from
     * the request; `None` when it has none) and shows the lights.
     */
    method HandleControlPage(id: Option<int>)
      modifies this
      ensures outputEnabled && !processFrames
      ensures Lamps() == ControlLights(id, old(Lamps()))
      ensures writes == old(writes) + LightWrites(true, Lamps())
    {
      outputEnabled := true;
      processFrames := false;
      ApplyControlRequest(id);
      ghost var lamps := Lamps();
      ghost var before := writes;
      SetLightState(LEFT_PIN, leftState);
      assert writes == before + [PinWrite(LEFT_PIN, lamps.left)];
      SetLightState(RIGHT_PIN, rightState);
      assert writes == before + [PinWrite(LEFT_PIN, lamps.left), PinWrite(RIGHT_PIN, lamps.right)];
      SetLightState(TAIL_PIN, tailState);
      LightWritesEnabled(lamps);
    }

    /** The `id` switch of `handleControlPage`: toggle the light the id names, or clear all three when there is no id. */
    method ApplyControlRequest(id: Option<int>)
      modifies this`leftState, this`rightState, this`tailState
      ensures Lamps() == ControlLights(id, old(Lamps()))
    {
      match id {
        case Some(n) =>
          if n == 0 {
            leftState := !leftState;
          } else if n == 1 {
            rightState := !rightState;
          } else if n == 2 {
            tailState := !tailState;
          }
        case None =>
          leftState := false;
          rightState := false;
          tailState := false;
      }
    }

    /**
     * The frame branch of `loop`, for the count `bytesRead` a receiver
     * returned: a frame that passes the checksum test sets the lights from
     * its first data byte; anything else changes nothing.
     */
    method HandleLinFrame(lin: LinPhase1.Lin, bytesRead: int) returns (accepted: bool)
      requires lin.dataBuffer.Length == LinPhase1.MAX_BYTES && bytesRead <= LinPhase1.MAX_BYTES
      modifies this`leftState, this`rightState, this`tailState, this`writes
      ensures accepted <==> FrameAccepted(lin.dataBuffer[..], bytesRead)
      ensures accepted ==> Lamps() == LightsOf(lin.dataBuffer[2])
                           && writes == old(writes) + LightWrites(outputEnabled, Lamps())
      ensures !accepted ==> Lamps() == old(Lamps()) && writes == old(writes)
    {
      accepted := false;
      if bytesRead > 0 {
        var calculatedChecksum := LinChecksum.CalculateChecksum(lin.dataBuffer, bytesRead - 1);
        var receivedChecksum := lin.dataBuffer[bytesRead - 1];
        if calculatedChecksum == receivedChecksum {
          ProcessLightLINFrame(lin.dataBuffer[2]);
          accepted := true;
        }
      }
    }

    /**
     * The LIN part of `loop`: while frames are processed, poll the receiver
     * and act on what it reports. Because `updateFrame` reports nothing, the
     * lights and the pins never change here.
     */
    method Loop(lin: LinPhase1.Lin, pending: seq<Arrival>, now: nat)
      requires lin.Valid()
      modifies this`leftState, this`rightState, this`tailState, this`writes, lin, lin.dataBuffer
      ensures lin.Valid() && lin.dataBuffer == old(lin.dataBuffer)
      ensures lin.State() == if processFrames then LinPhase1.Poll(old(lin.State()), LIN_FRAME_PID, pending, now)
                             else old(lin.State())
      ensures Lamps() == old(Lamps()) && writes == old(writes)
    {
      if processFrames {
        var bytesRead := lin.UpdateFrame(LIN_FRAME_PID, pending, now);
        var accepted := HandleLinFrame(lin, bytesRead);
      }
    }
  }

  /** The position of an icon on the status line. */
  function IconRank(c: char): int
  {
    if c == LEFT_ARROW_ICON then 0 else if c == HEADLIGHT_ICON then 1 else if c == RIGHT_ARROW_ICON then 2 else 3
  }
}
