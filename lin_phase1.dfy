/**
 * The LIN receiver of src/phase1/src/lin.cpp.
 *
 * The file-scope globals `dataIndex`, `lastReceivedTime` and `frameState`,
 * and the 11-byte `dataBuffer` that the firmware reads after `updateFrame`,
 * are the fields of class `Lin`. `updateFrame` is the non-blocking receiver;
 * `readFrame` is the older busy-wait receiver, which shares `dataIndex` and
 * `lastReceivedTime` with it, as the globals are shared.
 *
 * The specification of `updateFrame` is a value-level state machine: `Rx` is
 * the receiver's state, `Step` takes one byte, `Drain` takes all pending bytes,
 * and `Poll` adds the break test and the end-of-frame reset.
 */
module LinPhase1 {
  import opened Serial

  /** Sync byte, PID, up to 8 data bytes and the checksum. */
  const MAX_BYTES: int := 11
  const SYNC_BYTE: byte := 0x55
  /** 14 bit times of 52 microseconds at 19200 baud. */
  const BREAK_THRESHOLD: nat := 728

  datatype FrameState = WaitSync | Receiving | FrameComplete

  /** The receiver's state as a value. */
  datatype Rx = Rx(frameState: FrameState, dataIndex: int, dataBuffer: seq<byte>, lastReceivedTime: u32)
  {
    /** The buffer holds 11 bytes, the index never passes it, and a frame still being received has room for one more byte. */
    predicate Valid()
    {
      && |dataBuffer| == MAX_BYTES
      && 0 <= dataIndex <= MAX_BYTES
      && (frameState == Receiving ==> dataIndex < MAX_BYTES)
    }
  }

  /** One turn of the drain loop of `updateFrame`: the byte `a.value`, read when the clock shows `a.time`. */
  function Step(s: Rx, expectedPID: byte, a: Arrival): (t: Rx)
    requires s.Valid()
    ensures t.Valid()
    ensures t.lastReceivedTime == Micros(a.time)
  {
    var s := s.(lastReceivedTime := Micros(a.time));
    match s.frameState
    case WaitSync =>
      if a.value == SYNC_BYTE then
        s.(dataBuffer := s.dataBuffer[0 := a.value], dataIndex := 1, frameState := Receiving)
      else s
    case Receiving =>
      if s.dataIndex == 1 && expectedPID > 0 && a.value != expectedPID then
        s.(dataIndex := 0, frameState := WaitSync)
      else
        var next := s.dataIndex + 1;
        s.(dataBuffer := s.dataBuffer[s.dataIndex := a.value], dataIndex := next,
           frameState := if next >= MAX_BYTES then FrameComplete else Receiving)
    case FrameComplete => s
  }

  /** The drain loop of `updateFrame` over all the bytes pending in the FIFO, in order. */
  function Drain(s: Rx, expectedPID: byte, pending: seq<Arrival>): (t: Rx)
    requires s.Valid()
    ensures t.Valid()
    ensures pending != [] ==> t.lastReceivedTime == Micros(pending[|pending| - 1].time)
    decreases |pending|
  {
    if pending == [] then s
    else Step(Drain(s, expectedPID, pending[..|pending| - 1]), expectedPID, pending[|pending| - 1])
  }

  /** The break test of `updateFrame`: a frame being received is complete after 728 microseconds of silence. */
  function CheckBreak(s: Rx, now: nat): (t: Rx)
    ensures t.frameState != s.frameState <==>
              s.frameState == Receiving && Elapsed(Micros(now), s.lastReceivedTime) >= BREAK_THRESHOLD
    ensures t.frameState != s.frameState ==> t.frameState == FrameComplete
    ensures t.(frameState := s.frameState) == s
  {
    if s.frameState == Receiving && Elapsed(Micros(now), s.lastReceivedTime) >= BREAK_THRESHOLD then
      s.(frameState := FrameComplete)
    else s
  }

  /**
   * The state `updateFrame` leaves behind: drain, test for a break at clock
   * `now`, and reset a complete frame. A complete frame never outlives the
   * call that completed it.
   */
  function Poll(s: Rx, expectedPID: byte, pending: seq<Arrival>, now: nat): (t: Rx)
    requires s.Valid()
    ensures t.Valid()
    ensures t.frameState != FrameComplete
    ensures CheckBreak(Drain(s, expectedPID, pending), now).frameState == FrameComplete ==>
              t.frameState == WaitSync && t.dataIndex == 0
  {
    var c := CheckBreak(Drain(s, expectedPID, pending), now);
    if c.frameState == FrameComplete then c.(dataIndex := 0, frameState := WaitSync) else c
  }

  /**
   * One byte of the busy-wait `readFrame`: the index after storing `inByte` at
   * position `dataIndex`, given that a non-zero index means `dataBuffer[0]`
   * holds the sync byte.
   */
  function FilterStep(dataIndex: int, inByte: byte, pid: byte): (k: int)
    ensures k == 0 || k == dataIndex + 1
    ensures dataIndex == 0 ==> (k == 1 <==> inByte == SYNC_BYTE)
    ensures dataIndex == 1 ==> (k == 2 <==> pid == 0 || inByte == pid)
    ensures dataIndex >= 2 ==> k == dataIndex + 1
  {
    var next := dataIndex + 1;
    if dataIndex == 0 && inByte != SYNC_BYTE then 0
    else if pid > 0 && next == 2 && inByte != pid then 0
    else next
  }

  /** The index `readFrame` holds after reading the first `n` arrivals of `src` from index 0. */
  function Filtered(src: seq<Arrival>, pid: byte, n: nat): (k: int)
    requires n <= |src|
    ensures 0 <= k <= n
  {
    if n == 0 then 0 else FilterStep(Filtered(src, pid, n - 1), src[n - 1].value, pid)
  }

  /**
   * `readFrame` reads exactly the first `n` arrivals: each came in time, the
   * buffer was not full before any of them, and the next one (if any) is left
   * in the FIFO because the buffer is full or because it came after the
   * silence had run out.
   */
  ghost predicate StopsReading(src: seq<Arrival>, start: nat, pid: byte, n: nat)
  {
    && n <= |src|
    && InTime(src, start, BREAK_THRESHOLD, n)
    && (forall j :: 0 <= j < n ==> Filtered(src, pid, j) < MAX_BYTES)
    && (n < |src| ==>
          Filtered(src, pid, n) >= MAX_BYTES ||
          src[n].time >= ReadClock(src, start, n) + BREAK_THRESHOLD)
  }

  /**
   * What the busy-wait `readFrame` holds after reading the first `consumed`
   * arrivals: the filter's index, the sync byte and PID at the front of a
   * kept prefix, and the kept bytes themselves, which are the last
   * `dataIndex` bytes read.
   */
  ghost predicate Holding(buffer: seq<byte>, pid: byte, src: seq<Arrival>, consumed: nat, dataIndex: int)
  {
    && |buffer| >= MAX_BYTES
    && consumed <= |src|
    && dataIndex == Filtered(src, pid, consumed)
    && 0 <= dataIndex <= MAX_BYTES
    && (dataIndex >= 1 ==> buffer[0] == SYNC_BYTE)
    && (dataIndex >= 2 && pid > 0 ==> buffer[1] == pid)
    && forall k :: 0 <= k < dataIndex ==> buffer[k] == src[consumed - dataIndex + k].value
  }

  /**
   * The first buffer position `readFrame` has not written. The index only
   * falls back to 0 from 1 or 2 (a bad sync byte or a bad PID), so every
   * position written so far lies below `max(2, dataIndex)`.
   */
  function Unwritten(dataIndex: int): (from: int)
    ensures from >= 2 && from >= dataIndex
  {
    if dataIndex < 2 then 2 else dataIndex
  }

  /** `after` agrees with `before` from position `from` on. */
  ghost predicate KeptFrom(after: seq<byte>, before: seq<byte>, from: int)
  {
    |after| == |before| && forall k :: 0 <= k < |after| && from <= k ==> after[k] == before[k]
  }

  /**
   * Storing a byte at position `i` and applying the filter's resets keeps
   * every position from the first unwritten one on, which never moves back.
   */
  lemma WriteAt(buffer: seq<byte>, before: seq<byte>, i: int, v: byte, pid: byte)
    requires KeptFrom(buffer, before, Unwritten(i)) && 0 <= i < |buffer|
    ensures KeptFrom(buffer[i := v], before, Unwritten(FilterStep(i, v, pid)))
    ensures Unwritten(i) <= Unwritten(FilterStep(i, v, pid))
  {
  }

  /** Storing the next arrival and applying the two resets of `readFrame` keeps `Holding`. */
  lemma StoreByte(buffer: seq<byte>, pid: byte, src: seq<Arrival>, consumed: nat, dataIndex: int)
    requires Holding(buffer, pid, src, consumed, dataIndex)
    requires consumed < |src| && dataIndex < MAX_BYTES
    ensures Holding(buffer[dataIndex := src[consumed].value], pid, src, consumed + 1,
                    FilterStep(dataIndex, src[consumed].value, pid))
  {
  }

  /** The first `consumed` arrivals were read in time, the last at `lastRead`, and none found the buffer full. */
  ghost predicate ReadInTime(src: seq<Arrival>, start: nat, pid: byte, consumed: nat, lastRead: nat)
  {
    && consumed <= |src|
    && lastRead == ReadClock(src, start, consumed)
    && InTime(src, start, BREAK_THRESHOLD, consumed)
    && (forall j :: 0 <= j < consumed ==> Filtered(src, pid, j) < MAX_BYTES)
  }

  /** Reading the next arrival at `clock`, when it has arrived and the silence has not run out, keeps `ReadInTime`. */
  lemma ReadAtClock(src: seq<Arrival>, start: nat, pid: byte, consumed: nat, lastRead: nat, clock: nat)
    requires ReadInTime(src, start, pid, consumed, lastRead)
    requires consumed < |src| && src[consumed].time <= clock
    requires src[consumed].time >= clock || clock == lastRead
    requires lastRead <= clock < lastRead + BREAK_THRESHOLD
    requires Filtered(src, pid, consumed) < MAX_BYTES
    ensures clock == ReadClock(src, start, consumed + 1)
    ensures InTime(src, start, BREAK_THRESHOLD, consumed + 1)
    ensures forall j :: 0 <= j < consumed + 1 ==> Filtered(src, pid, j) < MAX_BYTES
  {
    ReadNextAt(src, start, BREAK_THRESHOLD, consumed, clock);
  }

  class Lin {
    var dataBuffer: array<byte>
    var dataIndex: int
    var lastReceivedTime: u32
    var frameState: FrameState

    ghost function State(): Rx
      reads this, dataBuffer
    {
      Rx(frameState, dataIndex, dataBuffer[..], lastReceivedTime)
    }

    ghost predicate Valid()
      reads this, dataBuffer
    {
      State().Valid()
    }

    /** The globals as the program starts: all zero, so `frameState` is `WAIT_SYNC`. */
    constructor ()
      ensures Valid() && fresh(dataBuffer)
      ensures State() == Rx(WaitSync, 0, seq(MAX_BYTES, _ => 0), 0)
    {
      dataBuffer := new byte[MAX_BYTES](_ => 0);
      dataIndex := 0;
      lastReceivedTime := 0;
      frameState := WaitSync;
    }

    /** `setupSerial`: opening the UART is not modelled; the receiver starts waiting for a sync byte. */
    method SetupSerial()
      requires Valid()
      modifies this`frameState
      ensures Valid()
      ensures frameState == WaitSync
    {
      frameState := WaitSync;
    }

    /**
     * `updateFrame(expectedPID)`: read every byte in `pending` (the FIFO's
     * contents, each with the clock reading taken right after it was read),
     * then test for a break at clock `now`. As written, the index is reset
     * before the length test, so no call ever reports a frame.
     */
    method UpdateFrame(expectedPID: byte, pending: seq<Arrival>, now: nat) returns (r: int)
      requires Valid()
      modifies this, dataBuffer
      ensures Valid() && dataBuffer == old(dataBuffer)
      ensures State() == Poll(old(State()), expectedPID, pending, now)
      ensures r == 0
    {
      var i := 0;
      while i < |pending|
        invariant 0 <= i <= |pending|
        invariant dataBuffer == old(dataBuffer)
        invariant Valid()
        invariant State() == Drain(old(State()), expectedPID, pending[..i])
      {
        var inByte := pending[i].value;
        lastReceivedTime := Micros(pending[i].time);
        if frameState == WaitSync {
          if inByte == SYNC_BYTE {
            dataBuffer[0] := inByte;
            dataIndex := 1;
            frameState := Receiving;
          }
        } else if frameState == Receiving {
          if dataIndex == 1 && expectedPID > 0 && inByte != expectedPID {
            dataIndex := 0;
            frameState := WaitSync;
          } else {
            dataBuffer[dataIndex] := inByte;
            dataIndex := dataIndex + 1;
            if dataIndex >= MAX_BYTES {
              frameState := FrameComplete;
            }
          }
        }
        assert pending[..i + 1][..i] == pending[..i];
        i := i + 1;
      }
      assert pending[..i] == pending;

      if frameState == Receiving && Elapsed(Micros(now), lastReceivedTime) >= BREAK_THRESHOLD {
        frameState := FrameComplete;
      }

      if frameState == FrameComplete {
        dataIndex := 0;
        frameState := WaitSync;
        if dataIndex >= 2 {
          // the length test follows the reset, so it never passes
          assert false;
        }
        return 0;
      }
      return 0;
    }

    /**
     * `readFrame(buffer, pid)`: busy-wait from clock `start` until 728
     * microseconds pass with no byte read. `src` is the FIFO's traffic, each
     * byte with the time it arrives; the clock advances one microsecond per
     * turn of the outer loop. Returns the count, how many arrivals were read
     * (the rest stay in the FIFO) and the clock when the call returns.
     */
    method ReadFrame(buffer: array<byte>, pid: byte, src: seq<Arrival>, start: nat)
      returns (count: int, consumed: nat, returnedAt: nat)
      requires buffer.Length >= MAX_BYTES
      modifies this`dataIndex, this`lastReceivedTime, buffer
      ensures count == 0 || 2 <= count <= MAX_BYTES
      ensures count > 0 ==> buffer[0] == SYNC_BYTE
      ensures count > 0 && pid > 0 ==> buffer[1] == pid
      ensures count == if dataIndex < 2 then 0 else dataIndex
      ensures consumed <= |src| && dataIndex == Filtered(src, pid, consumed)
      ensures 0 <= dataIndex <= MAX_BYTES
      ensures forall k :: 0 <= k < dataIndex ==> buffer[k] == src[consumed - dataIndex + k].value
      ensures buffer[MAX_BYTES..] == old(buffer[MAX_BYTES..])
      ensures KeptFrom(buffer[..], old(buffer[..]), Unwritten(dataIndex))
      ensures StopsReading(src, start, pid, consumed)
      ensures returnedAt == ReadClock(src, start, consumed) + BREAK_THRESHOLD
      ensures lastReceivedTime == Micros(ReadClock(src, start, consumed))
    {
      dataIndex := 0;
      var clock: nat := start;
      ghost var lastRead: nat := start;
      lastReceivedTime := Micros(clock);
      consumed := 0;
      while Elapsed(Micros(clock), lastReceivedTime) < BREAK_THRESHOLD
        invariant ReadInTime(src, start, pid, consumed, lastRead)
        invariant Holding(buffer[..], pid, src, consumed, dataIndex)
        invariant lastReceivedTime == Micros(lastRead)
        invariant lastRead <= clock <= lastRead + BREAK_THRESHOLD
        invariant buffer[MAX_BYTES..] == old(buffer[MAX_BYTES..])
        invariant KeptFrom(buffer[..], old(buffer[..]), Unwritten(dataIndex))
        invariant consumed < |src| && dataIndex < MAX_BYTES ==> src[consumed].time >= clock || clock == lastRead
        decreases |src| - consumed, lastRead + BREAK_THRESHOLD - clock
      {
        ElapsedOfMicros(lastRead, clock);
        consumed, lastRead := ReadAvailable(buffer, pid, src, start, clock, consumed, lastRead);
        clock := clock + 1;
      }
      ElapsedOfMicros(lastRead, clock);
      returnedAt := clock;
      count := if dataIndex < 2 then 0 else dataIndex;
    }

    /**
     * The inner loop of `readFrame`: at clock `clock`, read every byte that
     * has arrived, storing each and applying the two resets, and stop early
     * once the buffer holds 11 bytes.
     */
    method ReadAvailable(buffer: array<byte>, pid: byte, src: seq<Arrival>, start: nat, clock: nat,
                         consumed0: nat, ghost lastRead0: nat)
      returns (consumed: nat, ghost lastRead: nat)
      requires ReadInTime(src, start, pid, consumed0, lastRead0)
      requires Holding(buffer[..], pid, src, consumed0, dataIndex)
      requires lastReceivedTime == Micros(lastRead0)
      requires lastRead0 <= clock < lastRead0 + BREAK_THRESHOLD
      requires consumed0 < |src| && dataIndex < MAX_BYTES ==> src[consumed0].time >= clock || clock == lastRead0
      modifies this`dataIndex, this`lastReceivedTime, buffer
      ensures ReadInTime(src, start, pid, consumed, lastRead)
      ensures Holding(buffer[..], pid, src, consumed, dataIndex)
      ensures lastReceivedTime == Micros(lastRead)
      ensures lastRead <= clock < lastRead + BREAK_THRESHOLD
      ensures buffer[MAX_BYTES..] == old(buffer[MAX_BYTES..])
      ensures KeptFrom(buffer[..], old(buffer[..]), Unwritten(dataIndex))
      ensures Unwritten(old(dataIndex)) <= Unwritten(dataIndex)
      ensures consumed < |src| && dataIndex < MAX_BYTES ==> src[consumed].time > clock
      ensures consumed0 <= consumed && (consumed == consumed0 ==> lastRead == lastRead0)
    {
      consumed, lastRead := consumed0, lastRead0;
      while consumed < |src| && src[consumed].time <= clock && dataIndex < MAX_BYTES
        invariant ReadInTime(src, start, pid, consumed, lastRead)
        invariant Holding(buffer[..], pid, src, consumed, dataIndex)
        invariant lastReceivedTime == Micros(lastRead)
        invariant lastRead <= clock < lastRead + BREAK_THRESHOLD
        invariant buffer[MAX_BYTES..] == old(buffer[MAX_BYTES..])
        invariant KeptFrom(buffer[..], old(buffer[..]), Unwritten(dataIndex))
        invariant Unwritten(old(dataIndex)) <= Unwritten(dataIndex)
        invariant consumed < |src| && dataIndex < MAX_BYTES ==> src[consumed].time >= clock || clock == lastRead
        invariant consumed0 <= consumed && (consumed == consumed0 ==> lastRead == lastRead0)
        decreases |src| - consumed
      {
        ReadAtClock(src, start, pid, consumed, lastRead, clock);
        StoreByte(buffer[..], pid, src, consumed, dataIndex);
        WriteAt(buffer[..], old(buffer[..]), dataIndex, src[consumed].value, pid);
        Store(buffer, pid, src[consumed].value);
        consumed := consumed + 1;
        lastRead := clock;
        lastReceivedTime := Micros(clock);
        if dataIndex >= MAX_BYTES {
          break;
        }
      }
    }

    /**
     * The body of `readFrame`'s inner loop, after the read: store `inByte` at
     * the next position, then reset the index when `buf[0]` is not the sync
     * byte or when `buf[1]` is not the expected PID.
     */
    method Store(buffer: array<byte>, pid: byte, inByte: byte)
      requires 0 <= dataIndex < MAX_BYTES <= buffer.Length
      requires dataIndex >= 1 ==> buffer[0] == SYNC_BYTE
      modifies this`dataIndex, buffer
      ensures buffer[..] == old(buffer[..])[old(dataIndex) := inByte]
      ensures dataIndex == FilterStep(old(dataIndex), inByte, pid)
    {
      buffer[dataIndex] := inByte;
      dataIndex := dataIndex + 1;
      if buffer[0] != SYNC_BYTE {
        dataIndex := 0;
      }
      if pid > 0 && dataIndex == 2 && buffer[1] != pid {
        dataIndex := 0;
      }
    }
  }
}
