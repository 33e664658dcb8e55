/**
 * The first LIN receiver, `lin::readFrame` of src/phase0/src/lin.cpp: a
 * busy-wait accumulator with no sync-byte or PID filtering, which ends after
 * 675 microseconds with no byte read. The file-scope globals `dataIndex` and
 * `lastReceivedTime` are the fields of class `Lin`.
 */
module LinPhase0 {
  import opened Serial

  const MAX_BYTES: int := 11
  /** 14 bit times of 52 microseconds would be 728; the first receiver uses a lower threshold. */
  const BREAK_THRESHOLD: nat := 675

  /**
   * `readFrame` reads exactly the first `n` arrivals: each came in time, the
   * buffer had room for each, and the next one (if any) stays in the FIFO
   * because the buffer is full or because it came after the silence had run out.
   */
  ghost predicate StopsReading(src: seq<Arrival>, start: nat, n: nat)
  {
    && n <= |src|
    && n <= MAX_BYTES
    && InTime(src, start, BREAK_THRESHOLD, n)
    && (n < |src| ==> n == MAX_BYTES || src[n].time >= ReadClock(src, start, n) + BREAK_THRESHOLD)
  }

  /** The stopping point depends on the arrivals and the entry time alone. */
  lemma StopsReadingUnique(src: seq<Arrival>, start: nat, n1: nat, n2: nat)
    requires StopsReading(src, start, n1)
    requires StopsReading(src, start, n2)
    ensures n1 == n2
  {
    if n1 < n2 {
      InTimePrefix(src, start, BREAK_THRESHOLD, n2, n1);
    } else if n2 < n1 {
      InTimePrefix(src, start, BREAK_THRESHOLD, n1, n2);
    }
  }

  /** The first `consumed` arrivals were read in time, the last at `lastRead`, and are held in order at the front of the buffer. */
  ghost predicate ReadInTime(buffer: seq<byte>, src: seq<Arrival>, start: nat, consumed: nat, dataIndex: int, lastRead: nat)
  {
    && consumed == dataIndex <= MAX_BYTES
    && consumed <= |src| && MAX_BYTES <= |buffer|
    && lastRead == ReadClock(src, start, consumed)
    && InTime(src, start, BREAK_THRESHOLD, consumed)
    && buffer[..consumed] == Values(src[..consumed])
  }

  class Lin {
    var dataIndex: int
    var lastReceivedTime: u32

    /** The globals as the program starts. */
    constructor ()
      ensures dataIndex == 0 && lastReceivedTime == 0
    {
      dataIndex := 0;
      lastReceivedTime := 0;
    }

    /**
     * `readFrame(buffer)`: busy-wait from clock `start`, storing every byte
     * read at the next position, until 675 microseconds pass with no byte
     * read. `src` is the FIFO's traffic, each byte with the time it arrives;
     * the clock advances one microsecond per turn of the outer loop. Returns
     * the count, how many arrivals were read (the rest stay in the FIFO) and
     * the clock when the call returns.
     */
    method ReadFrame(buffer: array<byte>, src: seq<Arrival>, start: nat)
      returns (count: int, consumed: nat, returnedAt: nat)
      requires buffer.Length >= MAX_BYTES
      modifies this, buffer
      ensures 0 <= count <= MAX_BYTES && consumed <= |src|
      ensures count == consumed == dataIndex
      ensures buffer[..count] == Values(src[..count])
      ensures buffer[MAX_BYTES..] == old(buffer[MAX_BYTES..])
      ensures forall k :: count <= k < buffer.Length ==> buffer[k] == old(buffer[k])
      ensures StopsReading(src, start, consumed)
      ensures returnedAt == ReadClock(src, start, consumed) + BREAK_THRESHOLD
      ensures lastReceivedTime == Micros(ReadClock(src, start, consumed))
    {
      dataIndex := 0;
      var clock: nat := start;
      ghost var lastRead: nat := start;
      lastReceivedTime := Micros(clock);
      consumed := 0;
      while Elapsed(Micros(clock), lastReceivedTime) < BREAK_THRESHOLD
        invariant ReadInTime(buffer[..], src, start, consumed, dataIndex, lastRead)
        invariant lastReceivedTime == Micros(lastRead)
        invariant lastRead <= clock <= lastRead + BREAK_THRESHOLD
        invariant buffer[MAX_BYTES..] == old(buffer[MAX_BYTES..])
        invariant forall k :: consumed <= k < buffer.Length ==> buffer[k] == old(buffer[k])
        invariant consumed < |src| && consumed < MAX_BYTES ==> src[consumed].time >= clock || clock == lastRead
        decreases |src| - consumed, lastRead + BREAK_THRESHOLD - clock
      {
        ElapsedOfMicros(lastRead, clock);
        consumed, lastRead := ReadAvailable(buffer, src, start, clock, consumed, lastRead);
        clock := clock + 1;
      }
      ElapsedOfMicros(lastRead, clock);
      returnedAt := clock;
      count := dataIndex;
    }

    /**
     * The inner loop of `readFrame`: at clock `clock`, store every byte that
     * has arrived at the next position, and stop once 11 are held.
     */
    method ReadAvailable(buffer: array<byte>, src: seq<Arrival>, start: nat, clock: nat,
                         consumed0: nat, ghost lastRead0: nat)
      returns (consumed: nat, ghost lastRead: nat)
      requires ReadInTime(buffer[..], src, start, consumed0, dataIndex, lastRead0)
      requires lastReceivedTime == Micros(lastRead0)
      requires lastRead0 <= clock < lastRead0 + BREAK_THRESHOLD
      requires consumed0 < |src| && consumed0 < MAX_BYTES ==> src[consumed0].time >= clock || clock == lastRead0
      modifies this, buffer
      ensures ReadInTime(buffer[..], src, start, consumed, dataIndex, lastRead)
      ensures lastReceivedTime == Micros(lastRead)
      ensures lastRead <= clock < lastRead + BREAK_THRESHOLD
      ensures buffer[MAX_BYTES..] == old(buffer[MAX_BYTES..])
      ensures forall k :: consumed <= k < buffer.Length ==> buffer[k] == old(buffer[k])
      ensures consumed < |src| && consumed < MAX_BYTES ==> src[consumed].time > clock
      ensures consumed0 <= consumed && (consumed == consumed0 ==> lastRead == lastRead0)
    {
      consumed, lastRead := consumed0, lastRead0;
      while consumed < |src| && src[consumed].time <= clock && dataIndex < MAX_BYTES
        invariant ReadInTime(buffer[..], src, start, consumed, dataIndex, lastRead)
        invariant lastReceivedTime == Micros(lastRead)
        invariant lastRead <= clock < lastRead + BREAK_THRESHOLD
        invariant buffer[MAX_BYTES..] == old(buffer[MAX_BYTES..])
        invariant forall k :: consumed <= k < buffer.Length ==> buffer[k] == old(buffer[k])
        invariant consumed < |src| && consumed < MAX_BYTES ==> src[consumed].time >= clock || clock == lastRead
        invariant consumed0 <= consumed && (consumed == consumed0 ==> lastRead == lastRead0)
        decreases |src| - consumed
      {
        ReadNextAt(src, start, BREAK_THRESHOLD, consumed, clock);
        buffer[dataIndex] := src[consumed].value;
        assert Values(src[..consumed + 1]) == Values(src[..consumed]) + [src[consumed].value];
        dataIndex := dataIndex + 1;
        consumed := consumed + 1;
        lastRead := clock;
        lastReceivedTime := Micros(clock);
        if dataIndex >= MAX_BYTES {
          break;
        }
      }
    }
  }
}
