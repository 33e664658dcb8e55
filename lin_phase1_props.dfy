/**
 * Properties of the phase-1 LIN receiver that relate several calls, several
 * bytes, or the two receivers (`updateFrame` and `readFrame`) to each other.
 */
module LinPhase1Properties {
  import opened Serial
  import opened LinPhase1

  /** The receiver between frames: waiting for a sync byte with nothing held. */
  predicate Idle(s: Rx)
  {
    s.Valid() && s.frameState == WaitSync && s.dataIndex == 0
  }

  /** The state `updateFrame` is in while holding `n` bytes of a frame. */
  function PhaseOf(n: int): FrameState
  {
    if n == 0 then WaitSync else if n >= MAX_BYTES then FrameComplete else Receiving
  }

  /** Drain over a prefix one byte longer takes one more step. */
  lemma DrainOneMore(s: Rx, pid: byte, pending: seq<Arrival>, n: nat)
    requires s.Valid() && n < |pending|
    ensures Drain(s, pid, pending[..n + 1]) == Step(Drain(s, pid, pending[..n]), pid, pending[n])
  {
    assert pending[..n + 1][..n] == pending[..n];
  }

  /**
   * `updateFrame`'s state `t` agrees with `readFrame`'s filter after the first
   * `n` arrivals of `src`: it holds as many bytes, is in the state that count
   * implies, and holds the same bytes, the sync byte first and the last
   * `dataIndex` arrivals in order.
   */
  ghost predicate AgreesWithFilter(t: Rx, pid: byte, src: seq<Arrival>, n: nat)
  {
    && t.Valid()
    && n <= |src|
    && t.dataIndex == Filtered(src, pid, n)
    && t.frameState == PhaseOf(t.dataIndex)
    && (t.dataIndex >= 1 ==> t.dataBuffer[0] == SYNC_BYTE)
    && (forall k :: 0 <= k < t.dataIndex ==> t.dataBuffer[k] == src[n - t.dataIndex + k].value)
  }

  /** One byte taken by both receivers keeps them in agreement, while the frame is not yet full. */
  lemma StepAgreesWithFilter(t: Rx, pid: byte, src: seq<Arrival>, n: nat)
    requires AgreesWithFilter(t, pid, src, n)
    requires n < |src| && Filtered(src, pid, n) < MAX_BYTES
    ensures AgreesWithFilter(Step(t, pid, src[n]), pid, src, n + 1)
  {
  }

  /**
   * The two receivers filter alike. Started idle, `updateFrame`'s drain loop
   * agrees with `readFrame`'s filter after every run of arrivals, as long as
   * neither was full before the last byte, since `readFrame` stops reading
   * there while `updateFrame` goes on draining.
   */
  lemma {:induction false} DrainAgreesWithFilter(s: Rx, pid: byte, pending: seq<Arrival>, n: nat)
    requires Idle(s) && n <= |pending|
    requires forall j :: 0 <= j < n ==> Filtered(pending, pid, j) < MAX_BYTES
    ensures AgreesWithFilter(Drain(s, pid, pending[..n]), pid, pending, n)
  {
    if n == 0 {
      assert pending[..0] == [];
    } else {
      DrainAgreesWithFilter(s, pid, pending, n - 1);
      DrainOneMore(s, pid, pending, n - 1);
      StepAgreesWithFilter(Drain(s, pid, pending[..n - 1]), pid, pending, n - 1);
    }
  }

  /** Outside a frame, every byte but 0x55 is read and dropped: nothing but the timestamp changes. */
  lemma {:induction false} NoSyncStaysWaiting(s: Rx, pid: byte, pending: seq<Arrival>)
    requires s.Valid() && s.frameState == WaitSync
    requires forall i :: 0 <= i < |pending| ==> pending[i].value != SYNC_BYTE
    ensures Drain(s, pid, pending).(lastReceivedTime := s.lastReceivedTime) == s
    decreases |pending|
  {
    if pending != [] {
      NoSyncStaysWaiting(s, pid, pending[..|pending| - 1]);
    }
  }

  /** Once the frame is complete, the rest of the pending bytes are read and dropped. */
  lemma {:induction false} FrameCompleteDropsBytes(s: Rx, pid: byte, pending: seq<Arrival>)
    requires s.Valid() && s.frameState == FrameComplete
    ensures Drain(s, pid, pending).(lastReceivedTime := s.lastReceivedTime) == s
    decreases |pending|
  {
    if pending != [] {
      FrameCompleteDropsBytes(s, pid, pending[..|pending| - 1]);
    }
  }

  /**
   * A byte that is not the expected PID, right after the sync byte, ends the
   * frame, even when it is 0x55 itself: it is neither stored nor taken as a
   * new sync byte. Here the PID 0xCF that follows is then dropped as noise.
   */
  lemma PidMismatchIsNotResync(s: Rx, t0: nat)
    requires Idle(s)
    ensures var t := Drain(s, 0xCF, [Arrival(0x55, t0), Arrival(0x55, t0 + 1), Arrival(0xCF, t0 + 2)]);
            t.frameState == WaitSync && t.dataIndex == 0
  {
    var p := [Arrival(0x55, t0), Arrival(0x55, t0 + 1), Arrival(0xCF, t0 + 2)];
    DrainOneMore(s, 0xCF, p, 0);
    DrainOneMore(s, 0xCF, p, 1);
    DrainOneMore(s, 0xCF, p, 2);
    assert p[..3] == p;
  }

  /**
   * The PID check of the byte after the sync byte. A byte other than the
   * expected PID (when one is expected) resets to WAIT_SYNC and is not
   * stored: the buffer is left as it was. Otherwise the byte is stored at
   * position 1 and the frame goes on.
   */
  lemma PidCheck(s: Rx, pid: byte, a: Arrival)
    requires s.Valid() && s.frameState == Receiving && s.dataIndex == 1
    ensures pid > 0 && a.value != pid ==>
              Step(s, pid, a) == s.(frameState := WaitSync, dataIndex := 0, lastReceivedTime := Micros(a.time))
    ensures (pid == 0 || a.value == pid) ==>
              var t := Step(s, pid, a);
              t.frameState == Receiving && t.dataIndex == 2 && t.dataBuffer == s.dataBuffer[1 := a.value]
  {
  }

  /** After the PID, 0x55 is ordinary data: it is stored where it falls. */
  lemma LateSyncIsData(s: Rx, pid: byte, a: Arrival)
    requires s.Valid() && s.frameState == Receiving && s.dataIndex >= 2
    ensures var t := Step(s, pid, a);
            t.dataIndex == s.dataIndex + 1 && t.dataBuffer[s.dataIndex] == a.value
  {
  }

  /**
   * Eleven bytes that the filter keeps complete the frame in the drain loop,
   * and the break test and reset of the same call then throw it away: the
   * receiver is idle again, having reported nothing.
   */
  lemma {:induction false} FullFrameIsDiscarded(s: Rx, pid: byte, pending: seq<Arrival>, now: nat)
    requires Idle(s)
    requires forall j :: 0 <= j < |pending| ==> Filtered(pending, pid, j) < MAX_BYTES
    requires Filtered(pending, pid, |pending|) == MAX_BYTES
    ensures Drain(s, pid, pending).frameState == FrameComplete
    ensures Idle(Poll(s, pid, pending, now))
  {
    DrainAgreesWithFilter(s, pid, pending, |pending|);
    assert pending[..|pending|] == pending;
  }

  /**
   * A three-byte frame (sync, PID 0xCF, one byte) followed by at least 728
   * microseconds of silence before the break test: the drain loop holds all
   * three bytes, and the break test and reset of the same call throw them
   * away, so the frame is never reported.
   */
  lemma ShortFrameThenSilence(s: Rx, t0: nat, now: nat)
    requires Idle(s)
    requires t0 + 2 + BREAK_THRESHOLD <= now < t0 + 2 + MICROS_MODULUS
    ensures var p := [Arrival(0x55, t0), Arrival(0xCF, t0 + 1), Arrival(0x01, t0 + 2)];
            var t := Drain(s, 0xCF, p);
            && t.frameState == Receiving && t.dataIndex == 3
            && t.dataBuffer[..3] == [0x55, 0xCF, 0x01]
            && Idle(Poll(s, 0xCF, p, now))
  {
    var p := [Arrival(0x55, t0), Arrival(0xCF, t0 + 1), Arrival(0x01, t0 + 2)];
    DrainOneMore(s, 0xCF, p, 0);
    DrainOneMore(s, 0xCF, p, 1);
    DrainOneMore(s, 0xCF, p, 2);
    assert p[..3] == p;
    ElapsedOfMicros(t0 + 2, now);
  }

  /** Draining two runs of bytes one after the other is draining them together. */
  lemma {:induction false} DrainAppend(s: Rx, pid: byte, a: seq<Arrival>, b: seq<Arrival>)
    requires s.Valid()
    ensures Drain(s, pid, a + b) == Drain(Drain(s, pid, a), pid, b)
    decreases |b|
  {
    if b == [] {
      assert a + b == a;
    } else {
      var ab := a + b;
      assert ab[..|ab| - 1] == a + b[..|b| - 1];
      assert ab[|ab| - 1] == b[|b| - 1];
      DrainAppend(s, pid, a, b[..|b| - 1]);
    }
  }

  /**
   * A frame may span several calls of `updateFrame`. As long as the earlier
   * call saw no break and did not complete the frame, it left the drained
   * state alone, so the two calls together act as one call over all the bytes.
   */
  lemma PollsWithoutBreakCompose(s: Rx, pid: byte, a: seq<Arrival>, b: seq<Arrival>, now1: nat, now2: nat)
    requires s.Valid()
    requires CheckBreak(Drain(s, pid, a), now1).frameState != FrameComplete
    ensures Poll(s, pid, a, now1) == Drain(s, pid, a)
    ensures Poll(Poll(s, pid, a, now1), pid, b, now2) == Poll(s, pid, a + b, now2)
  {
    DrainAppend(s, pid, a, b);
  }

  /**
   * Silence ends a frame being received: a call that finds the receiver
   * RECEIVING after its drain loop, at least 728 microseconds after the last
   * byte read, leaves it idle, holding nothing.
   */
  lemma SilenceEndsFrame(s: Rx, pid: byte, pending: seq<Arrival>, now: nat)
    requires s.Valid()
    requires Drain(s, pid, pending).frameState == Receiving
    requires Elapsed(Micros(now), Drain(s, pid, pending).lastReceivedTime) >= BREAK_THRESHOLD
    ensures Idle(Poll(s, pid, pending, now))
  {
  }

  /**
   * `readFrame` takes a number of arrivals that the arrivals, the entry time
   * and the PID fix on their own: whatever the receiver held before the
   * call, the stopping point is the same.
   */
  lemma StopsReadingUnique(src: seq<Arrival>, start: nat, pid: byte, n1: nat, n2: nat)
    requires StopsReading(src, start, pid, n1)
    requires StopsReading(src, start, pid, n2)
    ensures n1 == n2
  {
    if n1 < n2 {
      InTimePrefix(src, start, BREAK_THRESHOLD, n2, n1);
    } else if n2 < n1 {
      InTimePrefix(src, start, BREAK_THRESHOLD, n1, n2);
    }
  }
}
