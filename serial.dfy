/**
 * The byte source and the clock that both LIN receivers read from.
 *
 * On the board, `Serial1.available()` / `Serial1.read()` pop bytes from the
 * UART's receive FIFO and `micros()` returns a 32-bit microsecond counter.
 * Here the FIFO is a sequence of arrivals that a method consumes from the
 * front, and the clock is an absolute microsecond count (a `nat`) of which
 * `micros()` shows the low 32 bits.
 */
module Serial {

  /** An 8-bit `byte` as the Arduino core defines it. */
  type byte = b: int | 0 <= b < 0x100

  const MICROS_MODULUS: int := 0x1_0000_0000

  /** A 32-bit `unsigned long`: what `micros()` returns and the timestamps hold. */
  type u32 = x: int | 0 <= x < MICROS_MODULUS

  /** The value `micros()` returns when the absolute clock reads `t`: the counter wraps at 2^32. */
  function Micros(t: nat): (m: u32)
    ensures t < MICROS_MODULUS ==> m == t
  {
    t % MICROS_MODULUS
  }

  /** `now - since` evaluated on `unsigned long`, which wraps modulo 2^32. */
  function Elapsed(now: u32, since: u32): (d: nat)
    ensures d < MICROS_MODULUS
    ensures now >= since ==> d == now - since
    ensures now < since ==> d == MICROS_MODULUS - (since - now)
  {
    (now - since) % MICROS_MODULUS
  }

  /**
   * Reading the wrapped counter at two absolute times less than 2^32 apart
   * gives back the true interval, whatever the wrap-around in between.
   */
  lemma ElapsedOfMicros(earlier: nat, later: nat)
    requires earlier <= later < earlier + MICROS_MODULUS
    ensures Elapsed(Micros(later), Micros(earlier)) == later - earlier
  {
    var qe, ql := earlier / MICROS_MODULUS, later / MICROS_MODULUS;
    assert earlier == qe * MICROS_MODULUS + Micros(earlier);
    assert later == ql * MICROS_MODULUS + Micros(later);
    if Micros(later) >= Micros(earlier) {
      assert ql == qe;
    } else {
      assert ql == qe + 1;
    }
  }

  /** A byte in the receive FIFO and the absolute time (in microseconds) attached to it. */
  datatype Arrival = Arrival(value: byte, time: nat)

  /** The bytes of a run of arrivals, in order. */
  function Values(src: seq<Arrival>): (vs: seq<byte>)
    ensures |vs| == |src|
    ensures forall i :: 0 <= i < |src| ==> vs[i] == src[i].value
  {
    seq(|src|, i requires 0 <= i < |src| => src[i].value)
  }

  /**
   * A busy-wait reader that entered at `start` and has read the first `n`
   * arrivals read the last of them at this time (at `start` if `n == 0`):
   * a byte is read as soon as it has arrived and the previous one was read.
   */
  function ReadClock(src: seq<Arrival>, start: nat, n: nat): (t: nat)
    requires n <= |src|
    ensures t >= start
  {
    if n == 0 then start
    else
      var before := ReadClock(src, start, n - 1);
      if src[n - 1].time <= before then before else src[n - 1].time
  }

  /** Each of the first `n` arrivals came before `threshold` microseconds of silence had passed since the previous read. */
  ghost predicate InTime(src: seq<Arrival>, start: nat, threshold: nat, n: nat)
    decreases n
  {
    n <= |src| &&
    (n == 0 || (InTime(src, start, threshold, n - 1) && src[n - 1].time < ReadClock(src, start, n - 1) + threshold))
  }

  /** A run read in time has every shorter run read in time, and each of its arrivals came in time. */
  lemma {:induction false} InTimePrefix(src: seq<Arrival>, start: nat, threshold: nat, n: nat, m: nat)
    requires InTime(src, start, threshold, n) && m < n
    ensures InTime(src, start, threshold, m)
    ensures src[m].time < ReadClock(src, start, m) + threshold
    decreases n
  {
    if m < n - 1 {
      InTimePrefix(src, start, threshold, n - 1, m);
    }
  }

  /**
   * Reading the next arrival at `clock`, once it has arrived and before the
   * silence since the previous read has run out, extends the run read in time.
   */
  lemma ReadNextAt(src: seq<Arrival>, start: nat, threshold: nat, n: nat, clock: nat)
    requires InTime(src, start, threshold, n) && n < |src|
    requires ReadClock(src, start, n) <= clock < ReadClock(src, start, n) + threshold
    requires src[n].time <= clock
    requires src[n].time >= clock || clock == ReadClock(src, start, n)
    ensures ReadClock(src, start, n + 1) == clock
    ensures InTime(src, start, threshold, n + 1)
  {
  }
}
