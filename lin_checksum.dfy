/**
 * The LIN frame checksum of `lin::calculateChecksum` (src/phase1/src/lin.cpp).
 *
 * The sum starts at `buffer[1]`, so the protected identifier is summed with
 * the data bytes, and the sync byte at `buffer[0]` never is. Each addition
 * that goes above 0xFF has 0xFF taken off again (end-around carry), and the
 * result is the bitwise complement of the sum, truncated to a byte: the
 * "inverted eight bit sum with carry" of section 2.3.1.5 of the LIN 2.1
 * specification.
 */
module LinChecksum {
  import opened Serial

  /** One step of the accumulator: add a byte, and take 0xFF off if the sum went above 0xFF. */
  function AddWithCarry(acc: int, b: byte): (r: int)
    requires 0 <= acc <= 0xFF
    ensures 0 <= r <= 0xFF
  {
    var sum := acc + b;
    if sum > 0xFF then sum - 0xFF else sum
  }

  /** The accumulator after the loop of `calculateChecksum` has added `buffer[1 .. length)`. */
  function Accumulator(buffer: seq<byte>, length: int): (acc: int)
    requires length <= |buffer|
    ensures 0 <= acc <= 0xFF
    decreases length
  {
    if length <= 1 then 0
    else AddWithCarry(Accumulator(buffer, length - 1), buffer[length - 1])
  }

  /** `(byte)~x`: the two's complement bitwise NOT of an `int`, truncated to its low 8 bits. */
  function InvertToByte(x: int): (r: byte)
    ensures (r + x) % 0x100 == 0xFF
    ensures 0 <= x <= 0xFF ==> r == 0xFF - x
  {
    (-x - 1) % 0x100
  }

  /** `calculateChecksum(buffer, length)` as a value. */
  function Checksum(buffer: seq<byte>, length: int): (c: byte)
    requires length <= |buffer|
    ensures c == 0xFF - Accumulator(buffer, length)
    ensures length <= 1 ==> c == 0xFF
  {
    InvertToByte(Accumulator(buffer, length))
  }

  /** The loop of `lin::calculateChecksum`, over the caller's buffer. */
  method CalculateChecksum(dataBuffer: array<byte>, length: int) returns (checksum: byte)
    requires length <= dataBuffer.Length
    ensures checksum == Checksum(dataBuffer[..], length)
  {
    var acc: int := 0;
    var i := 1;
    while i < length
      invariant 1 <= i <= if length < 1 then 1 else length
      invariant i <= length ==> acc == Accumulator(dataBuffer[..], i)
      invariant i > length ==> acc == 0
    {
      acc := acc + dataBuffer[i];
      if acc > 0xFF {
        acc := acc - 0xFF;
      }
      i := i + 1;
    }
    checksum := InvertToByte(acc);
  }

  /** The plain sum of `buffer[1 .. length)`, with no carry and no truncation. */
  function PayloadSum(buffer: seq<byte>, length: int): (s: nat)
    requires length <= |buffer|
    decreases length
  {
    if length <= 1 then 0 else PayloadSum(buffer, length - 1) + buffer[length - 1]
  }

  /**
   * Sum with end-around carry, in closed form: zero for a zero sum, otherwise
   * the one value in 1..255 congruent to the sum modulo 255. Unlike `sum % 255`,
   * a non-zero multiple of 255 gives 255 and not 0.
   */
  function CarrySum(s: nat): (r: nat)
  {
    if s == 0 then 0 else (s - 1) % 255 + 1
  }

  /** One step of the accumulator adds a byte to the sum behind the carry sum. */
  lemma CarrySumStep(s: nat, b: byte)
    ensures AddWithCarry(CarrySum(s), b) == CarrySum(s + b)
  {
    if s > 0 && b > 0 {
      var q := (s - 1) / 255;
      var a := (s - 1) % 255 + 1;
      assert s - 1 == 255 * q + (a - 1);
      if a + b > 0xFF {
        assert s + b - 1 == 255 * (q + 1) + (a + b - 256);
      } else {
        assert s + b - 1 == 255 * q + (a + b - 1);
      }
    }
  }

  /** The accumulator is the closed-form carry sum of the payload bytes. */
  lemma {:induction false} AccumulatorIsCarrySum(buffer: seq<byte>, length: int)
    requires length <= |buffer|
    ensures Accumulator(buffer, length) == CarrySum(PayloadSum(buffer, length))
    decreases length
  {
    if length > 1 {
      AccumulatorIsCarrySum(buffer, length - 1);
      CarrySumStep(PayloadSum(buffer, length - 1), buffer[length - 1]);
    }
  }

  /**
   * Taking 0xFF off a sum above 0xFF is the same as LIN 2.1's "add the carry
   * back in": keep the low byte and add the carry bit.
   */
  lemma SubtractingFFAddsCarryBack(acc: int, b: byte)
    requires 0 <= acc <= 0xFF
    ensures AddWithCarry(acc, b) == (acc + b) % 0x100 + (acc + b) / 0x100
  {
  }

  /** `calculateChecksum` reads only `buffer[1 .. length)`: the sync byte and everything from `length` on are ignored. */
  lemma {:induction false} AccumulatorReadsOnlyPayload(buffer: seq<byte>, other: seq<byte>, length: int)
    requires length <= |buffer| && length <= |other|
    requires forall i :: 1 <= i < length ==> buffer[i] == other[i]
    ensures Accumulator(buffer, length) == Accumulator(other, length)
    decreases length
  {
    if length > 1 {
      AccumulatorReadsOnlyPayload(buffer, other, length - 1);
    }
  }

  /**
   * Round trip: a frame built as `head` followed by the checksum of `head`
   * passes the receiver's test, which checksums all but the last byte and
   * compares with the last byte.
   */
  lemma {:induction false} ChecksumRoundTrip(head: seq<byte>)
    ensures var frame := head + [Checksum(head, |head|)];
            Checksum(frame, |frame| - 1) == frame[|frame| - 1]
  {
    var frame := head + [Checksum(head, |head|)];
    AccumulatorReadsOnlyPayload(head, frame, |head|);
  }

  /**
   * The LIN 2.1 receiver check: summing the payload and the checksum byte of a
   * frame built as above, with carry, gives 0xFF.
   */
  lemma {:induction false} ChecksummedFrameSumsToFF(head: seq<byte>)
    ensures var frame := head + [Checksum(head, |head|)];
            |head| >= 1 ==> Accumulator(frame, |frame|) == 0xFF
  {
    var frame := head + [Checksum(head, |head|)];
    AccumulatorReadsOnlyPayload(head, frame, |head|);
  }

  /**
   * The checksum detects any change of one summed byte, except swapping 0x00
   * for 0xFF (or back): the two differ by exactly 255, which the carry sum
   * cannot see.
   */
  lemma {:induction false} ChecksumDetectsOneByteChange(buffer: seq<byte>, length: int, k: int, b: byte)
    requires length <= |buffer| && 1 <= k < length
    requires buffer[k] != b
    requires !(buffer[k] == 0 && b == 0xFF) && !(buffer[k] == 0xFF && b == 0)
    ensures Checksum(buffer[k := b], length) != Checksum(buffer, length)
  {
    var changed := buffer[k := b];
    PayloadSumChange(buffer, length, k, b);
    AccumulatorIsCarrySum(buffer, length);
    AccumulatorIsCarrySum(changed, length);
    var s, t := PayloadSum(buffer, length), PayloadSum(changed, length);
    assert t == s - buffer[k] + b;
    CarrySumSeparates(s, t);
  }

  /** Changing one summed byte changes the plain sum by the difference. */
  lemma {:induction false} PayloadSumChange(buffer: seq<byte>, length: int, k: int, b: byte)
    requires length <= |buffer| && 1 <= k < length
    ensures PayloadSum(buffer[k := b], length) == PayloadSum(buffer, length) - buffer[k] + b
    decreases length
  {
    if length - 1 > k {
      PayloadSumChange(buffer, length - 1, k, b);
    } else {
      PayloadSumReadsOnlyPayload(buffer, buffer[k := b], length - 1);
    }
  }

  /** The plain sum, like the accumulator, depends on `buffer[1 .. length)` only. */
  lemma {:induction false} PayloadSumReadsOnlyPayload(buffer: seq<byte>, other: seq<byte>, length: int)
    requires length <= |buffer| && length <= |other|
    requires forall i :: 1 <= i < length ==> buffer[i] == other[i]
    ensures PayloadSum(buffer, length) == PayloadSum(other, length)
    decreases length
  {
    if length > 1 {
      PayloadSumReadsOnlyPayload(buffer, other, length - 1);
    }
  }

  /** Two sums that differ by less than 255 (and not both zero) have different carry sums. */
  lemma CarrySumSeparates(s: nat, t: nat)
    requires s != t && -255 < s - t < 255
    ensures CarrySum(s) != CarrySum(t)
  {
    if s > 0 && t > 0 {
      var qs, qt := (s - 1) / 255, (t - 1) / 255;
      assert s - 1 == 255 * qs + (s - 1) % 255;
      assert t - 1 == 255 * qt + (t - 1) % 255;
      if (s - 1) % 255 == (t - 1) % 255 {
        assert false;
      }
    }
  }

  /** The test vector: sync 0x55, PID 0xCF, length 2 sums only 0xCF and gives 0x30. */
  lemma KnownVector()
    ensures Checksum([0x55, 0xCF, 0x01], 2) == 0x30
  {
  }
}
