# TrailerController LIN receiver, modelled in Dafny

TrailerController is the firmware of a trailer light controller. It listens
to the car's LIN bus, picks out the lights frame (protected identifier 0xCF),
checks the frame's checksum and drives three lamp outputs: left signal, right
signal and tail lights. This project models the receiving side and the light
logic and proves what they do:

- `Serial` holds what both receivers read from: bytes (`byte`), the 32-bit
  `micros()` counter (`u32`, `Micros`, `Elapsed`) and the receive FIFO as a
  sequence of `Arrival`s, each a byte with the time it arrives. `ReadClock`
  and `InTime` describe a busy-wait reader that takes each byte as soon as it
  has arrived.
- `LinChecksum` models `lin::calculateChecksum`. It is the LIN "inverted
  eight bit sum with carry" of section 2.3.1.5 of the LIN 2.1 specification,
  in its "enhanced" form: summed from `buffer[1]`, so the PID is included.
  It is given as a function,
  as the loop method over the caller's array, and with lemmas: closed form,
  round trip, detection of one-byte changes, and the known vector.
- `LinPhase1` models the phase-1 receiver (src/phase1/src/lin.cpp). The
  globals `dataIndex`, `lastReceivedTime` and `frameState`, and the 11-byte
  `dataBuffer`, are the fields of class `Lin`.
  - `UpdateFrame` is the non-blocking receiver. It is proved against the
    value-level state machine `Step` / `Drain` / `CheckBreak` / `Poll`.
  - `ReadFrame` is the older busy-wait receiver, with the inner loop as
    `ReadAvailable` and the store with its two resets as `Store`. It is proved against the filter `Filtered` and the
    stopping rule `StopsReading`.
- `LinPhase1Properties` relates calls, bytes and the two receivers:
  - started idle, within one call, `updateFrame` holds the same bytes as
    `readFrame`'s filter until the frame is full. The two differ elsewhere.
    `readFrame` writes a rejected PID byte into `buf[1]` before resetting,
    while `updateFrame` does not store it. After 11 bytes `updateFrame` reads
    and drops further bytes, while `readFrame` leaves them in the FIFO;
  - a frame may span several `updateFrame` calls that see no break;
  - a PID mismatch is not a resync;
  - complete frames are discarded;
  - `readFrame` stops at a point fixed by its input alone.
- `LinPhase0` models the first receiver (src/phase0/src/lin.cpp): a
  busy-wait accumulator with no filtering and a 675 µs threshold.
- `TrailerController` models the flags and lamp logic of
  src/phase1/src/main.cpp. Lamp pin writes are recorded in order in
  `Controller.writes`, and `Level` reads a pin's level back from them.

Time is an absolute microsecond count (a `nat`). `micros()` is its value
modulo 2^32, and `micros() - lastReceivedTime` is evaluated modulo 2^32 as
the `unsigned long` subtraction is (`Elapsed`). `ElapsedOfMicros` shows that
this subtraction gives the true interval across a wrap.

`updateFrame` is given:
- the bytes waiting in the FIFO, each with the clock reading taken right
  after it was read;
- the clock reading `now` of its break test.

The busy-wait `readFrame`s are given:
- the FIFO's traffic, each byte with the time it arrives;
- the clock at entry.

Their outer loop tests the clock once per turn, and the model lets the clock
advance one microsecond per turn. Under that clock, the contracts state:
- which bytes were read and which stay in the FIFO;
- that the call returns exactly 728 (or 675) µs after the last byte read, or
  after entry when no byte was read;
- that each read came before the silence ran out.

Three behaviours of the code are easy to miss, and the model keeps each as
written:
- `updateFrame` never reports a frame. Its end-of-frame branch zeroes
  `dataIndex` (src/phase1/src/lin.cpp:83) before the minimal-length test and
  the `return dataIndex` meant to report the count (lin.cpp:85-86), so that
  test never passes and every call returns 0.
  - `UpdateFrame` ensures `r == 0`.
  - `Poll` ensures that a frame completed in a call, by a break or by
    filling the buffer, is reset to WAIT_SYNC with index 0 in that call.
  - `FullFrameIsDiscarded` and `ShortFrameThenSilence` show such frames.
  - `Controller.Loop` shows that the lights never change through this path.
- An 11-byte frame is dropped as soon as it is full. The drain loop sets
  FRAME_COMPLETE at the eleventh byte (lin.cpp:68-69), and the reset of
  lin.cpp:81-88 in the same call throws the frame away, even while more
  bytes keep coming.
- The checksum is the LIN 2.x "enhanced" checksum: the sum starts at
  `buffer[1]` (lin.cpp:97), so the protected identifier is summed with the
  data bytes. `ChecksumDetectsOneByteChange` with `k = 1` shows that the PID
  is part of the sum: changing it changes the checksum.

## Model

| member | source | states |
|---|---|---|
| Serial.Elapsed | src/phase1/src/lin.cpp:76 | `now - last` on `unsigned long` is below 2^32, is the plain difference when `now >= last`, and wraps to `2^32 - (last - now)` otherwise |
| Serial.Micros | src/phase1/src/lin.cpp:18 | `micros()` reads the absolute clock modulo 2^32; below 2^32 it is the clock itself |
| Serial.ElapsedOfMicros | src/phase1/src/lin.cpp:22 | for two clock readings less than 2^32 µs apart, the wrapped subtraction of their `micros()` values is the true interval, so the silence test is right across a counter wrap |
| Serial.ReadNextAt | src/phase0/src/lin.cpp:20-23 | reading the next byte at a clock after its arrival and before the silence has run out makes that clock the new last-read time and keeps every read in time |
| Serial.InTimePrefix | src/phase0/src/lin.cpp:19 | when a run of reads came in time, every shorter run did too, and each byte of the run arrived before the silence ran out |
| LinChecksum.AddWithCarry | src/phase1/src/lin.cpp:98-101 | one step of the loop (add, then take 0xFF off above 0xFF) keeps the accumulator in [0, 0xFF] |
| LinChecksum.InvertToByte | src/phase1/src/lin.cpp:105 | `(byte)~x` added to `x` is 0xFF modulo 256, so for an accumulator in [0, 0xFF] it is `0xFF - x` |
| LinChecksum.Accumulator | src/phase1/src/lin.cpp:96-102 | the accumulator after summing `buffer[1 .. length)` is in [0, 0xFF] |
| LinChecksum.Checksum | src/phase1/src/lin.cpp:95-105 | the result is 0xFF minus the final accumulator, and 0xFF when `length <= 1` |
| LinChecksum.CalculateChecksum | src/phase1/src/lin.cpp:95-105 | the loop over the caller's array returns `Checksum` of the array's contents |
| LinChecksum.CarrySumStep | src/phase1/src/lin.cpp:98-101 | one step with end-around carry takes the carry sum of `s` to the carry sum of `s + b` |
| LinChecksum.AccumulatorIsCarrySum | src/phase1/src/lin.cpp:96-102 | the accumulator equals the closed-form carry sum of the plain sum of `buffer[1 .. length)`: 0 for 0, else the value in 1..255 congruent to it modulo 255 |
| LinChecksum.SubtractingFFAddsCarryBack | src/phase1/src/lin.cpp:98-101 | subtracting 0xFF above 0xFF equals LIN 2.1's "add the carry back": low byte plus carry bit |
| LinChecksum.AccumulatorReadsOnlyPayload | src/phase1/src/lin.cpp:97 | the checksum depends only on `buffer[1 .. length)`: the sync byte and bytes from `length` on are never read |
| LinChecksum.ChecksumRoundTrip | src/phase1/src/lin.cpp:95-105 | appending the checksum of all of `head` to `head` makes the receiver's test (checksum of all but the last byte equals the last byte) pass |
| LinChecksum.ChecksummedFrameSumsToFF | src/phase1/src/lin.cpp:95-105 | summing with carry the payload and the appended checksum byte gives 0xFF, the LIN 2.1 receiver check |
| LinChecksum.ChecksumDetectsOneByteChange | src/phase1/src/lin.cpp:95-105 | changing any one summed byte, the PID at `buffer[1]` included, changes the checksum, unless it swaps 0x00 and 0xFF |
| LinChecksum.KnownVector | src/phase1/src/lin.cpp:95-105 | `[0x55, 0xCF, 0x01]` with length 2 gives 0x30 |
| LinPhase1.Step | src/phase1/src/lin.cpp:49-73 | one byte of the drain loop keeps the index within 0..11, so no write passes `dataBuffer[10]` and a receiving frame always has room; the byte's read time becomes `lastReceivedTime` even when the byte is dropped |
| LinPhase1.Drain | src/phase1/src/lin.cpp:49-73 | draining any number of bytes keeps the buffer bound, and `lastReceivedTime` is the read time of the last byte drained |
| LinPhase1.CheckBreak | src/phase1/src/lin.cpp:76-78 | the state changes exactly when it is RECEIVING and `now - lastReceivedTime >= 728`, and then it becomes FRAME_COMPLETE; nothing else in the receiver changes |
| LinPhase1.Poll | src/phase1/src/lin.cpp:47-93 | after a call the receiver is valid and never in FRAME_COMPLETE: a complete frame is reset to WAIT_SYNC with index 0 in the call that completed it |
| LinPhase1.FilterStep | src/phase1/src/lin.cpp:25-32 | a byte read by `readFrame` is either kept at the next position or resets the index to 0: at index 0 it is kept exactly when it is 0x55, at index 1 exactly when no PID is expected or it is the PID, and from index 2 on always |
| LinPhase1.WriteAt | src/phase1/src/lin.cpp:25-32 | the filter's index only falls back to 0 from 1 or 2, so a store and its resets never write at or past `max(2, dataIndex)` afterwards, and that bound never moves back |
| LinPhase1.Filtered | src/phase1/src/lin.cpp:25-32 | the index `readFrame` holds after `n` bytes, with its sync and PID resets, is between 0 and `n` |
| LinPhase1.StoreByte | src/phase1/src/lin.cpp:25-32 | storing a byte and applying the sync and PID resets keeps the buffer holding the sync byte, the PID and the last `dataIndex` bytes read |
| LinPhase1.ReadAtClock | src/phase1/src/lin.cpp:22-26 | reading one more byte before the silence runs out keeps every read in time and the buffer below full before each read |
| LinPhase1.Lin.constructor | src/phase1/src/lin.cpp:6-8 | the globals start at zero, which is WAIT_SYNC |
| LinPhase1.Lin.SetupSerial | src/phase1/src/lin.cpp:11-14 | the receiver starts waiting for a sync byte |
| LinPhase1.Lin.UpdateFrame | src/phase1/src/lin.cpp:47-93 | the new receiver state is `Poll` of the old one over the pending bytes and `now`; the result is 0 on every path |
| LinPhase1.Lin.ReadFrame | src/phase1/src/lin.cpp:16-44 | returns 0 or a count in [2, 11]; a non-zero count has 0x55 at `buf[0]` and the PID at `buf[1]` when `pid > 0`; the buffer holds the last `dataIndex` bytes read, and positions from `max(2, dataIndex)` on keep their old contents; bytes after the buffer is full stay in the FIFO; the call returns 728 µs after the last read |
| LinPhase1.Lin.ReadAvailable | src/phase1/src/lin.cpp:23-36 | the inner loop reads every byte that has arrived, stopping once 11 are held, and keeps the outer loop's invariants |
| LinPhase1.Lin.Store | src/phase1/src/lin.cpp:25-32 | storing a byte writes only position `dataIndex`, and the new index is the filter's: kept at the next position or reset to 0 after a bad sync byte or PID |
| LinPhase1Properties.StepAgreesWithFilter | src/phase1/src/lin.cpp:54-71 | one byte taken by `updateFrame` and by `readFrame`'s filter leaves them with the same index, state and held bytes |
| LinPhase1Properties.DrainAgreesWithFilter | src/phase1/src/lin.cpp:49-73 | started idle, `updateFrame`'s drain holds exactly the bytes `readFrame` would keep, sync byte first, in the state that count implies (WAIT_SYNC at 0, FRAME_COMPLETE at 11) |
| LinPhase1Properties.NoSyncStaysWaiting | src/phase1/src/lin.cpp:54-59 | in WAIT_SYNC every byte but 0x55 is read and dropped: only the timestamp changes |
| LinPhase1Properties.FrameCompleteDropsBytes | src/phase1/src/lin.cpp:49-73 | in FRAME_COMPLETE further bytes are read and dropped: only the timestamp changes |
| LinPhase1Properties.PidMismatchIsNotResync | src/phase1/src/lin.cpp:60-66 | after sync, a second 0x55 that is not the PID resets to WAIT_SYNC with index 0 and is not taken as a new sync, so the PID after it is dropped |
| LinPhase1Properties.PidCheck | src/phase1/src/lin.cpp:60-71 | for the byte after the sync byte: when a PID is expected and the byte differs, the receiver returns to WAIT_SYNC with index 0 and the buffer untouched; otherwise the byte is stored at position 1 and the frame goes on |
| LinPhase1Properties.LateSyncIsData | src/phase1/src/lin.cpp:66-71 | past the PID, a byte (0x55 included) is stored at `dataIndex` and the index advances |
| LinPhase1Properties.FullFrameIsDiscarded | src/phase1/src/lin.cpp:81-89 | eleven kept bytes complete the frame, and the same call resets it: the receiver is idle again and nothing is reported |
| LinPhase1Properties.ShortFrameThenSilence | src/phase1/src/lin.cpp:76-89 | sync, 0xCF, 0x01 then 728 µs of silence: the three bytes are held, then the break and reset leave the receiver idle without reporting them |
| LinPhase1Properties.DrainAppend | src/phase1/src/lin.cpp:49-73 | draining two runs of bytes in turn is draining them together |
| LinPhase1Properties.PollsWithoutBreakCompose | src/phase1/src/lin.cpp:47-93 | a call that sees no break and completes no frame leaves the drained state as it is, so two such calls act as one call over all their bytes |
| LinPhase1Properties.SilenceEndsFrame | src/phase1/src/lin.cpp:75-89 | a call that ends its drain loop RECEIVING, at least 728 µs after the last byte read, leaves the receiver idle in WAIT_SYNC with index 0 |
| LinPhase1Properties.StopsReadingUnique | src/phase1/src/lin.cpp:16-22 | the number of bytes `readFrame` takes is fixed by the traffic, the entry time and the PID, whatever the earlier calls left behind |
| LinPhase0.StopsReadingUnique | src/phase0/src/lin.cpp:17-19 | each call starts from index 0 and a fresh timestamp, so the number of bytes taken depends only on the traffic and the entry time |
| LinPhase0.Lin.constructor | src/phase0/src/lin.cpp:8-9 | the globals start at zero |
| LinPhase0.Lin.ReadFrame | src/phase0/src/lin.cpp:16-32 | returns a count in [0, 11] equal to the bytes read; stores them in arrival order at positions 0..count-1 with no filtering, and every position from `count` on keeps its old contents; bytes after the eleventh stay in the FIFO; returns 675 µs after the last read |
| LinPhase0.Lin.ReadAvailable | src/phase0/src/lin.cpp:20-28 | the inner loop reads every byte that has arrived, in order, stopping once 11 are held |
| TrailerController.LastWriteOfAppend | src/phase1/src/main.cpp:145-149 | a pin's level is set by its latest write; later writes that leave a pin alone keep its earlier level |
| TrailerController.Gated | src/phase1/src/main.cpp:145-149 | `setLightState` writes at most once: one write of the given pin and level exactly when the output is enabled, none otherwise |
| TrailerController.LightWritesShowLights | src/phase1/src/main.cpp:181-183 | with the output enabled, setting the lamps makes each pin show its light; disabled, no pin is written |
| TrailerController.DisableTurnsLampsOff | src/phase1/src/main.cpp:163-168 | after disabling the output all three lamps are low, whatever was lit before |
| TrailerController.BlinkLeavesOff | src/phase1/src/main.cpp:196-198 | lighting a lamp and turning it off lights that pin once, leaves it low and leaves other pins alone |
| TrailerController.TestPatternLightsEachOnce | src/phase1/src/main.cpp:191-204 | the test lights left, right, tail once each in that order and leaves every lamp low |
| TrailerController.Bit | src/phase1/src/main.cpp:178-180 | `dataByte & mask` taken as a `bool`, for mask 1, 2 or 4, is true exactly when `dataByte mod 2*mask` is at least `mask` |
| TrailerController.LightsOf | src/phase1/src/main.cpp:178-180 | left is on exactly when bit 0 is set, right when bit 1 is set, tail when bit 2 is set |
| TrailerController.EncodeLights | src/phase1/src/main.cpp:175-180 | the byte a sender puts on the bus for a set of lights has only the low three bits set |
| TrailerController.DecodeEncode | src/phase1/src/main.cpp:178-180 | decoding bit 0 as left, bit 1 as right and bit 2 as tail gives back the encoded lights |
| TrailerController.HigherBitsIgnored | src/phase1/src/main.cpp:178-180 | bits 3 to 7 (brakes, reverse) do not affect the lights; re-encoding the decoded lights gives the byte's low three bits |
| TrailerController.ControlLights | src/phase1/src/main.cpp:357-378 | with no id all lights go off; with an id, left flips exactly when it is 0, right exactly when it is 1 and tail exactly when it is 2 |
| TrailerController.ControlTogglesOne | src/phase1/src/main.cpp:357-372 | an id of 0, 1 or 2 changes exactly one light and any other id none; the same id twice restores the lights |
| TrailerController.FrameAccepted | src/phase1/src/main.cpp:534-536 | a frame passes exactly when `bytesRead > 0` and the accumulator of the bytes before the last, plus the last byte, is 0xFF |
| TrailerController.ChecksummedFrameAccepted | src/phase1/src/main.cpp:533-537 | a frame whose last byte is the checksum of the bytes before it passes `loop`'s test |
| TrailerController.CorruptedFrameRejected | src/phase1/src/main.cpp:533-542 | an accepted frame with one PID or data byte changed (other than 0x00 for 0xFF) fails the test |
| TrailerController.Controller.constructor | src/phase1/src/main.cpp:396-454 | after start-up frames are processed, all lights are off and the three lamp pins were driven low; `output_enabled` is the saved value |
| TrailerController.Controller.PopulateActiveLights | src/phase1/src/main.cpp:69-81 | the status line holds the left arrow exactly when left is on, the bulb exactly when tail is on and the right arrow exactly when right is on, in that order, one icon per light that is on |
| TrailerController.Controller.SetLightState | src/phase1/src/main.cpp:145-149 | a pin is written only while the output is enabled; otherwise nothing is written |
| TrailerController.Controller.HandleRoot | src/phase1/src/main.cpp:211-212 | serving the status page turns frame processing back on |
| TrailerController.Controller.ToggleOutputEnabled | src/phase1/src/main.cpp:151-172 | negates `output_enabled`, sets `process_frames`, leaves the light states alone, and drives all three pins low when the output becomes disabled |
| TrailerController.Controller.ProcessLightLINFrame | src/phase1/src/main.cpp:174-184 | the light states become bits 0, 1, 2 of the data byte, and the pins show them when the output is enabled |
| TrailerController.Controller.RunTestSequence | src/phase1/src/main.cpp:186-209 | restores `output_enabled` to its value on entry, leaves `process_frames` set, keeps the light states, and writes the test pattern |
| TrailerController.Controller.HandleControlPage | src/phase1/src/main.cpp:353-382 | forces the output on and frame processing off, applies the request's id (no id clears all three lights), and writes the lamps |
| TrailerController.Controller.ApplyControlRequest | src/phase1/src/main.cpp:357-378 | the light states become `ControlLights` of the request's id and the old states: one light toggled for ids 0 to 2, none for other ids, all off with no id |
| TrailerController.Controller.HandleLinFrame | src/phase1/src/main.cpp:527-544 | a frame is acted on exactly when `bytesRead > 0` and the checksum over `bytesRead - 1` bytes equals the last byte; then the lights come from `dataBuffer[2]`, otherwise nothing changes |
| TrailerController.Controller.Loop | src/phase1/src/main.cpp:518-546 | while frames are processed the receiver advances by one `updateFrame` call; because that call reports nothing, the lights and the pins never change |

## Left out

- I/O and foreign calls: `Serial1.begin` and the UART settings in both
  `setupSerial`s, debug printing, `flashLED` and `delay` in
  `runTestSequence`, the HTML pages and HTTP responses (`handleRoot`'s file
  serving among them), Wi-Fi, mDNS, OTA and
  the reboot.
- `toggleOutputEnabled`'s write of the flag to the file system; loading the
  saved settings in `setup`. The saved `output_enabled` is the
  `Controller` constructor's parameter.
- `handleControlPage`'s parsing of the `id` argument with `toInt`. The
  argument arrives already parsed, as `Option<int>`, with `None` when the
  request has no `id`.
- `latestFrameString` in `loop`: the hexadecimal text of the frame and the
  "OK"/"ERR" suffix. Only the acceptance decision and its effect are
  modelled.
- `getOnboardTemperature` (floating point) and the rest of main.cpp outside
  the light logic; all of src/phase0/src/main.cpp.
- The real speed of the busy-wait loop. The model's clock advances one
  microsecond per outer turn.
- Calls of the phase-1 `readFrame` interleaved with `updateFrame`. The two
  share `dataIndex` and `lastReceivedTime`. `readFrame` can leave
  `dataIndex == 11` while `frameState` is RECEIVING, and a following
  `updateFrame` would then write past the buffer.
  - `LinPhase1.Lin.UpdateFrame` requires the receiver invariant, which
    excludes that state.
  - `LinPhase1.Lin.ReadFrame` is not required to keep the invariant.
  - The firmware never calls `readFrame`.
- `lin.h` in src/phase1/include declares neither `dataBuffer` nor
  `updateFrame`, although main.cpp uses both. `LinPhase1.Lin` gives the
  receiver the 11-byte `dataBuffer` field main.cpp reads.
- TrailerController.Controller.HandleLinFrame: requires `bytesRead <= 11`.
  The source does not test this, but neither receiver returns more.
- TrailerController.Controller.PopulateActiveLights: each icon is one
  character, not the multi-byte UTF-8 text the firmware appends.
- Integer widths: `short dataIndex` never leaves 0..11 and the checksum's
  `int` never exceeds 0x1FE, so no overflow is possible.
