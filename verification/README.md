# OneManRave core, modelled in Dafny

OneManRave is a three-device light show:

- An ESP32 master reads an Apple Remote and sends text command lines.
- A Teensy "audio brain" analyses the audio. It sends 68-byte FFT frames and 36-byte AUX frames, and it forwards the remote's commands as 68-byte CMD frames over a framed serial link.
- A Teensy LED controller receives the frames and drives 1728 LEDs arranged as twelve virtual strips.

This project models the core of these devices and proves properties of the model:

- The framing protocol: CRC-16/CCITT-FALSE, the encoder `encodeFrame`, and the LED device's resynchronising receiver in `processSerialData`.
- The analysis device's discrete logic:
  - the dominant-pitch argmax and its gate;
  - the vocal onset, late-capture and sustain state machine;
  - the major-peak scan and where its refinement applies;
  - the FFT and AUX payload layouts;
  - the command-line parser in `forwardESP32Commands` and the band reset on a band-count change.
- The LED device's control state:
  - `switchToMode` and the per-mode saved settings;
  - `applyCommandPayload`;
  - the dispatch of accepted frames;
  - the USB line accumulator and its parser;
  - the `initializeVirtualStrips` remap.
- The ESP32 master's `handleIRCommand`.

Each file that updates state in place is modelled as a class whose methods are proved against a pure reference function. These classes are:

- `SerialReceiver`, `LedController` and `UsbLineReader` on the LED device;
- `Analyzer`, `ChromaDetector` and `VocalTracker` on the analysis device;
- `IrController` on the master.

The lemmas about the reference functions state what the source promises. `EndToEnd.RemoteButtonReachesLeds` chains the three devices together. Bytes are `int` subranges, the 32-bit `millis()` clock is `u32` with an explicit wrap-around `Elapsed`, and the float inputs of the decision logic are `real` parameters.

Modules, one per file: `Bytes`, `Text`, `Crc16`, `Framing`, `Decoder`, `Payloads`, `CommandLine`, `Chroma`, `Vocal`, `Peak`, `AudioBrain`, `LedControl`, `UsbCommands`, `VirtualStrips`, `IrRemote`, `EndToEnd`.

## Model

| member | source | states |
|---|---|---|
| Bytes.Elapsed | teensy_fft/src/main.cpp:299 | `now - then` on a 32-bit unsigned long: the plain difference when the clock has not wrapped, the difference plus 2^32 when it has |
| Bytes.ToByte | teensy_fft/src/main.cpp:745-748 | the `uint8_t` cast keeps a value congruent to the input modulo 256, and keeps 0..255 unchanged |
| Text.Decimal | esp32_master_left/src/main.cpp:91 | `%u` prints a non-empty string of digits, with no leading zero except for 0 itself |
| Text.DecimalValue | esp32_master_left/src/main.cpp:91 | reading back the printed digits gives the printed number |
| Text.Atoi | teensy_fft/src/main.cpp:728-741 | `atoi` is non-negative on text starting with a digit, and 0 on empty text or text starting with neither blank, sign nor digit |
| Text.AtoiDecimal | teensy_fft/src/main.cpp:728-741 | `atoi` of a printed number followed by a non-digit is that number |
| Text.ScanInt | teensy_led/src/main.cpp:217-221 | a successful `%d` conversion always consumes input, so the unread rest is strictly shorter |
| Text.ScanIntDecimal | teensy_led/src/main.cpp:217-221 | `%d` scans a printed number followed by a non-digit back to that number and leaves the rest unread |
| Crc16.Crc16Ccitt | teensy_fft/include/Protocol.h:11-20 | the nested loop computes `Crc` of exactly the `len` bytes at `from`: start at 0xFFFF, and per byte XOR it into the high half and shift eight times with 0x1021. The copies at teensy_fft/src/main.cpp:482-491 and teensy_led/src/main.cpp:78-87 are the same loop |
| Crc16.Crc | teensy_fft/include/Protocol.h:11-20 | the reference CRC: 0xFFFF folded over the bytes by `UpdateByte`. `CheckValue` pins it to the published CRC-16/CCITT-FALSE check value, and `SingleByteChangeDetected` shows that it catches every one-byte change |
| Crc16.ShiftBits | teensy_fft/include/Protocol.h:15-17 | the inner loop performs exactly eight conditional shift-and-XOR steps |
| Crc16.CrcAppend | teensy_fft/include/Protocol.h:13-18 | one more data byte applies one byte update to the CRC so far |
| Crc16.UnshiftShift | teensy_fft/include/Protocol.h:16 | the bit step can be undone, because bit 0 after the step tells whether 0x1021 was XORed in |
| Crc16.ShiftInjective | teensy_fft/include/Protocol.h:16 | the bit step is one-to-one on 16-bit registers |
| Crc16.ShiftNInjective | teensy_fft/include/Protocol.h:15-17 | any number of bit steps is one-to-one |
| Crc16.HighByteInjective | teensy_fft/include/Protocol.h:14 | `data[i] << 8` keeps the whole data byte: different bytes give different high halves |
| Crc16.UpdateByteInjectiveInRegister | teensy_fft/include/Protocol.h:14-17 | for the same data byte, different registers stay different |
| Crc16.UpdateByteInjectiveInByte | teensy_fft/include/Protocol.h:14-17 | from the same register, different data bytes give different registers |
| Crc16.SingleByteChangeDetected | teensy_fft/include/Protocol.h:11-20 | two equal-length strings that differ in exactly one byte have different CRCs |
| Crc16.CheckValue | teensy_fft/include/Protocol.h:11-20 | the CRC of ASCII "123456789" is 0x29B1, the published check value of CRC-16/CCITT-FALSE |
| Framing.CrcOf | teensy_fft/include/Protocol.h:34 | the CRC read as an unsigned number fits 16 bits |
| Framing.Frame | teensy_fft/include/Protocol.h:22-41 | the bytes `encodeFrame` writes. `FrameLayout` gives them byte by byte, `EncodedFrameValid` says when the receiver accepts them, and `Decoder.EncodedFrameDelivered` shows that the receiver delivers them back |
| Framing.FrameValid | teensy_led/src/main.cpp:338-379 | the receiver's acceptance test: SOF, a registered type and length, the full size, EOF and a matching CRC. `ValidFrameIsEncoding` shows it accepts only encodings, and `ValidFramesDifferInMoreThanOneByte` shows no single-byte corruption passes |
| Framing.FrameLayout | teensy_fft/include/Protocol.h:28-39 | a frame is `len + 7` bytes: SOF 0xAA, type, seq, len, the payload byte for byte, the CRC of type..payload low byte first, then EOF 0xBB |
| Framing.CopyInto | teensy_fft/include/Protocol.h:32 | `memcpy` puts the payload at offset 4 and leaves every other byte of `out` alone |
| Framing.WriteHeader | teensy_fft/include/Protocol.h:28-32 | `out[0..4+len)` is SOF, type, seq, len and the payload; the bytes after it are untouched |
| Framing.WriteTrailer | teensy_fft/include/Protocol.h:35-37 | the CRC is written low byte then high byte, then EOF, and nothing else changes |
| Framing.EncodeFrame | teensy_fft/include/Protocol.h:22-41 | succeeds exactly when `outCap >= len + 7`. On failure it writes nothing and leaves the by-reference `outLen` as the caller had it (each caller pre-sets 0). On success `outLen == len + 7`, `out[..outLen]` is the frame, and the rest of `out` is untouched. The copy at teensy_fft/src/main.cpp:493-512 is the same code |
| Framing.EncodedFrameValid | teensy_led/src/main.cpp:338-379 | an encoded frame passes the receiver's header, EOF and CRC checks if and only if its type and length are one of FFT/68, CMD/68 or AUX/36 |
| Framing.ValidFrameIsEncoding | teensy_led/src/main.cpp:357-379 | every byte string the receiver's checks accept is the encoding of its own type, seq and payload |
| Framing.LittleEndianSplit | teensy_fft/include/Protocol.h:35-36 | splitting `lo + 256*hi` into low and high bytes gives back `lo` and `hi` |
| Framing.LittleEndianInjective | teensy_led/src/main.cpp:371-372 | the received CRC field `lo \| hi << 8` determines both bytes |
| Framing.CrcFieldCorruptionRejected | teensy_led/src/main.cpp:371-379 | changing either CRC byte of an accepted frame makes the CRC check fail |
| Framing.RegionCorruptionRejected | teensy_led/src/main.cpp:338-379 | changing any byte from type to the end of the payload makes a valid frame invalid |
| Framing.ValidFramesDifferInMoreThanOneByte | teensy_led/src/main.cpp:338-379 | no single-byte change turns a valid frame into another valid frame |
| Framing.SingleByteCorruptionRejected | teensy_led/src/main.cpp:338-379 | every single-byte corruption of an encoded frame is rejected by the receiver |
| Decoder.ResyncFrom | teensy_led/src/main.cpp:300-313 | the search from index i keeps a suffix of the buffer that is empty or starts with SOF |
| Decoder.ResyncFromSkipsNoSof | teensy_led/src/main.cpp:301-306 | the bytes dropped by the search from i hold no SOF |
| Decoder.Resync | teensy_led/src/main.cpp:298-314 | `resyncFromBuffer` keeps a suffix starting with SOF, or nothing, and a non-empty buffer always shrinks |
| Decoder.ResyncSkipsNoSof | teensy_led/src/main.cpp:298-314 | no SOF at index 1 or later is skipped |
| Decoder.ResyncAtFirstSof | teensy_led/src/main.cpp:298-314 | the kept suffix starts exactly at the first SOF at index 1 or later, moved to the front in order |
| Decoder.ResyncWithoutSof | teensy_led/src/main.cpp:311-313 | without such an SOF the buffer is emptied |
| Decoder.ExpectedSize | teensy_led/src/main.cpp:340 | `4 + payloadLen + 3`, the size the header announces; `Inspect` waits for it and drops an announced size over 80 |
| Decoder.Inspect | teensy_led/src/main.cpp:338-379 | the header, EOF and CRC checks keep the buffer within the 75-byte largest frame and starting with SOF. An accepted frame empties it, every drop resyncs, and an incomplete frame stays as it is |
| Decoder.InspectComplete | teensy_led/src/main.cpp:357-379 | with a good header and the whole frame in, the frame is accepted if and only if EOF and CRC match, and an EOF mismatch is never counted as a CRC error |
| Decoder.Feed | teensy_led/src/main.cpp:326-379 | one received byte keeps the buffer well formed. When nothing is delivered, the byte was appended, or it was a non-SOF byte discarded by an empty buffer |
| Decoder.FeedAcceptsOnlyValidFrames | teensy_led/src/main.cpp:357-379 | whenever a frame is delivered, the buffered bytes are a valid frame and exactly the encoding of the delivered type, seq and payload |
| Decoder.FeedCompletesValidFrame | teensy_led/src/main.cpp:357-379 | the last byte of a buffered valid frame delivers its type, seq and payload and empties the buffer |
| Decoder.FeedBuffersFramePrefix | teensy_led/src/main.cpp:326-357 | every byte of a valid frame before the last is simply buffered |
| Decoder.Run | teensy_led/src/main.cpp:322-448 | the receive loop yields one event per received byte |
| Decoder.CrcDrops | teensy_led/src/main.cpp:374-375 | the CRC failures counted among the events never outnumber them |
| Decoder.RunKeepsBuffered | teensy_led/src/main.cpp:326-357 | over any input, `rxIndex` stays within the 80-byte buffer (at most 75) and `rxBuffer[0]` is SOF whenever `rxIndex > 0` |
| Decoder.RunBuffersFramePrefix | teensy_led/src/main.cpp:326-357 | from an empty buffer, a proper prefix of a valid frame is buffered as it is and nothing is delivered |
| Decoder.EncodedFrameDelivered | teensy_led/src/main.cpp:322-448 | the round trip: from an empty buffer, `encodeFrame`'s output is delivered exactly once, at its last byte, with its type, seq and payload, leaving the buffer empty |
| Decoder.NoiseDiscarded | teensy_led/src/main.cpp:326-331 | bytes other than SOF are discarded by an empty buffer |
| Decoder.NoiseThenFrameDelivered | teensy_led/src/main.cpp:322-448 | noise without SOF followed by an encoded frame delivers that frame |
| Decoder.StaleBufferRecovers | teensy_led/src/main.cpp:316-320 | after more than 10 ms of silence the next encoded frame is delivered, whatever partial frame was left over |
| Decoder.FindSof | teensy_led/src/main.cpp:300-306 | the search loop finds the first SOF at index 1 or later, or -1 when there is none |
| Decoder.MoveToFront | teensy_led/src/main.cpp:308-310 | `memmove` moves the remaining bytes to the front in order and leaves the rest of the buffer alone |
| Decoder.SerialReceiver.constructor | teensy_led/src/main.cpp:90-91 | an empty 80-byte buffer with no CRC errors counted |
| Decoder.SerialReceiver.ResyncFromBuffer | teensy_led/src/main.cpp:298-314 | the buffer updated in place holds `Resync` of what it held |
| Decoder.SerialReceiver.InspectBuffer | teensy_led/src/main.cpp:338-379 | the checks in place agree with `Inspect`, and `crcErrors` grows by one exactly on a CRC drop |
| Decoder.SerialReceiver.CheckCompleteFrame | teensy_led/src/main.cpp:357-379 | the EOF and CRC checks in place agree with `Inspect`, and they count CRC drops |
| Decoder.SerialReceiver.FeedByte | teensy_led/src/main.cpp:326-379 | one byte in place agrees with `Feed`, and the receiver stays valid: `rxIndex <= 75` and SOF first |
| Decoder.SerialReceiver.ProcessSerialData | teensy_led/src/main.cpp:291-448 | the stale check, then the bytes in order: the buffer and the events are `Run` from the stale-checked buffer. `crcErrors` grows by the number of CRC drops, and `lastByteMs` is stamped when a byte arrives |
| Payloads.FftPayload | teensy_fft/src/main.cpp:632-649 | the 68-byte FFT payload: band block at 0..47, envelope, hit, note, strength and lock at 48..52, chroma at 53..64, pitch, strength and sustain at 65..67 |
| Payloads.DecodeFft | teensy_led/src/main.cpp:391-403 | the LED device reads every field from its offset |
| Payloads.FftRoundTrip | teensy_led/src/main.cpp:391-403 | unpacking a packed FFT payload gives back every field |
| Payloads.FftPayloadDetermined | teensy_fft/src/main.cpp:632-649 | every 68-byte payload is the packing of what it unpacks to, so the layout leaves no byte unread |
| Payloads.AuxPayload | teensy_fft/src/main.cpp:674-686 | the 36-byte AUX payload: band arrays at 0..23, `majorPeakHz` little-endian at 28..29, the band count at 33, bytes 34..35 zero |
| Payloads.AuxScalars | teensy_fft/src/main.cpp:677-686 | the scalar part of the AUX payload is the twelve bytes 24..35 |
| Payloads.DecodeAux | teensy_led/src/main.cpp:429-438 | the LED device reads a frequency below 65536 as `p[28] \| p[29] << 8`, and twelve bytes per band array |
| Payloads.AuxRoundTrip | teensy_led/src/main.cpp:429-438 | unpacking a packed AUX payload gives back every visual feature, whatever the band count |
| Payloads.AuxPayloadDetermined | teensy_fft/src/main.cpp:674-686 | a 36-byte payload with zero reserved bytes is the packing of its decoded features and its band byte |
| Payloads.CommandPayload | teensy_fft/src/main.cpp:714-748 | the 68-byte CMD payload holds the mode at 0, the pattern as a byte at both 1 and 2, the brightness as a byte at 3, and zeros everywhere else |
| Payloads.DecodeCommand | teensy_led/src/main.cpp:180-185 | `applyCommandPayload` reads the mode at 0, the pattern at 1 and the brightness at 3 |
| Payloads.CommandRoundTrip | teensy_led/src/main.cpp:180-185 | a command survives packing modulo 256 |
| Payloads.CommandIgnoresByteTwo | teensy_led/src/main.cpp:183-185 | byte 2, the pattern copy, is never read |
| CommandLine.FirstNul | teensy_fft/src/main.cpp:703 | the first terminator in the buffer, with none before it |
| CommandLine.FirstNulUnique | teensy_fft/src/main.cpp:703 | a terminator with none before it is the first one |
| CommandLine.CStr | teensy_fft/src/main.cpp:715-741 | the string a `char*` into the buffer denotes holds no NUL |
| CommandLine.CStrAt | teensy_fft/src/main.cpp:715-741 | before the terminator, that string is the slice up to the terminator |
| CommandLine.NextToken | teensy_fft/src/main.cpp:727-729 | `strtok_r` with "," gives no token exactly when only commas are left, and otherwise a non-empty token without commas |
| CommandLine.TokenFields | teensy_fft/src/main.cpp:725-730 | the branch with a comma: atoi of the first two `strtok_r` tokens, 0 when one is missing. `FieldsOfEmpty` and `TokenFieldsOfSentNumbers` state what it reads |
| CommandLine.DigitFields | teensy_fft/src/main.cpp:731-743 | the branch without a comma gives a pattern of one digit (0..9) and a non-negative brightness |
| CommandLine.PatternAndBrightness | teensy_fft/src/main.cpp:733-742 | after the blanks, the pattern is one digit and the brightness is non-negative |
| CommandLine.LeadingDigit | teensy_fft/src/main.cpp:733-736 | `*p - '0'` of a leading digit, so always below 10 |
| CommandLine.AtoiIfDigit | teensy_fft/src/main.cpp:740-742 | atoi is applied only after a digit, so the brightness is never negative |
| CommandLine.ModeIndex | teensy_fft/src/main.cpp:715-716 | one leading 'C' at most is skipped |
| CommandLine.ModeOf | teensy_fft/src/main.cpp:718 | the mode is never NUL, because an empty mode reads as '0' |
| CommandLine.SkipComma | teensy_fft/src/main.cpp:720 | at most one comma is passed over |
| CommandLine.AfterMode | teensy_fft/src/main.cpp:719 | the corrected pointer after the mode never passes the terminator |
| CommandLine.ParseAsWritten | teensy_fft/src/main.cpp:714-743 | the parse as written, with `p++` past the mode even onto the terminator. `AsWrittenAgreesWithMode` shows it equals `ParseCommand` whenever a mode is present, and `AsWrittenReadsStaleBytes` shows it reading stale bytes on an empty line |
| CommandLine.ParseCommand | teensy_fft/src/main.cpp:714-743 | the corrected parse; its mode is the one `*p ? *p : '0'` picks |
| CommandLine.FieldsOfEmpty | teensy_fft/src/main.cpp:722-743 | an empty remainder gives pattern 0 and brightness 0 in both branches |
| CommandLine.EmptyModeIsOff | teensy_fft/src/main.cpp:718-720 | the line "" or "C" parses as mode '0' with pattern 0 and brightness 0 |
| CommandLine.ParseCommandIgnoresStale | teensy_fft/src/main.cpp:701-743 | two buffers that agree up to the first terminator parse alike, so stale stack bytes never matter |
| CommandLine.CStrReadsUpToNul | teensy_fft/src/main.cpp:725-741 | the string at a pointer depends only on the bytes from there to the terminator |
| CommandLine.AsWrittenAgreesWithMode | teensy_fft/src/main.cpp:715-743 | whenever a mode character is present, the parse as written and the corrected parse agree |
| CommandLine.AtoiOneDigit | teensy_fft/src/main.cpp:728 | atoi of one digit is its value |
| CommandLine.FieldsOfFiveSeven | teensy_fft/src/main.cpp:725-730 | the comma branch on "5,7" gives pattern 5 and brightness 7 |
| CommandLine.AsWrittenReadsStaleBytes | teensy_fft/src/main.cpp:718-730 | with "5,7" left behind the terminator, the empty line parses as written to ('0', 5, 7), and correctly to ('0', 0, 0) |
| CommandLine.ParseCommandBuffer | teensy_fft/src/main.cpp:714-743 | the pointer-by-pointer parse over the stack buffer, with the step at line 719 corrected so that it never passes the terminator, computes `ParseCommand` |
| CommandLine.CStrSuffix | teensy_fft/src/main.cpp:732-738 | moving the pointer forward before the terminator drops exactly the characters passed over |
| CommandLine.DigitStep | teensy_fft/src/main.cpp:733-740 | `isdigit(*p)` tests the first character of the string at p, and `p++` over a digit drops it |
| CommandLine.SkipBlanks | teensy_fft/src/main.cpp:732 | the blank loop stops at the first character that is not space, CR or tab, without passing the terminator |
| CommandLine.ParseDigits | teensy_fft/src/main.cpp:731-743 | the digit branch in place computes `DigitFields` of the string at the pointer |
| CommandLine.StepOverDigit | teensy_fft/src/main.cpp:737-739 | `if (isdigit(*p)) p++` drops one leading digit, if any, and stays before the terminator |
| CommandLine.CommandBuffer | teensy_fft/src/main.cpp:701-709 | the buffer after `readBytesUntil`, `command[len] = '\0'` and the CR trim: terminated at `len`, with one trailing CR replaced by NUL, and stale bytes after it |
| CommandLine.NextTokenOfDecimal | teensy_fft/src/main.cpp:727-729 | `strtok_r` splits a printed number off at the next comma |
| CommandLine.TokenFieldsOfSentNumbers | teensy_fft/src/main.cpp:725-730 | the comma branch reads the first two of three printed numbers back |
| CommandLine.SentCommandParsed | teensy_fft/src/main.cpp:701-743 | a line "%c,%u,%u,%u" from the master is parsed to the printed mode and first two numbers, whatever stale bytes the buffer holds |
| Chroma.FirstMax | teensy_fft/src/main.cpp:246-249 | the argmax loop yields the lowest index holding the largest quantised value |
| Chroma.FirstMaxUnique | teensy_fft/src/main.cpp:246-249 | that index is unique |
| Chroma.PeakRatio | teensy_fft/src/main.cpp:252-253 | the smoothed energy of the chosen class over the average, or 0 when the average is at most 0.001. `DominantPitch` gates on it above 1.5, and `FlatChromaHasNoPitch` shows that a flat chroma, whose ratio is 1, never passes |
| Chroma.Strength | teensy_fft/src/main.cpp:258 | `min(255, (int)((ratio - 1) * 100))` is at least 50 for a ratio above 1.5 |
| Chroma.DominantPitch | teensy_fft/src/main.cpp:246-262 | a pitch class is reported if and only if the first maximum exceeds 30 and its ratio to the average exceeds 1.5. The reported pitch is that first maximum with strength at least 50; otherwise the result is (255, 0) |
| Chroma.FlatChromaHasNoPitch | teensy_fft/src/main.cpp:252-262 | equal energy in every class never yields a pitch |
| Chroma.SinglePitchClassReported | teensy_fft/src/main.cpp:246-262 | all the energy in one leading class k reports k at strength 255 |
| Chroma.ChromaDetector.constructor | teensy_fft/src/main.cpp:143-149 | zeroed chroma arrays and no dominant pitch |
| Chroma.ChromaDetector.MaxIndex | teensy_fft/src/main.cpp:246-249 | the loop in place finds the first maximum |
| Chroma.ChromaDetector.TotalChroma | teensy_fft/src/main.cpp:230-235 | `totalChroma` is the sum of the smoothed energies |
| Chroma.ChromaDetector.SelectDominantPitch | teensy_fft/src/main.cpp:246-262 | `dominantPitch` and `dominantPitchStrength` are set to `DominantPitch` of the two arrays |
| Vocal.InitialInv | teensy_fft/src/main.cpp:171-184 | the power-on statics satisfy the invariant: notes are pitch classes or 255, counters in range, sustain only on a pitch |
| Vocal.ConfidentPitch | teensy_fft/src/main.cpp:301-306 | the current pitch is the dominant pitch exactly when it is a class with strength at least 40, else (255, 0) |
| Vocal.OnsetStage | teensy_fft/src/main.cpp:308-356 | the onset and late-capture branches; `OnsetWithPitch`, `OnsetWithoutPitch` and `CaptureStep` state each case |
| Vocal.SustainStage | teensy_fft/src/main.cpp:358-377 | sustain detection with hysteresis; `SustainEngages`, `SustainReleases` and `SustainHysteresis` state its three bands |
| Vocal.VocalStep | teensy_fft/src/main.cpp:295-379 | one frame of the decision logic: the confident pitch, the onset test, the onset stage, the sustain stage, then `envPrev`. `StepPreservesInv`, `OnsetDetected` and `OnsetsDebounced` state what it keeps |
| Vocal.StepPreservesInv | teensy_fft/src/main.cpp:295-379 | every frame keeps the invariant, so `vocalNoteOut` is always in 0..11 or 255 |
| Vocal.OnsetDetected | teensy_fft/src/main.cpp:295-310 | an onset is reported if and only if env > 0.12, the rise is > 0.02 and the last onset is more than 80 ms old; only an onset moves `lastSyllableMs` |
| Vocal.OnsetsDebounced | teensy_fft/src/main.cpp:297-299 | two onsets are never within 80 ms of each other |
| Vocal.OnsetWithPitch | teensy_fft/src/main.cpp:309-323 | an onset with a confident pitch reports it for the syllable and closes the capture window |
| Vocal.OnsetWithoutPitch | teensy_fft/src/main.cpp:309-323 | an onset without one opens a 10-frame window, clears the note unless sustain holds it, and the syllable records the current note |
| Vocal.CaptureStep | teensy_fft/src/main.cpp:339-356 | a frame without an onset either captures a confident pitch and closes the window, or counts the window down by one |
| Vocal.CaptureCountsDown | teensy_fft/src/main.cpp:339-356 | over n frames without onsets the window drops by at least n, down to 0 |
| Vocal.CaptureWindowCloses | teensy_fft/src/main.cpp:339-356 | an open window is closed after as many onset-free frames as it had left, so within 10 |
| Vocal.SteadyPitchCounts | teensy_fft/src/main.cpp:359-370 | n frames of the same confident pitch with env >= 0.10 make it the candidate with a count of at least min(n, 4) |
| Vocal.SustainEngages | teensy_fft/src/main.cpp:359-370 | four such frames set sustain and pin the note to that pitch |
| Vocal.SustainReleases | teensy_fft/src/main.cpp:371-377 | env <= 0.06 clears sustain, sets candidate and note to 255, and sets the count to 0 |
| Vocal.SustainHysteresis | teensy_fft/src/main.cpp:358-377 | between 0.06 and 0.10, sustain, the candidate and the count stay as they are |
| Vocal.ReportedPitchIsConfident | teensy_fft/src/main.cpp:256-262 | a pitch the chroma stage reports always passes the vocal stage's strength gate of 40 |
| Vocal.VocalTracker.constructor | teensy_fft/src/main.cpp:171-184 | the power-on statics |
| Vocal.VocalTracker.CalculateVocalEnvelope | teensy_fft/src/main.cpp:295-379 | the statics updated in place follow `VocalStep` and keep the invariant |
| Vocal.VocalTracker.UpdateOnset | teensy_fft/src/main.cpp:308-356 | the onset and late-capture branches in place |
| Vocal.VocalTracker.UpdateSustain | teensy_fft/src/main.cpp:358-377 | the sustain branch in place |
| Peak.PeakScan | teensy_fft/src/main.cpp:386-395 | the scan yields a bin in [2, 255] holding the first strict maximum, which bounds every scanned magnitude; it is bin 2 when no magnitude is positive |
| Peak.PeakBin | teensy_fft/src/main.cpp:386-395 | the scanned peak bin lies in [2, 255] |
| Peak.RoundedHz | teensy_fft/src/main.cpp:407-410 | the reported frequency is clamped to at most 22050, and to 0 for a non-positive raw value |
| Peak.MajorPeakHz | teensy_fft/src/main.cpp:385-410 | the peak frequency always fits `uint16_t` |
| Peak.Offset | teensy_fft/src/main.cpp:402-403 | the parabolic offset, 0 when the denominator is at most 1e-12 in size; `OffsetAtMostHalf` bounds it by half a bin at a peak |
| Peak.RefinedBin | teensy_fft/src/main.cpp:397-405 | the peak bin, moved by the offset only strictly inside 2..255; `EdgePeakNotRefined`, `RefinedWithinHalfBin` and `ClampsNeverEngage` state where it lies |
| Peak.EdgePeakNotRefined | teensy_fft/src/main.cpp:397-405 | a peak at bin 2 or bin 255 is not refined |
| Peak.OffsetAtMostHalf | teensy_fft/src/main.cpp:402-403 | the parabolic offset through a middle value at least its neighbours is within half a bin |
| Peak.RefinedWithinHalfBin | teensy_fft/src/main.cpp:397-405 | the refined bin is within half a bin of the scanned one |
| Peak.ClampsNeverEngage | teensy_fft/src/main.cpp:407-410 | neither clamp ever engages: the refined bin lies in [1.5, 255.5] and the frequency is its rounded value |
| Peak.ScanPeakBin | teensy_fft/src/main.cpp:386-395 | the scan loop in place computes `PeakScan` |
| Peak.CalculateMajorPeakHz | teensy_fft/src/main.cpp:385-410 | scan, refinement, clamp and rounding in place compute `MajorPeakHz` |
| AudioBrain.NextSeq | teensy_fft/src/main.cpp:653 | `seq++` on a `uint8_t` wraps modulo 256 |
| AudioBrain.HasSignal | teensy_fft/src/main.cpp:603-609 | some active band lies above 1e-8; `Analyzer.CheckSignal` computes it by an early-exit loop |
| AudioBrain.Analyzer.Aux | teensy_fft/src/main.cpp:674-686 | the statics the AUX frame carries are well formed: twelve bytes per band array and a 16-bit frequency |
| AudioBrain.Analyzer.constructor | teensy_fft/src/main.cpp:110-125 | twelve active bands, zeroed band state, all sequence counters 0 |
| AudioBrain.Analyzer.CheckSignal | teensy_fft/src/main.cpp:603-609 | there is signal if and only if some active band is above 1e-8 |
| AudioBrain.Analyzer.SendFftFrame | teensy_fft/src/main.cpp:602-658 | without signal nothing is sent and no counter moves. With signal it sends the FFT frame with the old `fftSeq`, then the AUX frame with the old `auxSeq`, and both counters advance |
| AudioBrain.Analyzer.FillFftPayload | teensy_fft/src/main.cpp:632-649 | the payload filled field by field is `FftPayload` |
| AudioBrain.Analyzer.SendAuxFrame | teensy_fft/src/main.cpp:673-693 | the AUX frame of the current statics with the old `auxSeq`, which advances |
| AudioBrain.Analyzer.FillAuxPayload | teensy_fft/src/main.cpp:674-686 | the payload filled in place is `AuxPayload` |
| AudioBrain.Analyzer.WriteAuxScalars | teensy_fft/src/main.cpp:677-686 | bytes 24..35 are written and the band arrays at 0..23 are kept |
| AudioBrain.Analyzer.CalculatePeakData | teensy_fft/src/main.cpp:385-410 | `majorPeakHz` becomes `MajorPeakHz` of the magnitudes |
| AudioBrain.Analyzer.ForwardEsp32Commands | teensy_fft/src/main.cpp:698-778 | the buffer is terminated and trimmed, and the parse is `ParseCommand`, with the step at line 719 corrected. The CMD frame is sent with the old `cmdSeq`, which advances. Mode 'M' selects the pattern and twelve bands; a change of band count clears all band state and `globalVisAvg`, and otherwise the band state is unchanged |
| AudioBrain.Analyzer.ReadCommand | teensy_fft/src/main.cpp:701-743 | the terminated buffer and its parse |
| AudioBrain.Analyzer.SendCommandFrame | teensy_fft/src/main.cpp:769-773 | the CMD frame of the parsed command, and the counter advances |
| AudioBrain.Analyzer.TerminateLine | teensy_fft/src/main.cpp:701-709 | the buffer in place becomes `CommandBuffer` of the line and the stale bytes |
| AudioBrain.Analyzer.FillCommandPayload | teensy_fft/src/main.cpp:714-748 | the payload filled in place is `CommandPayload` |
| AudioBrain.Analyzer.ApplyBandConfig | teensy_fft/src/main.cpp:750-767 | mode 'M' sets the pattern and twelve bands and clears the band state when the count changes; any other mode changes nothing |
| AudioBrain.Analyzer.ClearBands | teensy_fft/src/main.cpp:757-764 | every band array and `globalVisAvg` become zero |
| LedControl.SwitchRemembersOutgoing | teensy_led/src/main.cpp:235-287 | a switch lands in the new mode, saves the outgoing M/S/P settings, and leaves every other slot alone |
| LedControl.SwitchTakesGivenValues | teensy_led/src/main.cpp:261-282 | non-negative values are taken as given in every mode but '0' |
| LedControl.SwitchRestoresRemembered | teensy_led/src/main.cpp:261-273 | negative values restore the new mode's saved settings, counting the ones just saved |
| LedControl.OffKeepsBrightness | teensy_led/src/main.cpp:274-278 | mode '0' shows pattern 0 and keeps the brightness |
| LedControl.AwayAndBack | teensy_led/src/main.cpp:235-287 | leaving an M/S/P mode and coming back with negative values restores exactly what it was left with |
| LedControl.PayloadValuesAlwaysTaken | teensy_led/src/main.cpp:180-187 | payload bytes are never negative, so a CMD never restores saved settings, and outside '0' it shows its pattern and brightness |
| LedControl.SwitchTo | teensy_led/src/main.cpp:254-287 | `switchToMode` on the control state; `SwitchRemembersOutgoing`, `SwitchTakesGivenValues`, `SwitchRestoresRemembered`, `OffKeepsBrightness` and `AwayAndBack` state what it promises |
| LedControl.ApplyPayload | teensy_led/src/main.cpp:180-190 | the switch with bytes 0, 1 and 3; `PayloadValuesAlwaysTaken` shows it never restores saved values |
| LedControl.ControlAfter | teensy_led/src/main.cpp:381-444 | the control state after the CMD frames of a burst, in order; `ControlAfterIgnoresOthers` shows other frames leave it alone |
| LedControl.UsbControlAfter | teensy_led/src/main.cpp:476-518 | the control state after the applied USB lines, in order |
| LedControl.Receive | teensy_led/src/main.cpp:381-442 | the globals besides the control state after one accepted frame: FFT fields, band count 12 and `lastPacketTime`; the pending flag for CMD; AUX fields and `lastAuxPacketMs` |
| LedControl.ReceivedAfter | teensy_led/src/main.cpp:322-448 | those globals after a burst, frame by frame |
| LedControl.LastFftFrameStored | teensy_led/src/main.cpp:382-405 | after a burst, the FFT globals hold the fields of its last FFT frame, the band count is 12 and `lastPacketTime` is the burst's time |
| LedControl.NoFftFrameKeepsFft | teensy_led/src/main.cpp:382-442 | a burst without an FFT frame leaves the FFT globals, the band count and `lastPacketTime` as they were |
| LedControl.LastAuxFrameStored | teensy_led/src/main.cpp:416-439 | after a burst, the AUX globals hold the fields of its last AUX frame and `lastAuxPacketMs` is the burst's time |
| LedControl.NoAuxFrameKeepsAux | teensy_led/src/main.cpp:382-442 | a burst without an AUX frame leaves the AUX globals and `lastAuxPacketMs` as they were |
| LedControl.PendingAfterBurst | teensy_led/src/main.cpp:286 | `serialDataPending` is set after a burst if and only if it was set before or the burst delivered a CMD frame |
| LedControl.AnyApplied | teensy_led/src/main.cpp:223-229 | whether some USB line reaches `applyCommandPayload` |
| LedControl.AnyAppliedSome | teensy_led/src/main.cpp:223-229 | `AnyApplied` holds exactly when some line yields a payload |
| LedControl.ControlAfterIgnoresOthers | teensy_led/src/main.cpp:381-442 | events other than CMD frames leave the control state alone |
| LedControl.LedController.constructor | teensy_led/src/main.cpp:44-53 | solid mode, pattern 0, brightness 10, and every slot at (0, 10) |
| LedControl.LedController.SaveCurrentModeSettings | teensy_led/src/main.cpp:235-250 | the current pattern and brightness go to the current mode's slot |
| LedControl.LedController.SwitchToMode | teensy_led/src/main.cpp:254-287 | the globals become `SwitchTo` of the old ones, and `serialDataPending` is set |
| LedControl.LedController.ApplyCommandPayload | teensy_led/src/main.cpp:180-190 | the switch with bytes 0, 1 and 3, which sets `serialDataPending` |
| LedControl.LedController.StoreFft | teensy_led/src/main.cpp:391-405 | every FFT field is stored from its offset, the band count goes back to 12, and the arrival time is stamped |
| LedControl.LedController.StoreAux | teensy_led/src/main.cpp:429-439 | every AUX field is stored from its offset, and the arrival time is stamped |
| LedControl.LedController.Dispatch | teensy_led/src/main.cpp:381-442 | a CMD frame is applied to the control state, and nothing else touches it. The other globals follow `Receive`: an FFT frame stores its fields, sets the band count to 12 and stamps `lastPacketTime`. A CMD frame raises `serialDataPending`. An AUX frame stores its fields and stamps `lastAuxPacketMs`. Any other frame changes nothing |
| LedControl.LedController.ProcessSerialData | teensy_led/src/main.cpp:291-448 | the receiver runs as in `Run`, with its `crcErrors` count and `lastByteMs` stamp. The control state follows every CMD frame delivered, in order, and the stored FFT/AUX data, band count, stamps and pending flag follow `ReceivedAfter` of the delivered events |
| LedControl.LedController.DispatchAll | teensy_led/src/main.cpp:381-444 | accepted frames are dispatched in arrival order: the control state follows `ControlAfter` and the other globals follow `ReceivedAfter` |
| LedControl.LedController.ParseUsbCommandLine | teensy_led/src/main.cpp:193-232 | a scanned line with a known mode is applied as a CMD payload and raises `serialDataPending`. Fire lines, unscanned lines and unknown modes change nothing, the flag included |
| LedControl.LedController.ParseUsbLines | teensy_led/src/main.cpp:494 | every completed line is parsed, in order, and `serialDataPending` ends raised exactly when it was already raised or some line was applied |
| LedControl.LedController.ProcessUsbSerialCommands | teensy_led/src/main.cpp:476-518 | the accumulator follows `UsbPoll` and stamps `lastByteMs` when a character arrives. The control state follows the completed lines in order, `serialDataPending` is raised when some line was applied, and the stored FFT/AUX data, band count and stamps are as before |
| UsbCommands.UsbPayloadOf | teensy_led/src/main.cpp:223-229 | a zeroed payload with the mode at 0, the pattern at 1 and the brightness at 3, which the LED device reads back modulo 256 |
| UsbCommands.ScanUsb | teensy_led/src/main.cpp:217-221 | `sscanf(line, " %c,%d,%d") == 3`; `ScanUsbOfFields` reads printed fields back, and `UsbFourFieldLineReadsThirdField` shows that a fourth field is ignored |
| UsbCommands.UsbPayload | teensy_led/src/main.cpp:193-232 | a payload results if and only if the line is not a fire line, scans as " %c,%d,%d" and has mode 0, S, P, M or A. The payload holds the scanned values |
| UsbCommands.ScanUsbOfFields | teensy_led/src/main.cpp:217-221 | "mode,pattern,brightness" followed by nothing or by a comma scans back to its three fields |
| UsbCommands.UsbLineParsed | teensy_led/src/main.cpp:217-231 | such a line with a known mode gives the payload of its fields |
| UsbCommands.UsbPayloadOfScan | teensy_led/src/main.cpp:223-229 | a line starting with a known mode that scans is applied with the scanned values |
| UsbCommands.UsbThreeFieldLine | teensy_led/src/main.cpp:472-473 | the three-field lines of the format comment parse as documented |
| UsbCommands.UsbFourFieldLineReadsThirdField | teensy_led/src/main.cpp:474 | the four-field line "M,1,0,40" takes its brightness from the third field, not the fourth as the comment says |
| UsbCommands.UnknownModeRejected | teensy_led/src/main.cpp:223-231 | a mode outside 0, S, P, M, A is rejected, whatever follows |
| UsbCommands.UsbStep | teensy_led/src/main.cpp:486-508 | one character into the accumulator; `LineDelivered`, `UsbRunAccumulates` and `OverlongLineDropped` state its three cases |
| UsbCommands.UsbPoll | teensy_led/src/main.cpp:476-518 | one call: the characters, then the idle flush of a line holding two commas after 50 ms; `UsbPollLinesOk` and `NoFlushWhileReceiving` state what it keeps |
| UsbCommands.UsbRunLinesOk | teensy_led/src/main.cpp:482-509 | every completed line is non-empty, at most 63 characters and free of CR and LF, and the accumulator stays within 63 |
| UsbCommands.UsbPollLinesOk | teensy_led/src/main.cpp:476-518 | the same holds for a whole call, idle flush included |
| UsbCommands.NoFlushWhileReceiving | teensy_led/src/main.cpp:511-517 | the idle flush never fires in a call that read a character |
| UsbCommands.UsbRunAccumulates | teensy_led/src/main.cpp:498-502 | characters that fit and contain no line end are only accumulated |
| UsbCommands.LineDelivered | teensy_led/src/main.cpp:486-496 | a line ended by CR or LF is handed over exactly, leaving the accumulator empty |
| UsbCommands.OverlongLineDropped | teensy_led/src/main.cpp:498-508 | a 64th character without a line end drops the whole line |
| UsbCommands.UsbLineReader.constructor | teensy_led/src/main.cpp:477-480 | an empty 64-character line |
| UsbCommands.UsbLineReader.TakeLine | teensy_led/src/main.cpp:490-492 | the pending line is handed over and the accumulator emptied |
| UsbCommands.UsbLineReader.FeedChar | teensy_led/src/main.cpp:486-508 | one character in place agrees with `UsbStep`, and the comma count stays the number of commas |
| UsbCommands.UsbLineReader.ReadLines | teensy_led/src/main.cpp:476-518 | the read loop and the idle flush agree with `UsbPoll`, and `lastByteMs` is stamped when a character arrives |
| VirtualStrips.LedIndex | teensy_led/src/main.cpp:529-544 | every pointer lands in `leds[0..1728)` |
| VirtualStrips.VirtualPosition | teensy_led/src/main.cpp:529-544 | the inverse map sends every LED to a virtual strip below 12 and a position below 144 |
| VirtualStrips.VirtualRoundTrip | teensy_led/src/main.cpp:529-544 | each virtual position maps back from its LED, so no two positions share an LED |
| VirtualStrips.LedRoundTrip | teensy_led/src/main.cpp:529-544 | every LED is pointed at, so the map is onto `leds[0..1728)` |
| VirtualStrips.LedIndexInjective | teensy_led/src/main.cpp:529-544 | the remap is one-to-one |
| VirtualStrips.VirtualStripsRunUp | teensy_led/src/main.cpp:535-543 | even virtual strips step backwards through a second half, and odd ones forwards through a first half |
| VirtualStrips.InitializeVirtualStrips | teensy_led/src/main.cpp:523-545 | the table filled in place holds `LedIndex` at every position |
| VirtualStrips.FillRow | teensy_led/src/main.cpp:536-543 | one inner loop fills one row with `start + step*i` and leaves the other rows alone |
| IrRemote.FastRepeatIgnored | esp32_master_left/src/main.cpp:134-136 | a repeat code within 150 ms changes nothing, not even `lastCommandTime` |
| IrRemote.HandleIr | esp32_master_left/src/main.cpp:130-193 | `handleIRCommand` on the globals, with the line it sends; `FastRepeatIgnored`, `UnknownCodeOnlyStamps`, `ButtonSendsNewState` and `HandleIrKeepsRemoteOk` state its cases |
| IrRemote.MaxIndex | esp32_master_left/src/main.cpp:164 | the largest index of a mode: 12 in music, 6 in pattern, 11 otherwise |
| IrRemote.PlayMode | esp32_master_left/src/main.cpp:141-149 | PLAY's new mode; `PlayToggles` states it |
| IrRemote.MenuMode | esp32_master_left/src/main.cpp:151-158 | MENU's new mode; `MenuCycles` states it |
| IrRemote.NextIndex | esp32_master_left/src/main.cpp:160-169 | RIGHT/REPEAT's byte increment with the wrap to 0; `NextIndexInRange` and `LeftUndoesRight` state it |
| IrRemote.PreviousIndex | esp32_master_left/src/main.cpp:171-179 | LEFT's decrement, 0 going to the maximum; `LeftUndoesRight` states it |
| IrRemote.UnknownCodeOnlyStamps | esp32_master_left/src/main.cpp:138-192 | any other code that is no button only stamps the time |
| IrRemote.ButtonSendsNewState | esp32_master_left/src/main.cpp:138-192 | a handled button stamps the time, sends exactly the resulting globals, and changes only the field it is about |
| IrRemote.PlayToggles | esp32_master_left/src/main.cpp:141-149 | PLAY maps 'S' to 'M' and everything else to 'S', and it toggles between the two |
| IrRemote.MenuCycles | esp32_master_left/src/main.cpp:151-158 | MENU cycles M, A, P and sends anything else to M |
| IrRemote.NextIndexInRange | esp32_master_left/src/main.cpp:160-169 | RIGHT/REPEAT lands in [0, maxIdx]: one up from inside, and 0 past the maximum |
| IrRemote.LeftUndoesRight | esp32_master_left/src/main.cpp:160-179 | LEFT and RIGHT undo each other inside the mode's range |
| IrRemote.HandleIrKeepsRemoteOk | esp32_master_left/src/main.cpp:130-193 | every code keeps the mode among S, M, A, P, the brightness in [0, 27] and `param3` at 0 |
| IrRemote.BrightnessSaturates | esp32_master_left/src/main.cpp:181-191 | UP and DOWN move by one and saturate at 27 and 0 |
| IrRemote.ModeChangeKeepsIndex | esp32_master_left/src/main.cpp:151-179 | mode changes keep `colorIndex`, which can then exceed the new mode's maximum |
| IrRemote.IrController.constructor | esp32_master_left/src/main.cpp:68-71 | solid mode, colour 1, brightness 3 |
| IrRemote.IrController.HandleIRCommand | esp32_master_left/src/main.cpp:130-193 | the globals in place follow `HandleIr`, the line sent is returned, and the invariant is kept |
| IrRemote.IrController.ChangeMode | esp32_master_left/src/main.cpp:141-158 | the PLAY and MENU cases in place |
| IrRemote.IrController.ChangeIndex | esp32_master_left/src/main.cpp:160-179 | the RIGHT, REPEAT and LEFT cases in place |
| IrRemote.IrController.ChangeBrightness | esp32_master_left/src/main.cpp:181-191 | the UP and DOWN cases in place |
| EndToEnd.SentText | esp32_master_left/src/main.cpp:90-95 | the line the master prints always fits the analysis device's 64-byte buffer |
| EndToEnd.CommandTextBounded | esp32_master_left/src/main.cpp:91-92 | "%c,%u,%u,%u" of bytes is at most 13 characters, so the snprintf error branch never fires |
| EndToEnd.DecimalShort | esp32_master_left/src/main.cpp:91 | a byte prints in at most three digits |
| EndToEnd.RemoteButtonReachesLeds | teensy_fft/src/main.cpp:698-778 | a button's line is parsed to the sent mode, index and brightness whatever stale bytes the buffer holds. Its CMD frame is delivered once, at its last byte, and the LED device switches to that mode, pattern and brightness |

## Left out

- Float signal processing. This covers the FFT, band energies and their smoothing, the noise floor, the attack and release envelope, chroma accumulation, square roots and quantisation, the logarithmic peak magnitude, the visual bands and `globalVisAvg` smoothing. The decision logic takes these results as `real` inputs or as byte fields of its state. Real arithmetic replaces `float`, so rounding in `(peakRatio - 1) * 100` and in the peak refinement is exact here.
- The 48-byte float band block of the FFT payload is carried as opaque bytes (`memcpy` of IEEE-754 floats).
- Serial, Serial1, Serial2, USB, ESP-NOW, IR reception, debug printing, `FastLED.setBrightness` and the EEPROM fire settings. Received bytes and characters are parameters. Sent frames and lines are returned.
- The early return of `forwardESP32Commands` when no byte is available, and `readBytesUntil` itself. The model starts from the bytes it stored.
- `millis()` is read once per call (`nowMs`, `now`). The source re-reads it per byte for `lastByteMs` and for the arrival stamps.
- The fire tuning lines "F,…" of `parseUsbCommandLine`. They are recognised and change nothing here, because `setFireParams` lies outside the core.
- The packet and command counters and the debug block of `processSerialData`. `crcErrors` is modelled but never reset; the source zeroes it with the other counters every 3 s for its debug print.
- `beatAmplitude`, the no-packet warning, and `printControlStatus`.
- The S/PDIF lock byte comes from `spdifInput.pllLocked()`. It is a field of the FFT record passed to `SendFftFrame`, together with the vocal and chroma bytes.
- `sscanf` and `atoi` are modelled on unbounded integers. Overflow of `int` on very long digit strings is not modelled.
- AudioBrain.Analyzer.ApplyBandConfig: `activeBands` is only ever set to 12, so the band reset is dead code in practice. It is modelled anyway, with `activeBands` anywhere in 1..12.
- LedControl.SwitchTo: the negative-argument branches cannot be reached from either caller, since bytes are never negative (`PayloadValuesAlwaysTaken`). They are modelled anyway.
- AudioBrain.Analyzer.ForwardEsp32Commands: also returns the parsed command, so that its contract can name it.
- The LED device dispatches each frame inside its receive loop. `LedController.ProcessSerialData` runs the receiver first and dispatches afterwards, in the same order. This is equivalent because the receiver never reads the control state.
- The analysis device fills the CMD payload before the band update. `ForwardEsp32Commands` parses first and builds the frame afterwards. This is equivalent because the band update does not touch the parsed values.
- The second copies of `crc16_ccitt` and `encodeFrame` (teensy_fft/src/main.cpp:482-512, teensy_led/src/main.cpp:78-87) are the same code as teensy_fft/include/Protocol.h, and one model covers all of them.
- The LED renderers, the slave ESP32 and the test sketches are not part of this model.

## Findings

| source | as written | input that shows it | evidently intended | confidence | as-written member | corrected member |
|---|---|---|---|---|---|---|
| teensy_fft/src/main.cpp:718-720 | `p++` runs even when the mode character is the terminator, so an empty line ("" or "C") reads pattern and brightness from the uninitialised stack bytes after the NUL | the line "" with "5,7" left in the buffer after the terminator from an earlier line: parsed as mode '0', pattern 5, brightness 7 | an empty line is mode '0' with pattern 0 and brightness 0, and nothing after the terminator is read | not executed | CommandLine.AsWrittenReadsStaleBytes | CommandLine.ParseCommand |

`CommandLine.ParseAsWritten` is the parse as the source writes it. `CommandLine.AsWrittenAgreesWithMode` shows it differs from the corrected `CommandLine.ParseCommand` only on an empty mode. `CommandLine.EmptyModeIsOff` and `CommandLine.ParseCommandIgnoresStale` state the intended behaviour of the corrected parse, which the rest of the model uses.
