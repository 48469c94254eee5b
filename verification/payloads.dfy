/**
 * The payload byte layouts of the three frame types: what the analysis
 * device packs (`sendFftFrame`, `sendAuxFrame`, `forwardESP32Commands`) and
 * what the LED device unpacks when it dispatches an accepted frame.
 */
module Payloads {
  import opened Bytes
  import opened Framing

  /** Twelve IEEE-754 floats copied with `memcpy`; carried as opaque bytes. */
  const BAND_BLOCK_LEN: nat := 48
  const PITCH_CLASSES: nat := 12
  const VIS_BANDS: nat := 12

  /** The fields of an FFT frame, in the order `sendFftFrame` writes them. */
  datatype FftFields = FftFields(
    bandBlock: seq<byte>,
    vocalEnv: byte,
    syllableHit: byte,
    vocalNote: byte,
    vocalNoteStrength: byte,
    spdifLock: byte,
    chroma: seq<byte>,
    dominantPitch: byte,
    dominantPitchStrength: byte,
    vocalSustain: byte)

  predicate FftFieldsOk(f: FftFields)
  {
    |f.bandBlock| == BAND_BLOCK_LEN && |f.chroma| == PITCH_CLASSES
  }

  /** The 68-byte FFT payload: bands at 0..47, vocal bytes at 48..51, lock at 52, chroma at 53..64, pitch at 65..66, sustain at 67. */
  function FftPayload(f: FftFields): (p: seq<byte>)
    requires FftFieldsOk(f)
    ensures |p| == FFT_PAYLOAD_LEN as int
    ensures p[..48] == f.bandBlock && p[53..65] == f.chroma
    ensures p[48] == f.vocalEnv && p[49] == f.syllableHit && p[50] == f.vocalNote
    ensures p[51] == f.vocalNoteStrength && p[52] == f.spdifLock
    ensures p[65] == f.dominantPitch && p[66] == f.dominantPitchStrength && p[67] == f.vocalSustain
  {
    f.bandBlock
      + [f.vocalEnv, f.syllableHit, f.vocalNote, f.vocalNoteStrength, f.spdifLock]
      + f.chroma
      + [f.dominantPitch, f.dominantPitchStrength, f.vocalSustain]
  }

  /** What the LED device stores from an FFT payload. */
  function DecodeFft(p: seq<byte>): (f: FftFields)
    requires |p| == FFT_PAYLOAD_LEN as int
    ensures FftFieldsOk(f)
  {
    FftFields(p[..48], p[48], p[49], p[50], p[51], p[52], p[53..65], p[65], p[66], p[67])
  }

  /** Unpacking an FFT payload gives back every field that was packed. */
  lemma FftRoundTrip(f: FftFields)
    requires FftFieldsOk(f)
    ensures DecodeFft(FftPayload(f)) == f
  {
  }

  /** Every 68-byte payload is the packing of the fields it decodes to. */
  lemma FftPayloadDetermined(p: seq<byte>)
    requires |p| == FFT_PAYLOAD_LEN as int
    ensures FftPayload(DecodeFft(p)) == p
  {
    var q := FftPayload(DecodeFft(p));
    assert q[..48] == p[..48] && q[53..65] == p[53..65];
    assert forall i :: 0 <= i < 68 ==> q[i] == p[i] by {
      forall i | 0 <= i < 68 ensures q[i] == p[i] {
        if i < 48 {
          assert q[i] == q[..48][i];
        } else if 53 <= i < 65 {
          assert q[i] == q[53..65][i - 53];
        }
      }
    }
  }

  /** The visual features of an AUX frame (`activeBands` is packed but not read back). */
  datatype AuxFields = AuxFields(
    bandVis: seq<byte>,
    bandDelta: seq<byte>,
    globalVis: byte,
    bassVis: byte,
    midVis: byte,
    trebleVis: byte,
    majorPeakHz: int,
    majorPeakMag: byte,
    spectralFlux: byte,
    peakDetected: byte)

  /** Twelve bands each and a peak frequency that fits `uint16_t`. */
  predicate AuxFieldsOk(a: AuxFields)
  {
    |a.bandVis| == VIS_BANDS && |a.bandDelta| == VIS_BANDS && 0 <= a.majorPeakHz < 0x1_0000
  }

  /** The 36-byte AUX payload: the frequency little-endian at 28..29, the band count at 33, 34..35 reserved as zero. */
  function AuxPayload(a: AuxFields, activeBands: int): (p: seq<byte>)
    requires AuxFieldsOk(a)
    ensures |p| == AUX_PAYLOAD_LEN as int
    ensures p[..12] == a.bandVis && p[12..24] == a.bandDelta
    ensures p[28] as int + 256 * p[29] as int == a.majorPeakHz
    ensures p[33] == ToByte(activeBands) && p[34] == 0 && p[35] == 0
  {
    a.bandVis + a.bandDelta + AuxScalars(a, activeBands)
  }

  /** Bytes 24..35 of the AUX payload: the four visual levels, the frequency low byte first, magnitude, flux, peak flag, band count, two reserved zeros. */
  function AuxScalars(a: AuxFields, activeBands: int): (t: seq<byte>)
    requires AuxFieldsOk(a)
    ensures |t| == 12
  {
    [a.globalVis, a.bassVis, a.midVis, a.trebleVis,
     a.majorPeakHz % 256, (a.majorPeakHz / 256) % 256,
     a.majorPeakMag, a.spectralFlux, a.peakDetected,
     ToByte(activeBands), 0, 0]
  }

  /** What the LED device stores from an AUX payload: `majorPeakHz = p[28] | p[29] << 8`. */
  function DecodeAux(p: seq<byte>): (a: AuxFields)
    requires |p| == AUX_PAYLOAD_LEN as int
    ensures AuxFieldsOk(a)
  {
    AuxFields(p[..12], p[12..24], p[24], p[25], p[26], p[27],
              p[28] as int + 256 * p[29] as int, p[30], p[31], p[32])
  }

  /** Unpacking an AUX payload gives back every packed feature, whatever the band count. */
  lemma AuxRoundTrip(a: AuxFields, activeBands: int)
    requires AuxFieldsOk(a)
    ensures DecodeAux(AuxPayload(a, activeBands)) == a
  {
    var p := AuxPayload(a, activeBands);
    assert p[..12] == a.bandVis && p[12..24] == a.bandDelta;
  }

  /** A 36-byte payload with zero reserved bytes is the packing of its decoded features and its band byte. */
  lemma AuxPayloadDetermined(p: seq<byte>)
    requires |p| == AUX_PAYLOAD_LEN as int
    requires p[34] == 0 && p[35] == 0
    ensures AuxPayload(DecodeAux(p), p[33]) == p
  {
    var q := AuxPayload(DecodeAux(p), p[33]);
    var hz := p[28] as int + 256 * p[29] as int;
    assert hz % 256 == p[28] && (hz / 256) % 256 == p[29];
    assert q[..12] == p[..12] && q[12..24] == p[12..24];
    assert forall i :: 0 <= i < 36 ==> q[i] == p[i] by {
      forall i | 0 <= i < 36 ensures q[i] == p[i] {
        if i < 12 {
          assert q[i] == q[..12][i];
        } else if i < 24 {
          assert q[i] == q[12..24][i - 12];
        }
      }
    }
  }

  /** The three fields of a CMD payload the LED device reads (bytes 0, 1 and 3). */
  datatype CommandFields = CommandFields(mode: byte, pattern: byte, brightness: byte)

  /**
   * The 68-byte CMD payload: mode at 0, the pattern (cast to `uint8_t`) at
   * both 1 and 2, the brightness at 3, zeros elsewhere.
   */
  function CommandPayload(mode: byte, pattern: int, brightness: int): (p: seq<byte>)
    ensures |p| == CMD_PAYLOAD_LEN as int
    ensures p[0] == mode && p[1] == p[2] == ToByte(pattern) && p[3] == ToByte(brightness)
    ensures forall i :: 4 <= i < |p| ==> p[i] == 0
  {
    [mode, ToByte(pattern), ToByte(pattern), ToByte(brightness)] + Zeros(64)
  }

  /** `applyCommandPayload`: mode from byte 0, pattern from byte 1, brightness from byte 3. */
  function DecodeCommand(p: seq<byte>): (c: CommandFields)
    requires |p| >= 4
    ensures c.mode == p[0] && c.pattern == p[1] && c.brightness == p[3]
  {
    CommandFields(p[0], p[1], p[3])
  }

  /** A command survives packing modulo 256, and byte 2 (the pattern copy) is never read. */
  lemma CommandRoundTrip(mode: byte, pattern: int, brightness: int)
    ensures DecodeCommand(CommandPayload(mode, pattern, brightness))
         == CommandFields(mode, ToByte(pattern), ToByte(brightness))
  {
  }

  /** Changing byte 2 of a CMD payload does not change the command the LED device applies. */
  lemma CommandIgnoresByteTwo(p: seq<byte>, x: byte)
    requires |p| == CMD_PAYLOAD_LEN as int
    ensures DecodeCommand(p[2 := x]) == DecodeCommand(p)
  {
  }
}
