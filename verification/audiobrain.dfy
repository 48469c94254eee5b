/**
 * The transmit side of the analysis device: the statics behind
 * `sendFftFrame`, `sendAuxFrame`, `forwardESP32Commands` and the peak
 * estimate, with the payloads filled in place and framed by `encodeFrame`.
 *
 * The float analysis that fills the band arrays and the visual bytes is not
 * part of this model: those fields are the state these operations read.
 */
module AudioBrain {
  import opened Bytes
  import opened Framing
  import opened Payloads
  import opened Text
  import opened CommandLine
  import Peak

  const MAX_BANDS: nat := 12
  const BANDS_12: nat := 12
  /** A band above this amplitude counts as signal. */
  const SIGNAL_FLOOR: real := 0.00000001

  /** Some active band carries signal. */
  predicate HasSignal(amplitudes: seq<real>, activeBands: int)
  {
    exists i :: 0 <= i < activeBands && i < |amplitudes| && amplitudes[i] > SIGNAL_FLOOR
  }

  /** Increment of a `uint8_t` sequence counter. */
  function NextSeq(s: byte): (n: byte)
    ensures n == (s + 1) % 256
  {
    if s == 255 then 0 else s + 1
  }

  class Analyzer {
    var activeBands: int
    var currentPattern: int
    const smoothedBandAmplitude: array<real>
    const lastCalibratedEnergy: array<real>
    const bandVisFft: array<real>
    const bandVis8: array<byte>
    const bandDelta8: array<byte>
    var globalVisAvg: real
    var globalVis8: byte
    var bassVis8: byte
    var midVis8: byte
    var trebleVis8: byte
    var majorPeakHz: nat
    var majorPeakMag: byte
    var spectralFlux8: byte
    var peakDetected: byte
    var wasTransmitting: bool
    var fftSeq: byte
    var auxSeq: byte
    var cmdSeq: byte

    ghost predicate Valid()
      reads this
    {
      && smoothedBandAmplitude.Length == MAX_BANDS
      && lastCalibratedEnergy.Length == MAX_BANDS
      && bandVisFft.Length == MAX_BANDS
      && bandVis8.Length == MAX_BANDS
      && bandDelta8.Length == MAX_BANDS
      && smoothedBandAmplitude != lastCalibratedEnergy
      && smoothedBandAmplitude != bandVisFft
      && lastCalibratedEnergy != bandVisFft
      && bandVis8 != bandDelta8
      && 1 <= activeBands <= MAX_BANDS
      && majorPeakHz < 0x1_0000
    }

    /** The AUX features as they stand. */
    function Aux(): (a: AuxFields)
      reads this, bandVis8, bandDelta8
      requires Valid()
      ensures AuxFieldsOk(a)
    {
      AuxFields(bandVis8[..], bandDelta8[..], globalVis8, bassVis8, midVis8, trebleVis8,
                majorPeakHz, majorPeakMag, spectralFlux8, peakDetected)
    }

    /** The power-on state: twelve bands, everything zero. */
    constructor ()
      ensures Valid() && activeBands == BANDS_12 && currentPattern == 0
      ensures fresh(smoothedBandAmplitude) && fresh(lastCalibratedEnergy) && fresh(bandVisFft)
      ensures fresh(bandVis8) && fresh(bandDelta8)
      ensures !wasTransmitting && fftSeq == 0 && auxSeq == 0 && cmdSeq == 0
    {
      activeBands := BANDS_12;
      currentPattern := 0;
      smoothedBandAmplitude := new real[MAX_BANDS](_ => 0.0);
      lastCalibratedEnergy := new real[MAX_BANDS](_ => 0.0);
      bandVisFft := new real[MAX_BANDS](_ => 0.0);
      bandVis8 := new byte[MAX_BANDS](_ => 0);
      bandDelta8 := new byte[MAX_BANDS](_ => 0);
      globalVisAvg := 0.0;
      globalVis8, bassVis8, midVis8, trebleVis8 := 0, 0, 0, 0;
      majorPeakHz, majorPeakMag, spectralFlux8, peakDetected := 0, 0, 0, 0;
      wasTransmitting := false;
      fftSeq, auxSeq, cmdSeq := 0, 0, 0;
    }

    /** The signal check at the head of `sendFftFrame`. */
    method CheckSignal() returns (hasSignal: bool)
      requires Valid()
      ensures hasSignal <==> HasSignal(smoothedBandAmplitude[..], activeBands)
    {
      hasSignal := false;
      var i := 0;
      while i < activeBands
        invariant 0 <= i <= activeBands
        invariant forall j :: 0 <= j < i ==> smoothedBandAmplitude[j] <= SIGNAL_FLOOR
      {
        if smoothedBandAmplitude[i] > SIGNAL_FLOOR {
          hasSignal := true;
          assert smoothedBandAmplitude[..][i] > SIGNAL_FLOOR;
          return;
        }
        i := i + 1;
      }
    }

    /**
     * `sendFftFrame`: nothing is sent while every active band is silent;
     * otherwise an FFT frame with the next FFT sequence number, then an AUX
     * frame with the next AUX sequence number. The vocal, chroma and lock
     * bytes and the float band block arrive in `f`.
     */
    method SendFftFrame(f: FftFields) returns (sent: seq<seq<byte>>)
      requires Valid() && FftFieldsOk(f)
      modifies this`wasTransmitting, this`fftSeq, this`auxSeq
      ensures Valid()
      ensures !HasSignal(smoothedBandAmplitude[..], activeBands) ==>
        sent == [] && !wasTransmitting && fftSeq == old(fftSeq) && auxSeq == old(auxSeq)
      ensures HasSignal(smoothedBandAmplitude[..], activeBands) ==>
        && sent == [Frame(TYPE_FFT, old(fftSeq), FftPayload(f)), Frame(TYPE_AUX, old(auxSeq), AuxPayload(Aux(), activeBands))]
        && wasTransmitting && fftSeq == NextSeq(old(fftSeq)) && auxSeq == NextSeq(old(auxSeq))
    {
      var hasSignal := CheckSignal();
      if !hasSignal {
        wasTransmitting := false;
        return [];
      }
      wasTransmitting := true;
      var payload := FillFftPayload(f);
      var frame := new byte[LARGEST_FRAME];
      var ok, frameLen := EncodeFrame(TYPE_FFT, fftSeq, payload[..], frame, frame.Length, 0);
      fftSeq := NextSeq(fftSeq);
      var aux := SendAuxFrame();
      sent := [frame[..frameLen], aux];
    }

    /** The FFT payload array, filled field by field. */
    static method FillFftPayload(f: FftFields) returns (payload: array<byte>)
      requires FftFieldsOk(f)
      ensures fresh(payload) && payload[..] == FftPayload(f)
    {
      payload := new byte[FFT_PAYLOAD_LEN](_ => 0);
      CopyInto(payload, 0, f.bandBlock);
      payload[48] := f.vocalEnv;
      payload[49] := f.syllableHit;
      payload[50] := f.vocalNote;
      payload[51] := f.vocalNoteStrength;
      payload[52] := f.spdifLock;
      CopyInto(payload, 53, f.chroma);
      payload[65] := f.dominantPitch;
      payload[66] := f.dominantPitchStrength;
      payload[67] := f.vocalSustain;
      var p := FftPayload(f);
      forall i | 0 <= i < 68
        ensures payload[i] == p[i]
      {
        if i < 48 {
          assert p[i] == p[..48][i];
        } else if 53 <= i < 65 {
          assert p[i] == p[53..65][i - 53];
        }
      }
    }

    /** `sendAuxFrame`: the AUX frame with the next AUX sequence number. */
    method SendAuxFrame() returns (sent: seq<byte>)
      requires Valid()
      modifies this`auxSeq
      ensures sent == Frame(TYPE_AUX, old(auxSeq), AuxPayload(Aux(), activeBands))
      ensures auxSeq == NextSeq(old(auxSeq))
    {
      var payload := FillAuxPayload(Aux(), activeBands);
      var frame := new byte[AUX_PAYLOAD_LEN as int + OVERHEAD];
      var ok, frameLen := EncodeFrame(TYPE_AUX, auxSeq, payload[..], frame, frame.Length, 0);
      auxSeq := NextSeq(auxSeq);
      sent := frame[..frameLen];
    }

    /** The AUX payload array, filled field by field. */
    static method FillAuxPayload(a: AuxFields, activeBands: int) returns (payload: array<byte>)
      requires AuxFieldsOk(a)
      ensures fresh(payload) && payload[..] == AuxPayload(a, activeBands)
    {
      payload := new byte[AUX_PAYLOAD_LEN](_ => 0);
      CopyInto(payload, 0, a.bandVis);
      CopyInto(payload, 12, a.bandDelta);
      assert payload[..24] == a.bandVis + a.bandDelta;
      WriteAuxScalars(payload, a, activeBands);
      assert payload[..] == payload[..24] + payload[24..];
    }

    /** Bytes 24..35 of the AUX payload, written one by one after the two band arrays. */
    static method WriteAuxScalars(payload: array<byte>, a: AuxFields, activeBands: int)
      requires AuxFieldsOk(a) && payload.Length == AUX_PAYLOAD_LEN as int
      requires payload[34] == 0 && payload[35] == 0
      modifies payload
      ensures payload[..24] == old(payload[..24])
      ensures payload[24..] == AuxScalars(a, activeBands)
    {
      var lo, hi := a.majorPeakHz % 256, (a.majorPeakHz / 256) % 256;
      var bands := ToByte(activeBands);
      payload[24] := a.globalVis;
      payload[25] := a.bassVis;
      payload[26] := a.midVis;
      payload[27] := a.trebleVis;
      payload[28] := lo;
      payload[29] := hi;
      payload[30] := a.majorPeakMag;
      payload[31] := a.spectralFlux;
      payload[32] := a.peakDetected;
      payload[33] := bands;
    }

    /** `calculatePeakData`'s frequency estimate; the magnitude byte is float arithmetic and stays as it is. */
    method CalculatePeakData(mags: array<real>)
      requires Valid() && mags.Length == Peak.FFT_BINS
      modifies this`majorPeakHz
      ensures Valid() && majorPeakHz == Peak.MajorPeakHz(mags[..])
    {
      majorPeakHz := Peak.CalculateMajorPeakHz(mags);
    }

    /**
     * `forwardESP32Commands`, after `readBytesUntil` has stored `len` bytes
     * of a line in the 64-byte stack buffer `command` (whose other bytes are
     * whatever the stack held): terminate, trim one carriage return, parse
     * (with the step past the mode at teensy_fft/src/main.cpp:719 corrected,
     * as `ParseCommand` does), update the band state for mode 'M', and send
     * the CMD frame with the next command sequence number. The caller's
     * `frameLen` starts at 0.
     */
    method ForwardEsp32Commands(command: array<char>, len: nat) returns (cmd: Command, sent: seq<byte>)
      requires Valid() && command.Length == COMMAND_CAPACITY && len < COMMAND_CAPACITY
      modifies this`currentPattern, this`activeBands, this`globalVisAvg, this`cmdSeq, command
      modifies smoothedBandAmplitude, lastCalibratedEnergy, bandVisFft, bandVis8, bandDelta8
      ensures Valid()
      ensures command[..] == CommandBuffer(old(command[..len]), old(command[len + 1..]))
      ensures cmd == ParseCommand(command[..])
      ensures sent == Frame(TYPE_CMD, old(cmdSeq), CommandPayload(CharByte(cmd.mode), cmd.pattern, cmd.brightness))
      ensures cmdSeq == NextSeq(old(cmdSeq))
      ensures activeBands == (if cmd.mode == 'M' then BANDS_12 else old(activeBands))
      ensures currentPattern == (if cmd.mode == 'M' then cmd.pattern else old(currentPattern))
      ensures cmd.mode == 'M' && old(activeBands) != BANDS_12 ==> BandsCleared()
      ensures !(cmd.mode == 'M' && old(activeBands) != BANDS_12) ==> BandsUnchanged()
    {
      cmd := ReadCommand(command, len);
      ApplyBandConfig(cmd);
      sent := SendCommandFrame(cmd);
    }

    /** The line terminated in place and parsed. */
    static method ReadCommand(command: array<char>, len: nat) returns (cmd: Command)
      requires command.Length == COMMAND_CAPACITY && len < COMMAND_CAPACITY
      modifies command
      ensures command[..] == CommandBuffer(old(command[..len]), old(command[len + 1..]))
      ensures cmd == ParseCommand(command[..])
    {
      TerminateLine(command, len);
      cmd := ParseCommandBuffer(command);
    }

    /** The CMD frame of a parsed command, sent with the next command sequence number. */
    method SendCommandFrame(cmd: Command) returns (sent: seq<byte>)
      requires Valid()
      modifies this`cmdSeq
      ensures Valid()
      ensures sent == Frame(TYPE_CMD, old(cmdSeq), CommandPayload(CharByte(cmd.mode), cmd.pattern, cmd.brightness))
      ensures cmdSeq == NextSeq(old(cmdSeq))
    {
      var payload := FillCommandPayload(cmd);
      var frame := new byte[LARGEST_FRAME];
      var ok, frameLen := EncodeFrame(TYPE_CMD, cmdSeq, payload[..], frame, frame.Length, 0);
      cmdSeq := NextSeq(cmdSeq);
      sent := frame[..frameLen];
    }

    /** `command[len] = '\0'` and the trailing carriage-return trim. */
    static method TerminateLine(command: array<char>, len: nat)
      requires command.Length == COMMAND_CAPACITY && len < COMMAND_CAPACITY
      modifies command
      ensures command[..] == CommandBuffer(old(command[..len]), old(command[len + 1..]))
    {
      ghost var line, stale := command[..len], command[len + 1..];
      assert command[..] == line + [command[len]] + stale;
      command[len] := NUL;
      var n := len;
      if n > 0 && command[n - 1] == '\r' {
        command[n - 1] := NUL;
        n := n - 1;
      }
    }

    /** The CMD payload array: mode, pattern twice, brightness, zeros. */
    static method FillCommandPayload(cmd: Command) returns (payload: array<byte>)
      ensures fresh(payload) && payload[..] == CommandPayload(CharByte(cmd.mode), cmd.pattern, cmd.brightness)
    {
      payload := new byte[CMD_PAYLOAD_LEN](_ => 0);
      payload[0] := CharByte(cmd.mode);
      payload[1] := ToByte(cmd.pattern);
      payload[2] := ToByte(cmd.pattern);
      payload[3] := ToByte(cmd.brightness);
    }

    /** Mode 'M' selects the pattern and twelve bands; a change of band count clears the band state. */
    method ApplyBandConfig(cmd: Command)
      requires Valid()
      modifies this`currentPattern, this`activeBands, this`globalVisAvg
      modifies smoothedBandAmplitude, lastCalibratedEnergy, bandVisFft, bandVis8, bandDelta8
      ensures Valid()
      ensures activeBands == (if cmd.mode == 'M' then BANDS_12 else old(activeBands))
      ensures currentPattern == (if cmd.mode == 'M' then cmd.pattern else old(currentPattern))
      ensures cmd.mode == 'M' && old(activeBands) != BANDS_12 ==> BandsCleared()
      ensures !(cmd.mode == 'M' && old(activeBands) != BANDS_12) ==> BandsUnchanged()
    {
      if cmd.mode == 'M' {
        currentPattern := cmd.pattern;
        var newBands := BANDS_12;
        if newBands != activeBands {
          activeBands := newBands;
          ClearBands();
        }
      }
    }

    /** Every band array is zero and the visual average is 0. */
    ghost predicate BandsCleared()
      reads this, smoothedBandAmplitude, lastCalibratedEnergy, bandVisFft, bandVis8, bandDelta8
    {
      && smoothedBandAmplitude[..] == seq(MAX_BANDS, _ => 0.0)
      && lastCalibratedEnergy[..] == seq(MAX_BANDS, _ => 0.0)
      && bandVisFft[..] == seq(MAX_BANDS, _ => 0.0)
      && bandVis8[..] == Zeros(MAX_BANDS)
      && bandDelta8[..] == Zeros(MAX_BANDS)
      && globalVisAvg == 0.0
    }

    /** The band arrays and the visual average are as they were. */
    twostate predicate BandsUnchanged()
      reads this, smoothedBandAmplitude, lastCalibratedEnergy, bandVisFft, bandVis8, bandDelta8
    {
      && smoothedBandAmplitude[..] == old(smoothedBandAmplitude[..])
      && lastCalibratedEnergy[..] == old(lastCalibratedEnergy[..])
      && bandVisFft[..] == old(bandVisFft[..])
      && bandVis8[..] == old(bandVis8[..])
      && bandDelta8[..] == old(bandDelta8[..])
      && globalVisAvg == old(globalVisAvg)
    }

    /** The reset loop of a band-count change. */
    method ClearBands()
      requires Valid()
      modifies this`globalVisAvg, smoothedBandAmplitude, lastCalibratedEnergy, bandVisFft, bandVis8, bandDelta8
      ensures Valid() && BandsCleared()
    {
      var i := 0;
      while i < MAX_BANDS
        invariant 0 <= i <= MAX_BANDS
        invariant forall j :: 0 <= j < i ==> smoothedBandAmplitude[j] == 0.0 && lastCalibratedEnergy[j] == 0.0
        invariant forall j :: 0 <= j < i ==> bandVisFft[j] == 0.0 && bandVis8[j] == 0 && bandDelta8[j] == 0
      {
        smoothedBandAmplitude[i] := 0.0;
        lastCalibratedEnergy[i] := 0.0;
        bandVisFft[i] := 0.0;
        bandVis8[i] := 0;
        bandDelta8[i] := 0;
        i := i + 1;
      }
      globalVisAvg := 0.0;
    }
  }
}
