/**
 * The LED device's control state: the current mode, pattern and brightness,
 * the settings remembered per mode (`switchToMode`,
 * `saveCurrentModeSettings`), the CMD payload that drives them
 * (`applyCommandPayload`), and the dispatch of accepted frames in
 * `processSerialData`.
 */
module LedControl {
  import opened Bytes
  import opened Framing
  import opened Payloads
  import opened Decoder
  import UsbCommands

  /** The pattern and brightness remembered for one mode. */
  datatype ModeSettings = ModeSettings(pattern: int, brightness: int)

  /** The brightness an unknown mode gets when none is given. */
  const UNKNOWN_MODE_BRIGHTNESS: int := 100

  /** `state` and the three remembered settings. */
  datatype Control = Control(
    mode: char,
    pattern: int,
    brightness: int,
    savedMusic: ModeSettings,
    savedSolid: ModeSettings,
    savedPattern: ModeSettings)

  /** Solid colour 0 at brightness 10; every mode remembers pattern 0 at brightness 10. */
  function InitialControl(): Control
  {
    Control('S', 0, 10, ModeSettings(0, 10), ModeSettings(0, 10), ModeSettings(0, 10))
  }

  /** The modes that remember their settings: music, solid and pattern. */
  predicate Remembers(m: char)
  {
    m == 'M' || m == 'S' || m == 'P'
  }

  /** The remembered settings of a mode. */
  function Saved(c: Control, m: char): ModeSettings
    requires Remembers(m)
  {
    if m == 'M' then c.savedMusic else if m == 'S' then c.savedSolid else c.savedPattern
  }

  /** `saveCurrentModeSettings`: the current pattern and brightness go to the current mode's slot, if it has one. */
  function SaveCurrent(c: Control): Control
  {
    var current := ModeSettings(c.pattern, c.brightness);
    if c.mode == 'M' then c.(savedMusic := current)
    else if c.mode == 'S' then c.(savedSolid := current)
    else if c.mode == 'P' then c.(savedPattern := current)
    else c
  }

  /** A given value when it is not negative, the fallback otherwise. */
  function Pick(given: int, fallback: int): int
  {
    if given >= 0 then given else fallback
  }

  /**
   * `switchToMode`: save the outgoing mode's settings, then take the given
   * pattern and brightness, falling back to the new mode's remembered ones
   * when negative; 'Off' sets pattern 0 and keeps the brightness; an unknown
   * mode falls back to pattern 0 and brightness 100.
   */
  function SwitchTo(c: Control, newMode: char, pattern: int, brightness: int): Control
  {
    var s := SaveCurrent(c);
    if Remembers(newMode) then
      var saved := Saved(s, newMode);
      s.(mode := newMode, pattern := Pick(pattern, saved.pattern), brightness := Pick(brightness, saved.brightness))
    else if newMode == '0' then
      s.(mode := newMode, pattern := 0)
    else
      s.(mode := newMode, pattern := Pick(pattern, 0), brightness := Pick(brightness, UNKNOWN_MODE_BRIGHTNESS))
  }

  /**
   * Switching always lands in the new mode; it remembers the outgoing
   * mode's settings and leaves every other mode's remembered settings alone.
   */
  lemma SwitchRemembersOutgoing(c: Control, newMode: char, pattern: int, brightness: int)
    ensures var d := SwitchTo(c, newMode, pattern, brightness);
      && d.mode == newMode
      && (Remembers(c.mode) ==> Saved(d, c.mode) == ModeSettings(c.pattern, c.brightness))
      && (forall m :: Remembers(m) && m != c.mode ==> Saved(d, m) == Saved(c, m))
  {
  }

  /** Non-negative values are taken as given in every mode but 'Off'. */
  lemma SwitchTakesGivenValues(c: Control, newMode: char, pattern: int, brightness: int)
    requires newMode != '0' && pattern >= 0 && brightness >= 0
    ensures var d := SwitchTo(c, newMode, pattern, brightness);
      d.pattern == pattern && d.brightness == brightness
  {
  }

  /** Negative values restore what the new mode remembered, counting the settings just saved. */
  lemma SwitchRestoresRemembered(c: Control, newMode: char)
    requires Remembers(newMode)
    ensures var d := SwitchTo(c, newMode, -1, -1);
      ModeSettings(d.pattern, d.brightness) == Saved(SaveCurrent(c), newMode)
  {
  }

  /** 'Off' shows pattern 0 and keeps the brightness for when a mode comes back. */
  lemma OffKeepsBrightness(c: Control, pattern: int, brightness: int)
    ensures var d := SwitchTo(c, '0', pattern, brightness);
      d.mode == '0' && d.pattern == 0 && d.brightness == c.brightness
  {
  }

  /**
   * Leaving a remembering mode for a different one and coming back with
   * negative values restores exactly the settings it was left with,
   * whatever the other mode did.
   */
  lemma AwayAndBack(c: Control, other: char, pattern: int, brightness: int)
    requires Remembers(c.mode) && other != c.mode
    ensures var back := SwitchTo(SwitchTo(c, other, pattern, brightness), c.mode, -1, -1);
      back.mode == c.mode && back.pattern == c.pattern && back.brightness == c.brightness
  {
    var d := SwitchTo(c, other, pattern, brightness);
    SwitchRemembersOutgoing(c, other, pattern, brightness);
    SwitchRemembersOutgoing(d, c.mode, -1, -1);
    assert Saved(SaveCurrent(d), c.mode) == Saved(d, c.mode);
  }

  /**
   * A CMD payload carries bytes, which are never negative: the remembered
   * settings are never restored through `applyCommandPayload`, and outside
   * 'Off' the payload's pattern and brightness are what the display shows.
   */
  lemma PayloadValuesAlwaysTaken(c: Control, payload: seq<byte>)
    requires |payload| >= 4 && payload[0] != '0' as int
    ensures var d := SwitchTo(c, payload[0] as char, payload[1], payload[3]);
      d.pattern == payload[1] && d.brightness == payload[3]
  {
  }

  /** An accepted FFT frame of the fixed length. */
  predicate IsFftFrame(ev: Event)
  {
    ev.Accepted? && ev.kind == TYPE_FFT && |ev.payload| == FFT_PAYLOAD_LEN as int
  }

  /** An accepted AUX frame of its length. */
  predicate IsAuxFrame(ev: Event)
  {
    ev.Accepted? && ev.kind == TYPE_AUX && |ev.payload| == AUX_PAYLOAD_LEN as int
  }

  /** An accepted CMD frame of the fixed length. */
  predicate IsCommand(ev: Event)
  {
    ev.Accepted? && ev.kind == TYPE_CMD && |ev.payload| == CMD_PAYLOAD_LEN as int
  }

  /** `applyCommandPayload`: mode from byte 0, pattern from byte 1, brightness from byte 3. */
  function ApplyPayload(c: Control, payload: seq<byte>): Control
    requires |payload| >= 4
  {
    var f := DecodeCommand(payload);
    SwitchTo(c, f.mode as char, f.pattern, f.brightness)
  }

  /** The control state after the CMD frames among some events, in order. */
  function ControlAfter(c: Control, events: seq<Event>): Control
  {
    if |events| == 0 then c
    else
      var prev := ControlAfter(c, events[..|events| - 1]);
      var ev := events[|events| - 1];
      if IsCommand(ev) then ApplyPayload(prev, ev.payload) else prev
  }

  /** Events other than CMD frames leave the control state alone. */
  lemma {:induction false} ControlAfterIgnoresOthers(c: Control, events: seq<Event>)
    requires forall i :: 0 <= i < |events| ==> !IsCommand(events[i])
    ensures ControlAfter(c, events) == c
  {
    if |events| > 0 {
      ControlAfterIgnoresOthers(c, events[..|events| - 1]);
    }
  }

  /** Whether some element satisfies `p`, folded from the last element. */
  predicate Any<T>(xs: seq<T>, p: T -> bool)
  {
    |xs| > 0 && (Any(xs[..|xs| - 1], p) || p(xs[|xs| - 1]))
  }

  /** The fold agrees with the existential. */
  lemma {:induction false} AnySome<T>(xs: seq<T>, p: T -> bool)
    ensures Any(xs, p) <==> exists j :: 0 <= j < |xs| && p(xs[j])
  {
    if |xs| > 0 {
      var n := |xs| - 1;
      AnySome(xs[..n], p);
      if exists j :: 0 <= j < |xs| && p(xs[j]) {
        var j :| 0 <= j < |xs| && p(xs[j]);
        if j < n {
          assert xs[..n][j] == xs[j];
        }
      }
      if exists j :: 0 <= j < n && p(xs[..n][j]) {
        var j :| 0 <= j < n && p(xs[..n][j]);
        assert xs[..n][j] == xs[j];
      }
    }
  }

  /** Whether `parseUsbCommandLine` applies a line as a CMD payload. */
  predicate Applied(line: seq<char>)
  {
    UsbCommands.UsbPayload(line).Some?
  }

  /** Whether `parseUsbCommandLine` applies any of the lines. */
  predicate AnyApplied(lines: seq<seq<char>>)
  {
    Any(lines, Applied)
  }

  /** Some line is applied exactly when one of them yields a payload. */
  lemma AnyAppliedSome(lines: seq<seq<char>>)
    ensures AnyApplied(lines) <==> exists j :: 0 <= j < |lines| && Applied(lines[j])
  {
    AnySome(lines, Applied);
  }

  /**
   * The globals the dispatch fills besides the control state: the data of
   * the last FFT frame with `currentBandCount` and `lastPacketTime`, the data
   * of the last AUX frame with `lastAuxPacketMs`, and `serialDataPending`.
   */
  datatype Received = Received(
    fft: FftFields,
    bandCount: int,
    lastPacketTime: u32,
    aux: AuxFields,
    lastAuxPacketMs: u32,
    pending: bool)

  /**
   * What one accepted frame does to those globals: an FFT frame stores its
   * fields, sets the band count back to 12 and stamps `lastPacketTime`; a CMD
   * frame goes through `switchToMode`, which raises `serialDataPending`; an
   * AUX frame stores its fields and stamps `lastAuxPacketMs`; anything else
   * leaves them alone.
   */
  function Receive(r: Received, ev: Event, nowMs: u32): Received
  {
    if IsFftFrame(ev) then r.(fft := DecodeFft(ev.payload), bandCount := 12, lastPacketTime := nowMs)
    else if IsCommand(ev) then r.(pending := true)
    else if IsAuxFrame(ev) then r.(aux := DecodeAux(ev.payload), lastAuxPacketMs := nowMs)
    else r
  }

  /** Those globals after some events, in order. */
  function ReceivedAfter(r: Received, events: seq<Event>, nowMs: u32): Received
  {
    if |events| == 0 then r
    else Receive(ReceivedAfter(r, events[..|events| - 1], nowMs), events[|events| - 1], nowMs)
  }

  /**
   * After a burst, the FFT globals hold the fields of its last FFT frame,
   * with the band count at 12 and the arrival time stamped.
   */
  lemma {:induction false} LastFftFrameStored(r: Received, events: seq<Event>, nowMs: u32, k: nat)
    requires k < |events| && IsFftFrame(events[k])
    requires forall j :: k < j < |events| ==> !IsFftFrame(events[j])
    ensures var d := ReceivedAfter(r, events, nowMs);
      d.fft == DecodeFft(events[k].payload) && d.bandCount == 12 && d.lastPacketTime == nowMs
  {
    var n := |events| - 1;
    if k < n {
      LastFftFrameStored(r, events[..n], nowMs, k);
    }
  }

  /** A burst without FFT frames leaves the FFT globals, the band count and their stamp alone. */
  lemma {:induction false} NoFftFrameKeepsFft(r: Received, events: seq<Event>, nowMs: u32)
    requires forall i :: 0 <= i < |events| ==> !IsFftFrame(events[i])
    ensures var d := ReceivedAfter(r, events, nowMs);
      d.fft == r.fft && d.bandCount == r.bandCount && d.lastPacketTime == r.lastPacketTime
  {
    if |events| > 0 {
      NoFftFrameKeepsFft(r, events[..|events| - 1], nowMs);
    }
  }

  /** After a burst, the AUX globals hold the fields of its last AUX frame, stamped. */
  lemma {:induction false} LastAuxFrameStored(r: Received, events: seq<Event>, nowMs: u32, k: nat)
    requires k < |events| && IsAuxFrame(events[k])
    requires forall j :: k < j < |events| ==> !IsAuxFrame(events[j])
    ensures var d := ReceivedAfter(r, events, nowMs);
      d.aux == DecodeAux(events[k].payload) && d.lastAuxPacketMs == nowMs
  {
    var n := |events| - 1;
    if k < n {
      LastAuxFrameStored(r, events[..n], nowMs, k);
    }
  }

  /** A burst without AUX frames leaves the AUX globals and their stamp alone. */
  lemma {:induction false} NoAuxFrameKeepsAux(r: Received, events: seq<Event>, nowMs: u32)
    requires forall i :: 0 <= i < |events| ==> !IsAuxFrame(events[i])
    ensures var d := ReceivedAfter(r, events, nowMs);
      d.aux == r.aux && d.lastAuxPacketMs == r.lastAuxPacketMs
  {
    if |events| > 0 {
      NoAuxFrameKeepsAux(r, events[..|events| - 1], nowMs);
    }
  }

  /** `serialDataPending` is raised by a burst exactly when it delivers a CMD frame, and never lowered. */
  lemma {:induction false} PendingAfterBurst(r: Received, events: seq<Event>, nowMs: u32)
    ensures ReceivedAfter(r, events, nowMs).pending
      <==> r.pending || exists i :: 0 <= i < |events| && IsCommand(events[i])
  {
    if |events| > 0 {
      var n := |events| - 1;
      PendingAfterBurst(r, events[..n], nowMs);
      if exists i :: 0 <= i < |events| && IsCommand(events[i]) {
        var i :| 0 <= i < |events| && IsCommand(events[i]);
        if i < n {
          assert IsCommand(events[..n][i]);
        }
      }
      if exists i :: 0 <= i < n && IsCommand(events[..n][i]) {
        var i :| 0 <= i < n && IsCommand(events[..n][i]);
        assert IsCommand(events[i]);
      }
    }
  }

  /** The control state after `parseUsbCommandLine` on some lines, in order. */
  function UsbControlAfter(c: Control, lines: seq<seq<char>>): Control
  {
    if |lines| == 0 then c
    else
      var prev := UsbControlAfter(c, lines[..|lines| - 1]);
      var payload := UsbCommands.UsbPayload(lines[|lines| - 1]);
      if payload.Some? then ApplyPayload(prev, payload.value) else prev
  }

  /**
   * The LED device's globals: the control state, the data the last FFT and
   * AUX frames carried, and the time they arrived.
   */
  class LedController {
    var mode: char
    var pattern: int
    var brightness: int
    var savedMusic: ModeSettings
    var savedSolid: ModeSettings
    var savedPattern: ModeSettings
    var serialDataPending: bool

    /**
     * The globals the FFT branch fills (`bandAmplitude` as its 48 bytes,
     * the vocal bytes, `spdifLock`, `chroma`, the pitch and `vocalSustain`),
     * held as the record they were packed from.
     */
    var fft: FftFields
    var currentBandCount: int
    var lastPacketTime: u32

    /** The globals the AUX branch fills. */
    var aux: AuxFields
    var lastAuxPacketMs: u32

    function State(): Control
      reads this
    {
      Control(mode, pattern, brightness, savedMusic, savedSolid, savedPattern)
    }

    function Data(): Received
      reads this
    {
      Received(fft, currentBandCount, lastPacketTime, aux, lastAuxPacketMs, serialDataPending)
    }

    /** The power-on globals. */
    constructor ()
      ensures State() == InitialControl() && !serialDataPending
      ensures FftFieldsOk(fft) && fft.vocalNote == 255 && fft.dominantPitch == 255
      ensures AuxFieldsOk(aux) && currentBandCount == 12
    {
      mode, pattern, brightness := 'S', 0, 10;
      savedMusic, savedSolid, savedPattern := ModeSettings(0, 10), ModeSettings(0, 10), ModeSettings(0, 10);
      serialDataPending := false;
      fft := FftFields(Zeros(BAND_BLOCK_LEN), 0, 0, 255, 0, 0, Zeros(PITCH_CLASSES), 255, 0, 0);
      currentBandCount := 12;
      lastPacketTime := 0;
      aux := AuxFields(Zeros(VIS_BANDS), Zeros(VIS_BANDS), 0, 0, 0, 0, 0, 0, 0, 0);
      lastAuxPacketMs := 0;
    }

    /** `saveCurrentModeSettings`. */
    method SaveCurrentModeSettings()
      modifies this`savedMusic, this`savedSolid, this`savedPattern
      ensures State() == SaveCurrent(old(State()))
    {
      if mode == 'M' {
        savedMusic := ModeSettings(pattern, brightness);
      } else if mode == 'S' {
        savedSolid := ModeSettings(pattern, brightness);
      } else if mode == 'P' {
        savedPattern := ModeSettings(pattern, brightness);
      }
    }

    /** `switchToMode`; it always raises `serialDataPending`. */
    method SwitchToMode(newMode: char, newPattern: int, newBrightness: int)
      modifies this`mode, this`pattern, this`brightness, this`savedMusic, this`savedSolid, this`savedPattern
      modifies this`serialDataPending
      ensures State() == SwitchTo(old(State()), newMode, newPattern, newBrightness)
      ensures serialDataPending
    {
      SaveCurrentModeSettings();
      mode := newMode;
      if newMode == 'M' {
        pattern := if newPattern >= 0 then newPattern else savedMusic.pattern;
        brightness := if newBrightness >= 0 then newBrightness else savedMusic.brightness;
      } else if newMode == 'S' {
        pattern := if newPattern >= 0 then newPattern else savedSolid.pattern;
        brightness := if newBrightness >= 0 then newBrightness else savedSolid.brightness;
      } else if newMode == 'P' {
        pattern := if newPattern >= 0 then newPattern else savedPattern.pattern;
        brightness := if newBrightness >= 0 then newBrightness else savedPattern.brightness;
      } else if newMode == '0' {
        pattern := 0;
      } else {
        pattern := if newPattern >= 0 then newPattern else 0;
        brightness := if newBrightness >= 0 then newBrightness else UNKNOWN_MODE_BRIGHTNESS;
      }
      serialDataPending := true;
    }

    /** `applyCommandPayload`: only bytes 0, 1 and 3 are read. */
    method ApplyCommandPayload(payload: seq<byte>)
      requires |payload| >= 4
      modifies this`mode, this`pattern, this`brightness, this`savedMusic, this`savedSolid, this`savedPattern
      modifies this`serialDataPending
      ensures State() == ApplyPayload(old(State()), payload)
      ensures serialDataPending
    {
      var newMode := payload[0] as char;
      var newPattern := payload[1];
      var newBrightness := payload[3];
      SwitchToMode(newMode, newPattern, newBrightness);
    }

    /** The FFT branch of the dispatch: every field at its offset, the band count back to 12, the arrival time. */
    method StoreFft(payload: seq<byte>, nowMs: u32)
      requires |payload| == FFT_PAYLOAD_LEN as int
      modifies this`fft, this`currentBandCount, this`lastPacketTime
      ensures fft == DecodeFft(payload) && currentBandCount == 12 && lastPacketTime == nowMs
    {
      currentBandCount := 12;
      fft := FftFields(payload[..48], payload[48], payload[49], payload[50], payload[51], payload[52],
                       payload[53..65], payload[65], payload[66], payload[67]);
      lastPacketTime := nowMs;
    }

    /** The AUX branch of the dispatch: `majorPeakHz = p[28] | p[29] << 8`; byte 33 is not read. */
    method StoreAux(payload: seq<byte>, nowMs: u32)
      requires |payload| == AUX_PAYLOAD_LEN as int
      modifies this`aux, this`lastAuxPacketMs
      ensures aux == DecodeAux(payload) && lastAuxPacketMs == nowMs
    {
      var majorPeakHz := payload[28] as int + 256 * payload[29] as int;
      aux := AuxFields(payload[..12], payload[12..24], payload[24], payload[25], payload[26], payload[27],
                       majorPeakHz, payload[30], payload[31], payload[32]);
      lastAuxPacketMs := nowMs;
    }

    /** What an accepted frame does, by type and length; any other accepted frame is dropped. */
    method Dispatch(ev: Event, nowMs: u32)
      modifies this
      ensures State() == if IsCommand(ev) then ApplyPayload(old(State()), ev.payload) else old(State())
      ensures Data() == Receive(old(Data()), ev, nowMs)
    {
      if IsFftFrame(ev) {
        StoreFft(ev.payload, nowMs);
      } else if IsCommand(ev) {
        ApplyCommandPayload(ev.payload);
      } else if IsAuxFrame(ev) {
        StoreAux(ev.payload, nowMs);
      }
    }

    /**
     * `processSerialData`: receive the available bytes and dispatch every
     * accepted frame in arrival order. The receiver never reads the control
     * state, so dispatching after the receive loop is the same as
     * dispatching inside it.
     */
    method ProcessSerialData(rx: SerialReceiver, input: seq<byte>, nowMs: u32) returns (events: seq<Event>)
      requires rx.Valid()
      modifies this, rx, rx.rxBuffer
      ensures rx.Valid()
      ensures (rx.Contents(), events) == Run(AfterStaleCheck(old(rx.Contents()), old(rx.lastByteMs), nowMs), input)
      ensures rx.crcErrors == old(rx.crcErrors) + CrcDrops(events)
      ensures rx.lastByteMs == if |input| > 0 then nowMs else old(rx.lastByteMs)
      ensures State() == ControlAfter(old(State()), events)
      ensures Data() == ReceivedAfter(old(Data()), events, nowMs)
    {
      events := rx.ProcessSerialData(input, nowMs);
      DispatchAll(events, nowMs);
    }

    /** The dispatch of each accepted frame, in arrival order. */
    method DispatchAll(events: seq<Event>, nowMs: u32)
      modifies this
      ensures State() == ControlAfter(old(State()), events)
      ensures Data() == ReceivedAfter(old(Data()), events, nowMs)
    {
      var i := 0;
      while i < |events|
        invariant 0 <= i <= |events|
        invariant State() == ControlAfter(old(State()), events[..i])
        invariant Data() == ReceivedAfter(old(Data()), events[..i], nowMs)
      {
        assert events[..i + 1][..i] == events[..i];
        Dispatch(events[i], nowMs);
        i := i + 1;
      }
      assert events[..i] == events;
    }

    /**
     * `parseUsbCommandLine`: a well-formed line with a known mode becomes a
     * CMD payload and is applied; fire tuning lines, lines that do not scan
     * and unknown modes change nothing here.
     */
    method ParseUsbCommandLine(line: seq<char>)
      modifies this`mode, this`pattern, this`brightness, this`savedMusic, this`savedSolid, this`savedPattern
      modifies this`serialDataPending
      ensures UsbCommands.UsbPayload(line).None? ==> State() == old(State()) && serialDataPending == old(serialDataPending)
      ensures UsbCommands.UsbPayload(line).Some? ==> State() == ApplyPayload(old(State()), UsbCommands.UsbPayload(line).value)
      ensures UsbCommands.UsbPayload(line).Some? ==> serialDataPending
    {
      var payload := UsbCommands.UsbPayload(line);
      if payload.Some? {
        ApplyCommandPayload(payload.value);
      }
    }
  
    /** The parse loop of `processUsbSerialCommands`: every completed line, in order. */
    method ParseUsbLines(lines: seq<seq<char>>)
      modifies this`mode, this`pattern, this`brightness, this`savedMusic, this`savedSolid, this`savedPattern
      modifies this`serialDataPending
      ensures State() == UsbControlAfter(old(State()), lines)
      ensures serialDataPending == (old(serialDataPending) || AnyApplied(lines))
    {
      var i := 0;
      while i < |lines|
        invariant 0 <= i <= |lines|
        invariant State() == UsbControlAfter(old(State()), lines[..i])
        invariant serialDataPending == (old(serialDataPending) || AnyApplied(lines[..i]))
      {
        assert lines[..i + 1][..i] == lines[..i];
        ParseUsbCommandLine(lines[i]);
        i := i + 1;
      }
      assert lines[..i] == lines;
    }

    /** `processUsbSerialCommands`: read the characters, then parse every completed line in order. */
    method ProcessUsbSerialCommands(reader: UsbCommands.UsbLineReader, input: seq<char>, now: u32) returns (lines: seq<seq<char>>)
      requires reader.Valid()
      modifies this`mode, this`pattern, this`brightness, this`savedMusic, this`savedSolid, this`savedPattern
      modifies this`serialDataPending, reader, reader.line
      ensures reader.Valid()
      ensures (reader.Pending(), lines) == UsbCommands.UsbPoll(old(reader.Pending()), old(reader.lastByteMs), input, now)
      ensures reader.lastByteMs == if |input| > 0 then now else old(reader.lastByteMs)
      ensures State() == UsbControlAfter(old(State()), lines)
      ensures Data() == old(Data()).(pending := old(serialDataPending) || AnyApplied(lines))
    {
      lines := reader.ReadLines(input, now);
      ParseUsbLines(lines);
    }
  }
}
