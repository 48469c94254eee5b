/**
 * The command path across the three devices: a remote button on the ESP32
 * master, the line it sends, the FFT device's parser and the CMD frame it
 * forwards, the LED device's receiver, and the mode switch that results.
 */
module EndToEnd {
  import opened Bytes
  import opened Framing
  import opened Payloads
  import opened Decoder
  import opened CommandLine
  import opened LedControl
  import opened IrRemote

  /** The line the master sends, without its newline, as the FFT device's buffer holds it. */
  function SentText(r: Remote): (t: seq<char>)
    ensures |t| < COMMAND_CAPACITY
  {
    var t := CommandText(r.mode, r.colorIndex, r.brightness, r.param3);
    CommandTextBounded(r.mode, r.colorIndex, r.brightness, r.param3);
    t
  }

  /** Three numbers of at most three digits and four more characters. */
  lemma CommandTextBounded(mode: char, v1: byte, v2: byte, v3: byte)
    ensures |CommandText(mode, v1, v2, v3)| <= 13
  {
    DecimalShort(v1);
    DecimalShort(v2);
    DecimalShort(v3);
  }

  /** A byte prints in at most three digits. */
  lemma DecimalShort(n: byte)
    ensures |Text.Decimal(n)| <= 3
  {
    if n >= 10 {
      DecimalShort(n / 10);
    }
  }

  /**
   * A button that sends a line reaches the LEDs: the FFT device parses the
   * line, whatever stale characters its buffer holds, into the sent mode,
   * colour index and brightness; the CMD frame it forwards is delivered by
   * the LED device's receiver as exactly one accepted frame; and the LED
   * device switches to that mode with that pattern and brightness.
   */
  lemma RemoteButtonReachesLeds(r: Remote, command: u32, now: u32, stale: seq<char>, seqNo: byte, c: Control)
    requires RemoteOk(r)
    requires HandleIr(r, command, now).1.Some?
    requires |SentText(HandleIr(r, command, now).0)| + 1 + |stale| == COMMAND_CAPACITY
    ensures var s := HandleIr(r, command, now).0;
      var cmd := ParseCommand(CommandBuffer(SentText(s), stale));
      var payload := CommandPayload(CharByte(cmd.mode), cmd.pattern, cmd.brightness);
      var events := Run([], Frame(TYPE_CMD, seqNo, payload)).1;
      && cmd == Command(s.mode, s.colorIndex, s.brightness)
      && events[|events| - 1] == Accepted(TYPE_CMD, seqNo, payload)
      && ControlAfter(c, events) == SwitchTo(c, s.mode, s.colorIndex, s.brightness)
  {
    var s := HandleIr(r, command, now).0;
    HandleIrKeepsRemoteOk(r, command, now);
    SentCommandParsed(s.mode, s.colorIndex, s.brightness, s.param3, stale);
    var cmd := ParseCommand(CommandBuffer(SentText(s), stale));
    var payload := CommandPayload(CharByte(cmd.mode), cmd.pattern, cmd.brightness);
    EncodedFrameDelivered(TYPE_CMD, seqNo, payload);
    var noise := Nothings(|payload| + OVERHEAD - 1);
    var events := noise + [Accepted(TYPE_CMD, seqNo, payload)];
    ControlAfterIgnoresOthers(c, noise);
    assert events[..|events| - 1] == noise;
    assert DecodeCommand(payload) == CommandFields(CharByte(s.mode), s.colorIndex, s.brightness);
  }
}
