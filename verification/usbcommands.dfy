/**
 * The LED device's USB command channel: `processUsbSerialCommands` gathers
 * characters into a 64-byte line, ends it at CR or LF or after an idle gap
 * once two commas have arrived, and `parseUsbCommandLine` turns a line of
 * the form " %c,%d,%d" with a known mode into a CMD payload.
 */
module UsbCommands {
  import opened Bytes
  import opened Text
  import opened Framing
  import opened Payloads

  /** `sizeof(line)`; one byte is kept for the terminating NUL. */
  const LINE_CAPACITY: nat := 64
  /** A line without a line end is parsed after this many quiet milliseconds. */
  const IDLE_FLUSH_MS: nat := 50

  predicate IsLineEnd(c: char)
  {
    c == '\n' || c == '\r'
  }

  /** The modes `parseUsbCommandLine` accepts. */
  predicate IsUsbMode(c: char)
  {
    c == '0' || c == 'S' || c == 'P' || c == 'M' || c == 'A'
  }

  /** A fire tuning line, which this model does not parse. */
  predicate IsFireLine(s: seq<char>)
  {
    |s| > 0 && (s[0] == 'F' || s[0] == 'f')
  }

  /**
   * `sscanf(line, " %c,%d,%d", ...) == 3`: skip white space, take one
   * character, a comma, an integer, a comma and an integer; anything after
   * the second integer is ignored.
   */
  function ScanUsb(s: seq<char>): Option<(char, int, int)>
  {
    var t := DropWhile(s, IsSpace);
    if |t| < 2 || t[1] != ',' then None
    else
      match ScanInt(t[2..])
      case None => None
      case Some(first) =>
        var rest := first.1;
        if |rest| == 0 || rest[0] != ',' then None
        else
          match ScanInt(rest[1..])
          case None => None
          case Some(second) => Some((t[0], first.0, second.0))
  }

  /** A zeroed CMD payload holding the mode at byte 0, the pattern at byte 1 and the brightness at byte 3, each cast to a byte. */
  function UsbPayloadOf(mode: char, p1: int, p3: int): (p: seq<byte>)
    ensures |p| == CMD_PAYLOAD_LEN as int
    ensures DecodeCommand(p) == CommandFields(CharByte(mode), ToByte(p1), ToByte(p3))
    ensures forall i :: 0 <= i < |p| && i != 0 && i != 1 && i != 3 ==> p[i] == 0
  {
    Zeros(CMD_PAYLOAD_LEN as int)[0 := CharByte(mode)][1 := ToByte(p1)][3 := ToByte(p3)]
  }

  /**
   * `parseUsbCommandLine` on the C string at `line`: the payload it applies,
   * or None for a fire tuning line, a line that does not scan, or an
   * unknown mode.
   */
  function UsbPayload(line: seq<char>): (r: Option<seq<byte>>)
    ensures r.Some? <==> var s := TakeWhile(line, IsNotNul);
      !IsFireLine(s) && ScanUsb(s).Some? && IsUsbMode(ScanUsb(s).value.0)
    ensures r.Some? ==> var c := ScanUsb(TakeWhile(line, IsNotNul)).value;
      r.value == UsbPayloadOf(c.0, c.1, c.2)
  {
    var s := TakeWhile(line, IsNotNul);
    if IsFireLine(s) then None
    else
      match ScanUsb(s)
      case None => None
      case Some(c) => if IsUsbMode(c.0) then Some(UsbPayloadOf(c.0, c.1, c.2)) else None
  }

  /** A string without NUL is its own C string. */
  lemma CStrOfNulFree(s: seq<char>)
    requires forall i :: 0 <= i < |s| ==> s[i] != NUL
    ensures TakeWhile(s, IsNotNul) == s
  {
    TakeWhileExact(s, IsNotNul, |s|);
    assert s[..|s|] == s;
  }

  /** The " %c,%d,%d" scan of "mode,pattern,brightness" followed by nothing or by a comma and more text. */
  lemma ScanUsbOfFields(mode: char, pattern: nat, brightness: nat, rest: seq<char>)
    requires !IsSpace(mode)
    requires rest == [] || rest[0] == ','
    ensures ScanUsb([mode, ','] + (Decimal(pattern) + ([','] + (Decimal(brightness) + rest))))
         == Some((mode, pattern, brightness))
  {
    var tail := Decimal(brightness) + rest;
    var after := [','] + tail;
    var body := Decimal(pattern) + after;
    var line := [mode, ','] + body;
    TakeWhileExact(line, IsSpace, 0);
    assert line[2..] == body;
    ScanIntDecimal(pattern, after);
    assert after[1..] == tail;
    ScanIntDecimal(brightness, rest);
  }

  /**
   * A line "mode,pattern,brightness" followed by nothing or by a comma and
   * more text yields the payload with that mode, pattern and brightness.
   */
  lemma UsbLineParsed(mode: char, pattern: nat, brightness: nat, rest: seq<char>)
    requires IsUsbMode(mode)
    requires rest == [] || rest[0] == ','
    requires forall i :: 0 <= i < |rest| ==> rest[i] != NUL
    ensures var line := [mode, ','] + (Decimal(pattern) + ([','] + (Decimal(brightness) + rest)));
      UsbPayload(line) == Some(UsbPayloadOf(mode, pattern, brightness))
  {
    var line := [mode, ','] + (Decimal(pattern) + ([','] + (Decimal(brightness) + rest)));
    FieldsNulFree(mode, pattern, brightness, rest);
    CStrOfNulFree(line);
    ScanUsbOfFields(mode, pattern, brightness, rest);
    UsbPayloadOfScan(line, mode, pattern, brightness);
  }

  /** A NUL-free line that starts with a known mode and scans is applied with the scanned values. */
  lemma UsbPayloadOfScan(line: seq<char>, mode: char, p1: int, p3: int)
    requires |line| > 0 && line[0] == mode && IsUsbMode(mode)
    requires TakeWhile(line, IsNotNul) == line
    requires ScanUsb(line) == Some((mode, p1, p3))
    ensures UsbPayload(line) == Some(UsbPayloadOf(mode, p1, p3))
  {
  }

  /** The printed fields hold no NUL, so the C string is the whole line. */
  lemma FieldsNulFree(mode: char, pattern: nat, brightness: nat, rest: seq<char>)
    requires mode != NUL
    requires forall i :: 0 <= i < |rest| ==> rest[i] != NUL
    ensures var line := [mode, ','] + (Decimal(pattern) + ([','] + (Decimal(brightness) + rest)));
      forall i :: 0 <= i < |line| ==> line[i] != NUL
  {
    var d1 := Decimal(pattern);
    var d2 := Decimal(brightness);
    var line := [mode, ','] + (d1 + ([','] + (d2 + rest)));
    forall i | 0 <= i < |line| ensures line[i] != NUL {
      if i >= 2 + |d1| + 1 + |d2| {
        assert line[i] == rest[i - (2 + |d1| + 1 + |d2|)];
      }
    }
  }

  /** The three-field form, as the format promises. */
  lemma UsbThreeFieldLine(mode: char, pattern: nat, brightness: nat)
    requires IsUsbMode(mode)
    ensures var line := [mode, ','] + (Decimal(pattern) + ([','] + Decimal(brightness)));
      UsbPayload(line) == Some(UsbPayloadOf(mode, pattern, brightness))
  {
    UsbLineParsed(mode, pattern, brightness, []);
    assert Decimal(brightness) + [] == Decimal(brightness);
  }

  /**
   * The four-field form "M,1,0,40" that the format comment lists as music,
   * pattern 1, brightness 40: the brightness is read from the third field
   * (0 here), and the fourth is ignored.
   */
  lemma UsbFourFieldLineReadsThirdField(mode: char, pattern: nat, third: nat, fourth: nat)
    requires IsUsbMode(mode)
    ensures var line := [mode, ','] + (Decimal(pattern) + ([','] + (Decimal(third) + ([','] + Decimal(fourth)))));
      && UsbPayload(line) == Some(UsbPayloadOf(mode, pattern, third))
      && DecodeCommand(UsbPayload(line).value).brightness == third % 256
  {
    UsbLineParsed(mode, pattern, third, [','] + Decimal(fourth));
  }

  /** A mode letter outside 0, S, P, M, A is rejected, whatever follows it. */
  lemma UnknownModeRejected(mode: char, rest: seq<char>)
    requires !IsUsbMode(mode) && !IsSpace(mode) && mode != NUL
    ensures UsbPayload([mode] + rest).None?
  {
    var line := [mode] + rest;
    var s := TakeWhile(line, IsNotNul);
    assert s[0] == mode;
    TakeWhileExact(s, IsSpace, 0);
  }

  /** The number of commas in a line, as `commaCount` counts them. */
  function Commas(s: seq<char>): nat
  {
    if |s| == 0 then 0 else Commas(s[..|s| - 1]) + (if s[|s| - 1] == ',' then 1 else 0)
  }

  /** What the accumulator may hold: fewer than 64 characters and no line end. */
  predicate PendingOk(pending: seq<char>)
  {
    |pending| < LINE_CAPACITY && forall i :: 0 <= i < |pending| ==> !IsLineEnd(pending[i])
  }

  /** What reaches `parseUsbCommandLine`: a non-empty pending line. */
  predicate LineOk(line: seq<char>)
  {
    |line| > 0 && PendingOk(line)
  }

  /**
   * One character into the accumulator: a line end hands over the pending
   * line unless it is empty; any other character is appended while it fits
   * in 63, and otherwise the line is dropped together with that character.
   */
  function UsbStep(pending: seq<char>, c: char): (r: (seq<char>, Option<seq<char>>))
  {
    if IsLineEnd(c) then
      if |pending| == 0 then ([], None) else ([], Some(pending))
    else if |pending| < LINE_CAPACITY - 1 then (pending + [c], None)
    else ([], None)
  }

  /** The accumulator after some characters, with the lines handed over in order. */
  function UsbRun(pending: seq<char>, input: seq<char>): (seq<char>, seq<seq<char>>)
  {
    if |input| == 0 then (pending, [])
    else
      var prev := UsbRun(pending, input[..|input| - 1]);
      var next := UsbStep(prev.0, input[|input| - 1]);
      (next.0, prev.1 + (if next.1.Some? then [next.1.value] else []))
  }

  /**
   * One call of `processUsbSerialCommands` with every character read at
   * `now`: the characters, then the idle flush of a line holding two commas
   * when more than 50 ms have passed since the last character.
   */
  function UsbPoll(pending: seq<char>, lastByteMs: u32, input: seq<char>, now: u32): (seq<char>, seq<seq<char>>)
  {
    var r := UsbRun(pending, input);
    var last := if |input| > 0 then now else lastByteMs;
    if |r.0| > 0 && Commas(r.0) >= 2 && Elapsed(now, last) > IDLE_FLUSH_MS then ([], r.1 + [r.0]) else r
  }

  /** Every handed-over line is non-empty, shorter than 64 and free of line ends, and the accumulator stays in shape. */
  lemma {:induction false} UsbRunLinesOk(pending: seq<char>, input: seq<char>)
    requires PendingOk(pending)
    ensures var r := UsbRun(pending, input);
      PendingOk(r.0) && forall k :: 0 <= k < |r.1| ==> LineOk(r.1[k])
  {
    if |input| > 0 {
      UsbRunLinesOk(pending, input[..|input| - 1]);
    }
  }

  /** The same for a whole call, the idle flush included. */
  lemma UsbPollLinesOk(pending: seq<char>, lastByteMs: u32, input: seq<char>, now: u32)
    requires PendingOk(pending)
    ensures var r := UsbPoll(pending, lastByteMs, input, now);
      PendingOk(r.0) && forall k :: 0 <= k < |r.1| ==> LineOk(r.1[k])
  {
    UsbRunLinesOk(pending, input);
  }

  /** The idle flush never fires in a call that read a character. */
  lemma NoFlushWhileReceiving(pending: seq<char>, lastByteMs: u32, input: seq<char>, now: u32)
    requires |input| > 0
    ensures UsbPoll(pending, lastByteMs, input, now) == UsbRun(pending, input)
  {
  }

  /** Characters without a line end that fit are simply accumulated. */
  lemma {:induction false} UsbRunAccumulates(text: seq<char>)
    requires PendingOk(text)
    ensures UsbRun([], text) == (text, [])
  {
    if |text| > 0 {
      var init := text[..|text| - 1];
      UsbRunAccumulates(init);
      assert init + [text[|text| - 1]] == text;
      var next := UsbStep(init, text[|text| - 1]);
      assert next == (text, None);
      var r := UsbRun([], text);
      assert r.1 == UsbRun([], init).1;
      assert r.0 == next.0;
    }
  }

  /** A line sent with a CR or LF into an empty accumulator is handed over exactly, leaving the accumulator empty. */
  lemma LineDelivered(text: seq<char>, lineEnd: char)
    requires LineOk(text) && IsLineEnd(lineEnd)
    ensures UsbRun([], text + [lineEnd]) == ([], [text])
  {
    UsbRunAccumulates(text);
    var input := text + [lineEnd];
    assert input[..|input| - 1] == text;
    assert UsbStep(text, lineEnd) == ([], Some(text));
    var r := UsbRun([], input);
    assert r.1 == [] + [text];
    assert r.0 == [];
    assert [] + [text] == [text];
    assert r == ([], [text]);
  }

  /** A 64th character without a line end drops the whole line. */
  lemma OverlongLineDropped(text: seq<char>)
    requires |text| == LINE_CAPACITY
    requires forall i :: 0 <= i < |text| ==> !IsLineEnd(text[i])
    ensures UsbRun([], text) == ([], [])
  {
    var init := text[..|text| - 1];
    UsbRunAccumulates(init);
  }

  /**
   * `processUsbSerialCommands`'s statics: `line`, `idx`, `commaCount` and
   * `lastByteMs`; `line[0..idx)` is the pending line.
   */
  class UsbLineReader {
    const line: array<char>
    var idx: nat
    var commaCount: nat
    var lastByteMs: u32

    function Pending(): seq<char>
      reads this, line
      requires idx <= line.Length
    {
      line[..idx]
    }

    ghost predicate Valid()
      reads this, line
    {
      && line.Length == LINE_CAPACITY
      && idx < LINE_CAPACITY
      && PendingOk(Pending())
      && commaCount == Commas(Pending())
    }

    constructor ()
      ensures Valid() && fresh(line) && Pending() == [] && lastByteMs == 0
    {
      line := new char[LINE_CAPACITY](_ => NUL);
      idx := 0;
      commaCount := 0;
      lastByteMs := 0;
    }

    /** End the pending line with a NUL and hand it over. */
    method TakeLine() returns (taken: seq<char>)
      requires Valid() && idx > 0
      modifies this`idx, this`commaCount, line
      ensures Valid() && taken == old(Pending()) && Pending() == []
    {
      taken := line[..idx];
      line[idx] := NUL;
      idx := 0;
      commaCount := 0;
    }

    /** One character of the read loop. */
    method FeedChar(c: char) returns (emitted: Option<seq<char>>)
      requires Valid()
      modifies this`idx, this`commaCount, line
      ensures Valid()
      ensures (Pending(), emitted) == UsbStep(old(Pending()), c)
    {
      emitted := None;
      if IsLineEnd(c) {
        if idx > 0 {
          var taken := TakeLine();
          emitted := Some(taken);
        }
      } else if idx < LINE_CAPACITY - 1 {
        ghost var before := line[..idx];
        line[idx] := c;
        idx := idx + 1;
        assert line[..idx] == before + [c];
        assert line[..idx][..idx - 1] == before;
        if c == ',' {
          commaCount := commaCount + 1;
        }
      } else {
        idx := 0;
        commaCount := 0;
      }
    }

    /** `processUsbSerialCommands` up to the parsing: the lines to parse, in order. */
    method ReadLines(input: seq<char>, now: u32) returns (lines: seq<seq<char>>)
      requires Valid()
      modifies this, line
      ensures Valid()
      ensures (Pending(), lines) == UsbPoll(old(Pending()), old(lastByteMs), input, now)
      ensures lastByteMs == if |input| > 0 then now else old(lastByteMs)
    {
      lines := [];
      var i := 0;
      while i < |input|
        invariant 0 <= i <= |input| && Valid()
        invariant Pending() == UsbRun(old(Pending()), input[..i]).0
        invariant lines == UsbRun(old(Pending()), input[..i]).1
        invariant lastByteMs == if i > 0 then now else old(lastByteMs)
      {
        assert input[..i + 1][..i] == input[..i];
        var c := input[i];
        lastByteMs := now;
        ghost var before := Pending();
        var emitted := FeedChar(c);
        assert (Pending(), emitted) == UsbStep(before, c);
        if emitted.Some? {
          lines := lines + [emitted.value];
        }
        i := i + 1;
      }
      assert input[..i] == input;
      if idx > 0 && commaCount >= 2 && Elapsed(now, lastByteMs) > IDLE_FLUSH_MS {
        var taken := TakeLine();
        lines := lines + [taken];
      }
    }
  }
}
