/**
 * The text command line the analysis device reads from the IR controller,
 * `[C]<mode>[,]<pattern>,<brightness>...`, and the parse
 * `forwardESP32Commands` applies to it before forwarding a CMD frame.
 */
module CommandLine {
  import opened Bytes
  import opened Text

  /** `char command[64]`. */
  const COMMAND_CAPACITY: nat := 64

  /** What the parse extracts: the mode character and the two numbers. */
  datatype Command = Command(mode: char, pattern: int, brightness: int)

  /** The characters the digit branch skips before the pattern digit. */
  predicate IsBlank(c: char) { c == ' ' || c == '\r' || c == '\t' }

  /** The 64-character buffer with the terminator `command[len] = '\0'` somewhere in it. */
  predicate Terminated(buf: seq<char>)
  {
    |buf| == COMMAND_CAPACITY && NUL in buf
  }

  /** Index of the first terminator. */
  function FirstNul(buf: seq<char>): (k: nat)
    requires NUL in buf
    ensures k < |buf| && buf[k] == NUL
    ensures forall i :: 0 <= i < k ==> buf[i] != NUL
  {
    if buf[0] == NUL then 0
    else
      assert buf == [buf[0]] + buf[1..];
      1 + FirstNul(buf[1..])
  }

  /** A terminator with none before it is the first one. */
  lemma {:induction false} FirstNulUnique(buf: seq<char>, k: nat)
    requires k < |buf| && buf[k] == NUL
    requires forall i :: 0 <= i < k ==> buf[i] != NUL
    ensures FirstNul(buf) == k
  {
    if k > 0 {
      FirstNulUnique(buf[1..], k - 1);
    }
  }

  /** The C string at index p: the characters up to the first NUL at or after p, or up to the end of the buffer. */
  function CStr(buf: seq<char>, p: nat): (s: seq<char>)
    requires p <= |buf|
    ensures forall i :: 0 <= i < |s| ==> s[i] != NUL
  {
    TakeWhile(buf[p..], IsNotNul)
  }

  /** Before the terminator, the C string at p is the slice up to the terminator. */
  lemma CStrAt(buf: seq<char>, p: nat)
    requires NUL in buf && p <= FirstNul(buf)
    ensures CStr(buf, p) == buf[p..FirstNul(buf)]
  {
    var k := FirstNul(buf);
    TakeWhileExact(buf[p..], IsNotNul, k - p);
  }

  /**
   * `strtok_r(s, ",", &save)`: skip leading commas; the token runs up to the
   * next comma, and the next call resumes after that comma.
   */
  function NextToken(s: seq<char>): (r: Option<(seq<char>, seq<char>)>)
    ensures r.None? <==> forall i :: 0 <= i < |s| ==> s[i] == ','
    ensures r.Some? ==> |r.value.0| > 0 && forall i :: 0 <= i < |r.value.0| ==> r.value.0[i] != ','
  {
    var t := DropWhile(s, IsComma);
    if |t| == 0 then
      assert TakeWhile(s, IsComma) == s;
      None
    else
      var tok := TakeWhile(t, IsNotComma);
      Some((tok, if |tok| < |t| then t[|tok| + 1..] else []))
  }

  /** The branch for text holding a comma: pattern and brightness are atoi of the first two tokens, 0 when absent. */
  function TokenFields(s: seq<char>): (int, int)
  {
    match NextToken(s)
    case None => (0, 0)
    case Some((first, after)) =>
      (Atoi(first), match NextToken(after) case None => 0 case Some((second, _)) => Atoi(second))
  }

  /**
   * The branch for text without a comma: after blanks, one digit is the
   * pattern, the digit after it is skipped, and atoi of what follows is the
   * brightness if it starts with a digit.
   */
  function DigitFields(s: seq<char>): (r: (int, int))
    ensures 0 <= r.0 < 10 && r.1 >= 0
  {
    PatternAndBrightness(DropWhile(s, IsBlank))
  }

  /** The digit branch once the blanks are skipped. */
  function PatternAndBrightness(t: seq<char>): (r: (int, int))
    ensures 0 <= r.0 < 10 && r.1 >= 0
  {
    (LeadingDigit(t), AtoiIfDigit(SkipDigit(SkipDigit(t))))
  }

  /** The value of a leading digit, 0 when there is none. */
  function LeadingDigit(t: seq<char>): (d: nat)
    ensures d < 10
  {
    if |t| > 0 && IsDigit(t[0]) then DigitValue(t[0]) else 0
  }

  /** One leading digit passed over, if there is one. */
  function SkipDigit(t: seq<char>): seq<char>
  {
    if |t| > 0 && IsDigit(t[0]) then t[1..] else t
  }

  /** atoi of text that starts with a digit, 0 otherwise. */
  function AtoiIfDigit(t: seq<char>): (v: int)
    ensures v >= 0
  {
    if |t| > 0 && IsDigit(t[0]) then Atoi(t) else 0
  }

  /** `strchr(p, ',')` picks the branch. */
  function Fields(s: seq<char>): (int, int)
  {
    if ',' in s then TokenFields(s) else DigitFields(s)
  }

  /** Where the mode character sits: a leading 'C' is skipped. */
  function ModeIndex(buf: seq<char>): (p: nat)
    requires Terminated(buf)
    ensures p <= 1
  {
    if buf[0] == 'C' then 1 else 0
  }

  /** `*p ? *p : '0'`: an empty mode reads as '0'. */
  function ModeOf(buf: seq<char>): (m: char)
    requires Terminated(buf)
    ensures m != NUL
  {
    if buf[ModeIndex(buf)] != NUL then buf[ModeIndex(buf)] else '0'
  }

  /** `if (*p == ',') p++`. */
  function SkipComma(buf: seq<char>, q: nat): (r: nat)
    requires q < |buf|
    ensures r == q || (r == q + 1 && buf[q] == ',')
  {
    if buf[q] == ',' then q + 1 else q
  }

  /** The command whose numbers are read from the C string at r. */
  function CommandAt(buf: seq<char>, r: nat, mode: char): Command
    requires r <= |buf|
  {
    var fields := Fields(CStr(buf, r));
    Command(mode, fields.0, fields.1)
  }

  /**
   * The parse as the source writes it: `p` is advanced past the mode
   * character even when that character is the terminator, so an empty
   * mode makes the numbers come from whatever follows the terminator.
   */
  function ParseAsWritten(buf: seq<char>): Command
    requires Terminated(buf)
  {
    CommandAt(buf, SkipComma(buf, ModeIndex(buf) + 1), ModeOf(buf))
  }

  /** Index just after the mode character, or the terminator itself when the mode is empty. */
  function AfterMode(buf: seq<char>): (q: nat)
    requires Terminated(buf)
    ensures q <= FirstNul(buf)
  {
    var p := ModeIndex(buf);
    if buf[p] != NUL then p + 1 else p
  }

  /**
   * The parse with the mode pointer advanced only over a real mode
   * character; every other step is the source's.
   */
  function ParseCommand(buf: seq<char>): (c: Command)
    requires Terminated(buf)
    ensures c.mode == ModeOf(buf)
  {
    CommandAt(buf, SkipComma(buf, AfterMode(buf)), ModeOf(buf))
  }

  /** The comma branch and the digit branch both give 0 and 0 for an empty string. */
  lemma FieldsOfEmpty()
    ensures Fields([]) == (0, 0)
  {
    TakeWhileExact([], IsBlank, 0);
  }

  /** An empty mode (the line "" or "C") parses as mode '0' with pattern 0 and brightness 0. */
  lemma EmptyModeIsOff(buf: seq<char>)
    requires Terminated(buf)
    requires buf[ModeIndex(buf)] == NUL
    ensures ParseCommand(buf) == Command('0', 0, 0)
  {
    var p := ModeIndex(buf);
    assert SkipComma(buf, AfterMode(buf)) == p;
    TakeWhileExact(buf[p..], IsNotNul, 0);
    assert CStr(buf, p) == [];
    FieldsOfEmpty();
  }

  /** The parse reads nothing beyond the first terminator. */
  lemma ParseCommandIgnoresStale(buf: seq<char>, other: seq<char>)
    requires Terminated(buf) && Terminated(other)
    requires buf[..FirstNul(buf) + 1] == other[..FirstNul(buf) + 1]
    ensures ParseCommand(buf) == ParseCommand(other)
  {
    var k := FirstNul(buf);
    SamePrefixPointwise(buf, other, k + 1);
    FirstNulUnique(other, k);
    var r := SkipComma(buf, AfterMode(buf));
    assert ModeOf(buf) == ModeOf(other) && r == SkipComma(other, AfterMode(other));
    CStrReadsUpToNul(buf, other, r);
  }

  /** Equal prefixes agree index by index. */
  lemma SamePrefixPointwise(s: seq<char>, t: seq<char>, n: nat)
    requires n <= |s| && n <= |t| && s[..n] == t[..n]
    ensures forall i :: 0 <= i < n ==> s[i] == t[i]
  {
    forall i | 0 <= i < n ensures s[i] == t[i] {
      assert s[i] == s[..n][i];
    }
  }

  /** The C string at r depends only on the characters from r up to the terminator. */
  lemma CStrReadsUpToNul(buf: seq<char>, other: seq<char>, r: nat)
    requires NUL in buf && NUL in other && FirstNul(buf) == FirstNul(other) && r <= FirstNul(buf)
    requires forall i :: r <= i < FirstNul(buf) ==> buf[i] == other[i]
    ensures CStr(buf, r) == CStr(other, r)
  {
    var k := FirstNul(buf);
    CStrAt(buf, r);
    CStrAt(other, r);
    assert buf[r..k] == other[r..k] by {
      forall j | 0 <= j < k - r ensures buf[r..k][j] == other[r..k][j] {
        assert buf[r + j] == other[r + j];
      }
    }
  }

  /** Whenever a mode character is present, the source's parse and the corrected one agree. */
  lemma AsWrittenAgreesWithMode(buf: seq<char>)
    requires Terminated(buf)
    requires buf[ModeIndex(buf)] != NUL
    ensures ParseAsWritten(buf) == ParseCommand(buf)
  {
  }

  /** atoi of a single digit. */
  lemma AtoiOneDigit(c: char)
    requires IsDigit(c)
    ensures Atoi([c]) == DigitValue(c)
  {
    TakeWhileExact([c], IsSpace, 0);
    TakeWhileExact([c], IsDigit, 1);
    assert [c][..1] == [c];
    assert [c][..0] == [];
    assert DigitsValue([c]) == DigitValue(c);
  }

  /** The first token of "5,7" is "5", and "7" follows it. */
  lemma FirstTokenOfFiveSeven()
    ensures NextToken(['5', ',', '7']) == Some((['5'], ['7']))
  {
    var s := ['5', ',', '7'];
    TakeWhileExact(s, IsComma, 0);
    TakeWhileExact(s, IsNotComma, 1);
    assert s[..1] == ['5'] && s[2..] == ['7'];
  }

  /** The only token of "7" is "7". */
  lemma OnlyTokenOfSeven()
    ensures NextToken(['7']) == Some((['7'], []))
  {
    TakeWhileExact(['7'], IsComma, 0);
    TakeWhileExact(['7'], IsNotComma, 1);
    assert ['7'][..1] == ['7'];
  }

  /** The comma branch on "5,7". */
  lemma FieldsOfFiveSeven()
    ensures Fields(['5', ',', '7']) == (5, 7)
  {
    assert ['5', ',', '7'][1] == ',';
    FirstTokenOfFiveSeven();
    OnlyTokenOfSeven();
    AtoiOneDigit('5');
    AtoiOneDigit('7');
  }

  /**
   * The empty line: with "5,7" left behind the terminator from an earlier
   * line, the source's parse reports pattern 5 and brightness 7 where the
   * corrected one reports 0 and 0.
   */
  lemma AsWrittenReadsStaleBytes(buf: seq<char>)
    requires Terminated(buf)
    requires buf[..5] == [NUL, '5', ',', '7', NUL]
    ensures ParseAsWritten(buf) == Command('0', 5, 7)
    ensures ParseCommand(buf) == Command('0', 0, 0)
  {
    assert buf[0] == NUL && buf[1] == '5' && buf[4] == NUL;
    assert ModeIndex(buf) == 0 && ModeOf(buf) == '0';
    assert SkipComma(buf, 1) == 1;
    TakeWhileExact(buf[1..], IsNotNul, 3);
    assert buf[1..][..3] == ['5', ',', '7'];
    assert CStr(buf, 1) == ['5', ',', '7'];
    FieldsOfFiveSeven();
    EmptyModeIsOff(buf);
  }

  /**
   * `forwardESP32Commands`' parse over the stack buffer, pointer by pointer,
   * with the step past the mode (teensy_fft/src/main.cpp:719) corrected so
   * that it never passes the terminator; `strtok_r` and `atoi` are the
   * library calls above.
   */
  method ParseCommandBuffer(command: array<char>) returns (cmd: Command)
    requires Terminated(command[..])
    ensures cmd == ParseCommand(command[..])
  {
    var p := 0;
    if command[0] == 'C' {
      p := 1;
    }
    var mode := if command[p] != NUL then command[p] else '0';
    if command[p] != NUL {
      p := p + 1;
    }
    if command[p] == ',' {
      p := p + 1;
    }
    assert p == SkipComma(command[..], AfterMode(command[..]));
    var rest := CStr(command[..], p);
    var pattern, brightness;
    if ',' in rest {
      var fields := TokenFields(rest);
      pattern, brightness := fields.0, fields.1;
    } else {
      pattern, brightness := ParseDigits(command, p);
    }
    cmd := Command(mode, pattern, brightness);
  }

  /** Moving the pointer forward before the terminator drops the characters passed over. */
  lemma CStrSuffix(buf: seq<char>, from: nat, p: nat)
    requires NUL in buf && from <= p <= FirstNul(buf)
    ensures p - from <= |CStr(buf, from)| && CStr(buf, from)[p - from..] == CStr(buf, p)
  {
    var k := FirstNul(buf);
    CStrAt(buf, from);
    CStrAt(buf, p);
    DropOfSlice(buf, from, p, k);
  }

  /** Dropping the front of a slice gives the later slice. */
  lemma DropOfSlice(s: seq<char>, a: nat, b: nat, c: nat)
    requires a <= b <= c <= |s|
    ensures s[a..c][b - a..] == s[b..c]
  {
  }

  /** The character under the pointer is a digit exactly when the C string there starts with one; stepping over it drops it. */
  lemma DigitStep(buf: seq<char>, p: nat)
    requires NUL in buf && p <= FirstNul(buf)
    ensures var t := CStr(buf, p); (|t| > 0 && IsDigit(t[0])) == IsDigit(buf[p])
    ensures var t := CStr(buf, p); |t| > 0 ==> t[0] == buf[p]
    ensures IsDigit(buf[p]) ==> p < FirstNul(buf) && CStr(buf, p)[1..] == CStr(buf, p + 1)
  {
    CStrAt(buf, p);
    if IsDigit(buf[p]) {
      CStrSuffix(buf, p, p + 1);
    }
  }

  /** The blank-skipping loop of the digit branch: spaces, carriage returns and tabs. */
  method SkipBlanks(command: array<char>, from: nat) returns (p: nat)
    requires Terminated(command[..]) && from <= FirstNul(command[..])
    ensures from <= p <= FirstNul(command[..])
    ensures CStr(command[..], p) == DropWhile(CStr(command[..], from), IsBlank)
  {
    ghost var buf := command[..];
    ghost var k := FirstNul(buf);
    ghost var rest := CStr(buf, from);
    CStrAt(buf, from);
    p := from;
    while command[p] == ' ' || command[p] == '\r' || command[p] == '\t'
      invariant from <= p <= k
      invariant forall i :: 0 <= i < p - from ==> IsBlank(rest[i])
      decreases k - p
    {
      assert rest[p - from] == buf[p];
      p := p + 1;
    }
    CStrSuffix(buf, from, p);
    TakeWhileExact(rest, IsBlank, p - from);
  }

  /** The digit branch: skip blanks, then one pattern digit, one skipped digit, and atoi for the brightness. */
  method ParseDigits(command: array<char>, from: nat) returns (pattern: int, brightness: int)
    requires Terminated(command[..]) && from <= FirstNul(command[..])
    ensures (pattern, brightness) == DigitFields(CStr(command[..], from))
  {
    var p := SkipBlanks(command, from);
    pattern := 0;
    DigitStep(command[..], p);
    if IsDigit(command[p]) {
      pattern := DigitValue(command[p]);
    }
    p := StepOverDigit(command, p);
    p := StepOverDigit(command, p);
    brightness := 0;
    DigitStep(command[..], p);
    if IsDigit(command[p]) {
      brightness := Atoi(CStr(command[..], p));
    }
  }

  /** `if (isdigit(*p)) p++`. */
  method StepOverDigit(command: array<char>, p: nat) returns (q: nat)
    requires Terminated(command[..]) && p <= FirstNul(command[..])
    ensures q <= FirstNul(command[..])
    ensures CStr(command[..], q) == SkipDigit(CStr(command[..], p))
  {
    DigitStep(command[..], p);
    q := p;
    if IsDigit(command[p]) {
      q := p + 1;
    }
  }

  /** The bytes `readBytesUntil` left in the buffer, terminated at `len` and with one trailing carriage return cut off. */
  function CommandBuffer(line: seq<char>, stale: seq<char>): (buf: seq<char>)
    requires |line| < COMMAND_CAPACITY && |line| + 1 + |stale| == COMMAND_CAPACITY
    ensures Terminated(buf) && buf[|line|] == NUL && buf[|line| + 1..] == stale
    ensures |line| > 0 && line[|line| - 1] == '\r' ==> buf[..|line|] == line[..|line| - 1] + [NUL]
    ensures |line| == 0 || line[|line| - 1] != '\r' ==> buf[..|line|] == line
  {
    var n := |line|;
    var b := line + [NUL] + stale;
    assert b[n] == NUL;
    if n > 0 && line[n - 1] == '\r' then
      var c := b[n - 1 := NUL];
      assert c[n] == NUL;
      c
    else
      b
  }

  /** The line the controller sends: `snprintf("%c,%u,%u,%u")`. */
  function CommandText(mode: char, v1: nat, v2: nat, v3: nat): seq<char>
  {
    [mode, ','] + (Decimal(v1) + ([','] + (Decimal(v2) + ([','] + Decimal(v3)))))
  }

  /** strtok_r over a number followed by nothing or by a comma and more text. */
  lemma NextTokenOfDecimal(n: nat, rest: seq<char>)
    requires rest == [] || rest[0] == ','
    ensures NextToken(Decimal(n) + rest) == Some((Decimal(n), if rest == [] then [] else rest[1..]))
  {
    var d := Decimal(n);
    var s := d + rest;
    TakeWhileExact(s, IsComma, 0);
    TakeWhileExact(s, IsNotComma, |d|);
    assert s[..|d|] == d;
    if rest != [] {
      assert s[|d| + 1..] == rest[1..];
    }
  }

  /** The three numbers of a sent line: the comma branch reads the first two back. */
  lemma TokenFieldsOfSentNumbers(v1: nat, v2: nat, v3: nat)
    ensures TokenFields(Decimal(v1) + ([','] + (Decimal(v2) + ([','] + Decimal(v3))))) == (v1, v2)
  {
    var d1, d2, d3 := Decimal(v1), Decimal(v2), Decimal(v3);
    var third := [','] + d3;
    var tail := d2 + third;
    var s := d1 + ([','] + tail);
    NextTokenOfDecimal(v1, [','] + tail);
    assert ([','] + tail)[1..] == tail;
    var first := NextToken(s);
    assert first == Some((d1, tail));
    NextTokenOfDecimal(v2, third);
    var second := NextToken(tail);
    assert second == Some((d2, third[1..]));
    AtoiDecimal(v1, []);
    AtoiDecimal(v2, []);
    assert d1 + [] == d1 && d2 + [] == d2;
    assert Atoi(d1) == v1 && Atoi(d2) == v2;
  }

  /**
   * A line the controller sends reaches the CMD payload intact: mode, pattern
   * and brightness are what were printed, whatever the buffer held before.
   */
  lemma SentCommandParsed(mode: char, v1: byte, v2: byte, v3: byte, stale: seq<char>)
    requires mode != 'C' && mode != NUL && mode != '\n'
    requires |CommandText(mode, v1, v2, v3)| + 1 + |stale| == COMMAND_CAPACITY
    ensures ParseCommand(CommandBuffer(CommandText(mode, v1, v2, v3), stale)) == Command(mode, v1, v2)
  {
    var numbers := Decimal(v1) + ([','] + (Decimal(v2) + ([','] + Decimal(v3))));
    var text := CommandText(mode, v1, v2, v3);
    assert text == [mode, ','] + numbers;
    var d3 := Decimal(v3);
    assert text[|text| - 1] == d3[|d3| - 1];
    var buf := CommandBuffer(text, stale);
    assert buf[..|text|] == text;
    assert buf[0] == mode && buf[1] == ',';
    assert forall i :: 0 <= i < |text| ==> buf[i] != NUL by {
      forall i | 0 <= i < |text| ensures buf[i] != NUL {
        assert buf[i] == text[i];
        if i >= 2 {
          assert text[i] == numbers[i - 2];
        }
      }
    }
    FirstNulUnique(buf, |text|);
    CStrAt(buf, 2);
    assert buf[2..|text|] == numbers;
    assert ',' in numbers by { assert numbers[|Decimal(v1)|] == ','; }
    TokenFieldsOfSentNumbers(v1, v2, v3);
  }
}
