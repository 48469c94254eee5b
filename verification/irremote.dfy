/**
 * The ESP32 master's remote control: `handleIRCommand` turns Apple Remote
 * codes into changes of `mode`, `colorIndex` and `brightness` and sends the
 * result as the line "mode,colorIndex,brightness,param3". The IR receiver,
 * the serial port and the radio link to the slave are not part of this
 * model; the sent line is returned instead.
 */
module IrRemote {
  import opened Bytes
  import opened CommandLine

  const APPLE_PLAY: u32 := 0x77E1_5020
  const APPLE_MENU: u32 := 0x77E1_C020
  const APPLE_RIGHT: u32 := 0x77E1_E020
  const APPLE_LEFT: u32 := 0x77E1_D020
  const APPLE_UP: u32 := 0x77E1_A020
  const APPLE_DOWN: u32 := 0x77E1_B020
  const APPLE_REPEAT: u32 := 0xFFFF_FFFF
  /** Repeat codes closer together than this are ignored. */
  const REPEAT_DELAY: nat := 150
  /** The brightness steps run from 0 to 27. */
  const MAX_BRIGHTNESS: byte := 27

  /** The master's globals. */
  datatype Remote = Remote(mode: char, colorIndex: byte, brightness: byte, param3: byte, lastCommandTime: u32)

  /** Solid mode, colour 1, brightness 3. */
  function InitialRemote(): Remote
  {
    Remote('S', 1, 3, 0, 0)
  }

  /** The largest pattern or colour index of a mode: 12 in music, 6 in pattern, 11 otherwise. */
  function MaxIndex(mode: char): byte
  {
    if mode == 'M' then 12 else if mode == 'P' then 6 else 11
  }

  /** PLAY: solid becomes music, every other mode becomes solid. */
  function PlayMode(mode: char): char
  {
    if mode == 'S' then 'M' else 'S'
  }

  /** MENU: music, animation, pattern, music; solid or anything else goes to music. */
  function MenuMode(mode: char): char
  {
    if mode == 'M' then 'A' else if mode == 'A' then 'P' else 'M'
  }

  /** RIGHT and REPEAT: `colorIndex++` on a byte, back to 0 past the mode's maximum. */
  function NextIndex(colorIndex: byte, maxIdx: byte): byte
  {
    var next := ToByte(colorIndex + 1);
    if next > maxIdx then 0 else next
  }

  /** LEFT: 0 goes to the mode's maximum, anything else down by one. */
  function PreviousIndex(colorIndex: byte, maxIdx: byte): byte
  {
    if colorIndex == 0 then maxIdx else colorIndex - 1
  }

  /** `sendCommand`'s line: "%c,%u,%u,%u" and a newline. */
  function SentLine(r: Remote): seq<char>
  {
    CommandText(r.mode, r.colorIndex, r.brightness, r.param3) + ['\n']
  }

  /**
   * `handleIRCommand` at time `now`: the new globals and the line sent, if
   * any. A repeat code within 150 ms changes nothing; any other code stamps
   * `lastCommandTime`; unknown codes send nothing.
   */
  function HandleIr(r: Remote, command: u32, now: u32): (Remote, Option<seq<char>>)
  {
    if command == APPLE_REPEAT && Elapsed(now, r.lastCommandTime) < REPEAT_DELAY then (r, None)
    else
      var s := r.(lastCommandTime := now);
      var next := Press(s, command);
      if next.Some? then (next.value, Some(SentLine(next.value))) else (s, None)
  }

  /** The globals after a button, or None for a code that is no button. */
  function Press(s: Remote, command: u32): Option<Remote>
  {
    if command == APPLE_PLAY then Some(s.(mode := PlayMode(s.mode)))
    else if command == APPLE_MENU then Some(s.(mode := MenuMode(s.mode)))
    else if command == APPLE_RIGHT || command == APPLE_REPEAT then Some(s.(colorIndex := NextIndex(s.colorIndex, MaxIndex(s.mode))))
    else if command == APPLE_LEFT then Some(s.(colorIndex := PreviousIndex(s.colorIndex, MaxIndex(s.mode))))
    else if command == APPLE_UP then Some(s.(brightness := if s.brightness < MAX_BRIGHTNESS then s.brightness + 1 else s.brightness))
    else if command == APPLE_DOWN then Some(s.(brightness := if s.brightness > 0 then s.brightness - 1 else s.brightness))
    else None
  }

  /** A known button. */
  predicate IsKnown(command: u32)
  {
    command == APPLE_PLAY || command == APPLE_MENU || command == APPLE_RIGHT || command == APPLE_LEFT
    || command == APPLE_UP || command == APPLE_DOWN || command == APPLE_REPEAT
  }

  /** A repeat code within 150 ms of the last command changes nothing at all, not even the timestamp. */
  lemma FastRepeatIgnored(r: Remote, now: u32)
    requires Elapsed(now, r.lastCommandTime) < REPEAT_DELAY
    ensures HandleIr(r, APPLE_REPEAT, now) == (r, None)
  {
  }

  /** A code that is no button only updates the timestamp. */
  lemma UnknownCodeOnlyStamps(r: Remote, command: u32, now: u32)
    requires !IsKnown(command)
    ensures HandleIr(r, command, now) == (r.(lastCommandTime := now), None)
  {
  }

  /**
   * Every handled button sends exactly the resulting globals, and stamps
   * the time; the pressed button changes only the field it is about.
   */
  lemma ButtonSendsNewState(r: Remote, command: u32, now: u32)
    requires IsKnown(command)
    requires command == APPLE_REPEAT ==> Elapsed(now, r.lastCommandTime) >= REPEAT_DELAY
    ensures var (s, sent) := HandleIr(r, command, now);
      && sent == Some(SentLine(s))
      && s.lastCommandTime == now && s.param3 == r.param3
      && (command != APPLE_PLAY && command != APPLE_MENU ==> s.mode == r.mode)
      && (command != APPLE_RIGHT && command != APPLE_REPEAT && command != APPLE_LEFT ==> s.colorIndex == r.colorIndex)
      && (command != APPLE_UP && command != APPLE_DOWN ==> s.brightness == r.brightness)
  {
  }

  /** PLAY toggles between solid and music. */
  lemma PlayToggles(mode: char)
    ensures PlayMode(mode) in "SM" && (PlayMode(mode) == 'M' <==> mode == 'S')
    ensures mode in "SM" ==> PlayMode(PlayMode(mode)) == mode
  {
  }

  /** MENU visits music, animation and pattern in turn, and three presses from any of them come back. */
  lemma MenuCycles(mode: char)
    ensures MenuMode(mode) in "MAP"
    ensures mode in "MAP" ==> MenuMode(MenuMode(MenuMode(mode))) == mode
  {
  }

  /** RIGHT lands within the mode's range: one up from inside it, and 0 when it would pass the maximum. */
  lemma NextIndexInRange(colorIndex: byte, maxIdx: byte)
    requires maxIdx < 255
    ensures NextIndex(colorIndex, maxIdx) <= maxIdx
    ensures colorIndex < maxIdx ==> NextIndex(colorIndex, maxIdx) == colorIndex + 1
    ensures colorIndex >= maxIdx ==> NextIndex(colorIndex, maxIdx) == 0
  {
  }

  /** LEFT and RIGHT undo each other inside the mode's range. */
  lemma LeftUndoesRight(colorIndex: byte, maxIdx: byte)
    requires colorIndex <= maxIdx < 255
    ensures PreviousIndex(NextIndex(colorIndex, maxIdx), maxIdx) == colorIndex
    ensures NextIndex(PreviousIndex(colorIndex, maxIdx), maxIdx) == colorIndex
  {
  }

  /** What every reachable state satisfies: one of the four modes, brightness within 0..27, and `param3` still 0. */
  predicate RemoteOk(r: Remote)
  {
    r.mode in "SMAP" && r.brightness <= MAX_BRIGHTNESS && r.param3 == 0
  }

  /** Every code keeps the mode among the four and the brightness within 0..27. */
  lemma HandleIrKeepsRemoteOk(r: Remote, command: u32, now: u32)
    requires RemoteOk(r)
    ensures RemoteOk(HandleIr(r, command, now).0)
  {
  }

  /** UP and DOWN saturate: at 27 UP keeps 27, at 0 DOWN keeps 0, and otherwise they move by one. */
  lemma BrightnessSaturates(r: Remote, now: u32)
    requires RemoteOk(r)
    ensures var up := HandleIr(r, APPLE_UP, now).0.brightness;
      up == if r.brightness == MAX_BRIGHTNESS then MAX_BRIGHTNESS else r.brightness + 1
    ensures var down := HandleIr(r, APPLE_DOWN, now).0.brightness;
      down == if r.brightness == 0 then 0 else r.brightness - 1
  {
  }

  /**
   * A mode change keeps `colorIndex` as it is, so it can lie past the new
   * mode's maximum; LEFT then only counts down from there. From music at
   * index 12, MENU twice reaches pattern mode, where LEFT sends index 11.
   */
  lemma ModeChangeKeepsIndex(now: u32)
    ensures var r := Remote('M', 12, 3, 0, 0);
      var inPattern := HandleIr(HandleIr(r, APPLE_MENU, now).0, APPLE_MENU, now).0;
      var left := HandleIr(inPattern, APPLE_LEFT, now).0;
      inPattern.mode == 'P' && left.colorIndex == 11 && left.colorIndex > MaxIndex('P')
  {
  }

  /** `handleIRCommand`'s globals. */
  class IrController {
    var mode: char
    var colorIndex: byte
    var brightness: byte
    var param3: byte
    var lastCommandTime: u32

    function State(): Remote
      reads this
    {
      Remote(mode, colorIndex, brightness, param3, lastCommandTime)
    }

    constructor ()
      ensures State() == InitialRemote() && RemoteOk(State())
    {
      mode, colorIndex, brightness, param3, lastCommandTime := 'S', 1, 3, 0, 0;
    }

    /** `handleIRCommand`: the switch over the button codes; returns the line `sendCommand` writes. */
    method HandleIRCommand(command: u32, now: u32) returns (sent: Option<seq<char>>)
      modifies this
      ensures (State(), sent) == HandleIr(old(State()), command, now)
      ensures RemoteOk(old(State())) ==> RemoteOk(State())
    {
      ghost var r0 := State();
      if command == APPLE_REPEAT && Elapsed(now, lastCommandTime) < REPEAT_DELAY {
        return None;
      }
      lastCommandTime := now;
      sent := None;
      if command == APPLE_PLAY || command == APPLE_MENU {
        ChangeMode(command);
        sent := Some(SentLine(State()));
      } else if command == APPLE_RIGHT || command == APPLE_REPEAT || command == APPLE_LEFT {
        ChangeIndex(command);
        sent := Some(SentLine(State()));
      } else if command == APPLE_UP || command == APPLE_DOWN {
        ChangeBrightness(command);
        sent := Some(SentLine(State()));
      }
      if RemoteOk(r0) {
        HandleIrKeepsRemoteOk(r0, command, now);
      }
    }

    /** The PLAY and MENU cases. */
    method ChangeMode(command: u32)
      requires command == APPLE_PLAY || command == APPLE_MENU
      modifies this`mode
      ensures Some(State()) == Press(old(State()), command)
    {
      if command == APPLE_PLAY {
        if mode == 'S' {
          mode := 'M';
        } else {
          mode := 'S';
        }
      } else {
        if mode == 'M' {
          mode := 'A';
        } else if mode == 'A' {
          mode := 'P';
        } else if mode == 'P' {
          mode := 'M';
        } else {
          mode := 'M';
        }
      }
    }

    /** The RIGHT, REPEAT and LEFT cases. */
    method ChangeIndex(command: u32)
      requires command == APPLE_RIGHT || command == APPLE_REPEAT || command == APPLE_LEFT
      modifies this`colorIndex
      ensures Some(State()) == Press(old(State()), command)
    {
      var maxIdx: byte := if mode == 'M' then 12 else if mode == 'P' then 6 else 11;
      if command == APPLE_LEFT {
        if colorIndex == 0 {
          colorIndex := maxIdx;
        } else {
          colorIndex := colorIndex - 1;
        }
      } else {
        colorIndex := (colorIndex + 1) % 256;
        if colorIndex > maxIdx {
          colorIndex := 0;
        }
      }
    }

    /** The UP and DOWN cases. */
    method ChangeBrightness(command: u32)
      requires command == APPLE_UP || command == APPLE_DOWN
      modifies this`brightness
      ensures Some(State()) == Press(old(State()), command)
    {
      if command == APPLE_UP {
        if brightness < MAX_BRIGHTNESS {
          brightness := brightness + 1;
        }
      } else {
        if brightness > 0 {
          brightness := brightness - 1;
        }
      }
    }
  }
}
