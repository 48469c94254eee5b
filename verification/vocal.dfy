/**
 * The decision logic of `calculateVocalEnvelope`: syllable onsets with a
 * rise threshold and an 80 ms debounce, the note reported at an onset or
 * captured late within a 10-frame window, and sustain detection with a
 * stable-pitch counter and 0.10/0.06 hysteresis.
 *
 * The envelope follower in front of it (band energy, noise floor, attack and
 * release smoothing) produces `vocalEnvSmoothed`; here that value is the
 * input `env` of each frame, together with the clock reading and the
 * dominant pitch the chroma stage reported for the same frame.
 */
module Vocal {
  import opened Bytes
  import Chroma

  const HIT_THRESH: real := 0.12
  const HIT_SLOPE: real := 0.02
  const MIN_GAP_MS: nat := 80
  const NOTE_MIN_STRENGTH: byte := 40
  const CAPTURE_FRAMES: byte := 10
  const SUSTAIN_THRESH: real := 0.10
  const SUSTAIN_RELEASE: real := 0.06
  const SUSTAIN_STABLE_FRAMES: byte := 4
  /** Note value meaning "no note". */
  const NO_NOTE: byte := 255

  /** The statics the decision logic reads and writes. */
  datatype VocalState = VocalState(
    envPrev: real,
    lastSyllableMs: u32,
    syllableHit: byte,
    noteOut: byte,
    noteStrength: byte,
    lastSyllableNote: byte,
    lastSyllableStrength: byte,
    captureRemaining: byte,
    sustain: byte,
    sustainCandidate: byte,
    sustainStableCount: byte)

  /** The power-on values of the statics. */
  function Initial(): VocalState
  {
    VocalState(0.0, 0, 0, NO_NOTE, 0, NO_NOTE, 0, 0, 0, NO_NOTE, 0)
  }

  /** A note is a pitch class with a strength of at least 40, or none with strength 0. */
  predicate NoteOk(note: byte, strength: byte)
  {
    (note < 12 && strength >= NOTE_MIN_STRENGTH) || (note == NO_NOTE && strength == 0)
  }

  /** What holds of the statics between frames. */
  predicate Inv(s: VocalState)
  {
    && NoteOk(s.noteOut, s.noteStrength)
    && NoteOk(s.lastSyllableNote, s.lastSyllableStrength)
    && s.syllableHit <= 1
    && s.captureRemaining <= CAPTURE_FRAMES
    && s.sustain <= 1
    && (s.sustain == 1 ==> s.noteOut < 12 && s.sustainCandidate < 12)
    && (s.sustainCandidate < 12 || s.sustainCandidate == NO_NOTE)
    && (s.sustainCandidate == NO_NOTE <==> s.sustainStableCount == 0)
    && (s.sustainStableCount >= SUSTAIN_STABLE_FRAMES ==> s.sustain == 1)
  }

  lemma InitialInv()
    ensures Inv(Initial())
  {
  }

  /** `curPitch`/`curStrength`: the dominant pitch when it is a pitch class with strength at least 40, otherwise none. */
  function ConfidentPitch(dominantPitch: byte, dominantPitchStrength: byte): (c: (byte, byte))
    ensures NoteOk(c.0, c.1)
    ensures c.0 < 12 <==> dominantPitch < 12 && dominantPitchStrength >= NOTE_MIN_STRENGTH
    ensures c.0 < 12 ==> c == (dominantPitch, dominantPitchStrength)
  {
    if dominantPitch < 12 && dominantPitchStrength >= NOTE_MIN_STRENGTH then (dominantPitch, dominantPitchStrength)
    else (NO_NOTE, 0)
  }

  /** An onset: the envelope is above 0.12, rose by more than 0.02, and the last onset is more than 80 ms old. */
  predicate IsHit(s: VocalState, env: real, now: u32)
  {
    env > HIT_THRESH && env - s.envPrev > HIT_SLOPE && Elapsed(now, s.lastSyllableMs) > MIN_GAP_MS
  }

  /** The onset branch and the late-capture branch. */
  function OnsetStage(s: VocalState, hit: bool, now: u32, curPitch: byte, curStrength: byte): VocalState
  {
    if hit then
      var note := if curPitch < 12 then curPitch else if s.sustain == 0 then NO_NOTE else s.noteOut;
      var strength := if curPitch < 12 then curStrength else if s.sustain == 0 then 0 else s.noteStrength;
      s.(syllableHit := 1, lastSyllableMs := now,
         captureRemaining := if curPitch < 12 then 0 else CAPTURE_FRAMES,
         noteOut := note, noteStrength := strength,
         lastSyllableNote := note, lastSyllableStrength := strength)
    else if s.captureRemaining > 0 then
      if curPitch < 12 then
        s.(syllableHit := 0, noteOut := curPitch, noteStrength := curStrength,
           lastSyllableNote := curPitch, lastSyllableStrength := curStrength, captureRemaining := 0)
      else
        s.(syllableHit := 0, captureRemaining := s.captureRemaining - 1)
    else
      s.(syllableHit := 0)
  }

  /** Sustain detection: count frames of the same confident pitch while the envelope holds, release below 0.06. */
  function SustainStage(s: VocalState, env: real, curPitch: byte, curStrength: byte): VocalState
  {
    if env >= SUSTAIN_THRESH && curPitch < 12 then
      var count :=
        if curPitch == s.sustainCandidate then
          (if s.sustainStableCount < 255 then s.sustainStableCount + 1 else s.sustainStableCount)
        else 1;
      var t := s.(sustainCandidate := curPitch, sustainStableCount := count);
      if count >= SUSTAIN_STABLE_FRAMES then t.(sustain := 1, noteOut := curPitch, noteStrength := curStrength) else t
    else if env <= SUSTAIN_RELEASE then
      s.(sustain := 0, sustainCandidate := NO_NOTE, sustainStableCount := 0, noteOut := NO_NOTE, noteStrength := 0)
    else
      s
  }

  /** One frame of the decision logic. */
  function VocalStep(s: VocalState, env: real, now: u32, dominantPitch: byte, dominantPitchStrength: byte): VocalState
  {
    var c := ConfidentPitch(dominantPitch, dominantPitchStrength);
    var s1 := OnsetStage(s, IsHit(s, env, now), now, c.0, c.1);
    SustainStage(s1, env, c.0, c.1).(envPrev := env)
  }

  /** Every frame keeps the invariant: notes are pitch classes or none, the counters stay in range. */
  lemma StepPreservesInv(s: VocalState, env: real, now: u32, dominantPitch: byte, dominantPitchStrength: byte)
    requires Inv(s)
    ensures Inv(VocalStep(s, env, now, dominantPitch, dominantPitchStrength))
  {
    var c := ConfidentPitch(dominantPitch, dominantPitchStrength);
    var s1 := OnsetStage(s, IsHit(s, env, now), now, c.0, c.1);
    assert Inv(s1);
  }

  /**
   * An onset is reported exactly when the envelope is above 0.12, rose by
   * more than 0.02 since the last frame and the last onset is more than
   * 80 ms old; it stamps the onset time.
   */
  lemma OnsetDetected(s: VocalState, env: real, now: u32, dominantPitch: byte, dominantPitchStrength: byte)
    ensures var t := VocalStep(s, env, now, dominantPitch, dominantPitchStrength);
      && (t.syllableHit == 1 <==> env > HIT_THRESH && env - s.envPrev > HIT_SLOPE && Elapsed(now, s.lastSyllableMs) > MIN_GAP_MS)
      && (t.syllableHit == 1 ==> t.lastSyllableMs == now)
      && (t.syllableHit == 0 ==> t.lastSyllableMs == s.lastSyllableMs)
      && t.envPrev == env
  {
  }

  /** Two onsets are more than 80 ms apart. */
  lemma OnsetsDebounced(s: VocalState, env1: real, now1: u32, env2: real, now2: u32, p1: byte, q1: byte, p2: byte, q2: byte)
    requires VocalStep(s, env1, now1, p1, q1).syllableHit == 1
    requires Elapsed(now2, now1) <= MIN_GAP_MS
    ensures VocalStep(VocalStep(s, env1, now1, p1, q1), env2, now2, p2, q2).syllableHit == 0
  {
    var t := VocalStep(s, env1, now1, p1, q1);
    OnsetDetected(s, env1, now1, p1, q1);
    assert !IsHit(t, env2, now2);
  }

  /** An onset with a confident pitch reports that pitch for the syllable and closes the capture window. */
  lemma OnsetWithPitch(s: VocalState, env: real, now: u32, dominantPitch: byte, dominantPitchStrength: byte)
    requires IsHit(s, env, now)
    requires dominantPitch < 12 && dominantPitchStrength >= NOTE_MIN_STRENGTH
    ensures var t := VocalStep(s, env, now, dominantPitch, dominantPitchStrength);
      && t.syllableHit == 1
      && t.noteOut == dominantPitch && t.noteStrength == dominantPitchStrength
      && t.lastSyllableNote == dominantPitch && t.lastSyllableStrength == dominantPitchStrength
      && t.captureRemaining == 0
  {
  }

  /**
   * An onset without a confident pitch opens the 10-frame capture window;
   * unless sustain is holding a note, it clears the note, and the syllable
   * records whatever note is current.
   */
  lemma OnsetWithoutPitch(s: VocalState, env: real, now: u32, dominantPitch: byte, dominantPitchStrength: byte)
    requires IsHit(s, env, now)
    requires !(dominantPitch < 12 && dominantPitchStrength >= NOTE_MIN_STRENGTH)
    ensures var t := VocalStep(s, env, now, dominantPitch, dominantPitchStrength);
      && t.syllableHit == 1
      && t.captureRemaining == CAPTURE_FRAMES
      && (s.sustain == 0 ==> t.noteOut == NO_NOTE && t.noteStrength == 0)
      && (s.sustain != 0 ==> t.noteOut == s.noteOut && t.noteStrength == s.noteStrength)
      && t.lastSyllableNote == t.noteOut && t.lastSyllableStrength == t.noteStrength
  {
  }

  /**
   * A frame without an onset either captures a confident pitch into the
   * open window and closes it, or counts the window down by one.
   */
  lemma CaptureStep(s: VocalState, env: real, now: u32, dominantPitch: byte, dominantPitchStrength: byte)
    requires !IsHit(s, env, now)
    ensures var t := VocalStep(s, env, now, dominantPitch, dominantPitchStrength);
      && (s.captureRemaining == 0 ==> t.captureRemaining == 0)
      && (s.captureRemaining > 0 && dominantPitch < 12 && dominantPitchStrength >= NOTE_MIN_STRENGTH ==>
            t.captureRemaining == 0 && t.lastSyllableNote == dominantPitch && t.lastSyllableStrength == dominantPitchStrength)
      && (s.captureRemaining > 0 && !(dominantPitch < 12 && dominantPitchStrength >= NOTE_MIN_STRENGTH) ==>
            t.captureRemaining == s.captureRemaining - 1 && t.lastSyllableNote == s.lastSyllableNote)
  {
  }

  /** One analysis frame's inputs. */
  datatype Frame = Frame(env: real, now: u32, dominantPitch: byte, dominantPitchStrength: byte)

  function Step(s: VocalState, f: Frame): VocalState
  {
    VocalStep(s, f.env, f.now, f.dominantPitch, f.dominantPitchStrength)
  }

  /** The state after the frames, in order. */
  function Run(s: VocalState, frames: seq<Frame>): VocalState
  {
    if |frames| == 0 then s else Step(Run(s, frames[..|frames| - 1]), frames[|frames| - 1])
  }

  /** No frame of the run is an onset. */
  predicate NoOnsets(s: VocalState, frames: seq<Frame>)
  {
    forall k :: 0 <= k < |frames| ==> !IsHit(Run(s, frames[..k]), frames[k].env, frames[k].now)
  }

  lemma {:induction false} CaptureCountsDown(s: VocalState, frames: seq<Frame>)
    requires NoOnsets(s, frames)
    ensures Run(s, frames).captureRemaining as int <= if s.captureRemaining as int > |frames| then s.captureRemaining as int - |frames| else 0
  {
    if |frames| > 0 {
      var n := |frames| - 1;
      var init := frames[..n];
      assert NoOnsets(s, init) by {
        forall k | 0 <= k < |init| ensures !IsHit(Run(s, init[..k]), init[k].env, init[k].now) {
          assert init[..k] == frames[..k];
        }
      }
      CaptureCountsDown(s, init);
      var r := Run(s, init);
      assert !IsHit(r, frames[n].env, frames[n].now);
      CaptureStep(r, frames[n].env, frames[n].now, frames[n].dominantPitch, frames[n].dominantPitchStrength);
    }
  }

  /** An open capture window is closed after as many frames without an onset as it had left (at most 10). */
  lemma CaptureWindowCloses(s: VocalState, frames: seq<Frame>)
    requires NoOnsets(s, frames)
    requires |frames| >= s.captureRemaining as int
    ensures Run(s, frames).captureRemaining == 0
  {
    CaptureCountsDown(s, frames);
  }

  /** Every frame of the run has the envelope at or above 0.10 and the same confident pitch. */
  predicate SteadyPitch(frames: seq<Frame>, pitch: byte, strength: byte)
  {
    forall k :: 0 <= k < |frames| ==>
      frames[k].env >= SUSTAIN_THRESH && frames[k].dominantPitch == pitch && frames[k].dominantPitchStrength == strength
  }

  lemma {:induction false} SteadyPitchCounts(s: VocalState, frames: seq<Frame>, pitch: byte, strength: byte)
    requires pitch < 12 && strength >= NOTE_MIN_STRENGTH
    requires SteadyPitch(frames, pitch, strength)
    requires |frames| > 0
    ensures var t := Run(s, frames);
      && t.sustainCandidate == pitch
      && t.sustainStableCount as int >= (if |frames| < 4 then |frames| else 4)
      && (|frames| >= 4 ==> t.sustain == 1 && t.noteOut == pitch && t.noteStrength == strength)
  {
    var n := |frames| - 1;
    var init := frames[..n];
    var r := Run(s, init);
    if n > 0 {
      assert SteadyPitch(init, pitch, strength) by {
        forall k | 0 <= k < |init| ensures init[k] == frames[k] { }
      }
      SteadyPitchCounts(s, init, pitch, strength);
    }
    var f := frames[n];
    assert f.env >= SUSTAIN_THRESH && f.dominantPitch == pitch && f.dominantPitchStrength == strength;
    var s1 := OnsetStage(r, IsHit(r, f.env, f.now), f.now, pitch, strength);
    assert s1.sustainCandidate == r.sustainCandidate && s1.sustainStableCount == r.sustainStableCount;
  }

  /** Four frames in a row of the same confident pitch with the envelope at or above 0.10 engage sustain on that pitch. */
  lemma SustainEngages(s: VocalState, frames: seq<Frame>, pitch: byte, strength: byte)
    requires pitch < 12 && strength >= NOTE_MIN_STRENGTH
    requires SteadyPitch(frames, pitch, strength)
    requires |frames| >= SUSTAIN_STABLE_FRAMES as int
    ensures Run(s, frames).sustain == 1
    ensures Run(s, frames).noteOut == pitch && Run(s, frames).noteStrength == strength
  {
    SteadyPitchCounts(s, frames, pitch, strength);
  }

  /** An envelope at or below 0.06 releases sustain and clears the note and the candidate. */
  lemma SustainReleases(s: VocalState, env: real, now: u32, dominantPitch: byte, dominantPitchStrength: byte)
    requires env <= SUSTAIN_RELEASE
    ensures var t := VocalStep(s, env, now, dominantPitch, dominantPitchStrength);
      && t.syllableHit == 0
      && t.sustain == 0 && t.sustainCandidate == NO_NOTE && t.sustainStableCount == 0
      && t.noteOut == NO_NOTE && t.noteStrength == 0
  {
  }

  /** Between the release and the engage thresholds, sustain, its candidate and its count are left as they are. */
  lemma SustainHysteresis(s: VocalState, env: real, now: u32, dominantPitch: byte, dominantPitchStrength: byte)
    requires SUSTAIN_RELEASE < env < SUSTAIN_THRESH
    ensures var t := VocalStep(s, env, now, dominantPitch, dominantPitchStrength);
      && t.sustain == s.sustain && t.sustainCandidate == s.sustainCandidate && t.sustainStableCount == s.sustainStableCount
  {
  }

  /**
   * A pitch the chroma stage reports always has strength at least 50, so
   * the 40 threshold never discards it.
   */
  lemma ReportedPitchIsConfident(q: seq<byte>, smoothed: seq<real>)
    requires |q| == Chroma.NUM_PITCH_CLASSES && |smoothed| == Chroma.NUM_PITCH_CLASSES
    ensures var d := Chroma.DominantPitch(q, smoothed);
      ConfidentPitch(d.pitch, d.strength) == (d.pitch, d.strength)
  {
  }

  /** The statics of `calculateVocalEnvelope`, updated in place once per frame. */
  class VocalTracker {
    var envPrev: real
    var lastSyllableMs: u32
    var syllableHit: byte
    var noteOut: byte
    var noteStrength: byte
    var lastSyllableNote: byte
    var lastSyllableStrength: byte
    var captureRemaining: byte
    var sustain: byte
    var sustainCandidate: byte
    var sustainStableCount: byte

    function State(): VocalState
      reads this
    {
      VocalState(envPrev, lastSyllableMs, syllableHit, noteOut, noteStrength, lastSyllableNote,
                 lastSyllableStrength, captureRemaining, sustain, sustainCandidate, sustainStableCount)
    }

    constructor ()
      ensures State() == Initial() && Inv(State())
    {
      envPrev := 0.0;
      lastSyllableMs := 0;
      syllableHit := 0;
      noteOut := NO_NOTE;
      noteStrength := 0;
      lastSyllableNote := NO_NOTE;
      lastSyllableStrength := 0;
      captureRemaining := 0;
      sustain := 0;
      sustainCandidate := NO_NOTE;
      sustainStableCount := 0;
    }

    /** The decision part of `calculateVocalEnvelope` for one frame. */
    method CalculateVocalEnvelope(env: real, now: u32, dominantPitch: byte, dominantPitchStrength: byte)
      modifies this
      ensures State() == VocalStep(old(State()), env, now, dominantPitch, dominantPitchStrength)
      ensures old(Inv(State())) ==> Inv(State())
    {
      ghost var s0 := State();
      var hit := env > HIT_THRESH && env - envPrev > HIT_SLOPE && Elapsed(now, lastSyllableMs) > MIN_GAP_MS;
      var curPitch: byte := NO_NOTE;
      var curStrength: byte := 0;
      if dominantPitch < 12 && dominantPitchStrength >= NOTE_MIN_STRENGTH {
        curPitch := dominantPitch;
        curStrength := dominantPitchStrength;
      }
      UpdateOnset(hit, now, curPitch, curStrength);
      UpdateSustain(env, curPitch, curStrength);
      envPrev := env;
      if Inv(s0) {
        StepPreservesInv(s0, env, now, dominantPitch, dominantPitchStrength);
      }
    }

    /** The onset branch and the late-capture branch. */
    method UpdateOnset(hit: bool, now: u32, curPitch: byte, curStrength: byte)
      modifies this
      ensures State() == OnsetStage(old(State()), hit, now, curPitch, curStrength)
    {
      syllableHit := if hit then 1 else 0;
      if hit {
        lastSyllableMs := now;
        captureRemaining := CAPTURE_FRAMES;
        if curPitch < 12 {
          noteOut := curPitch;
          noteStrength := curStrength;
          captureRemaining := 0;
        } else if sustain == 0 {
          noteOut := NO_NOTE;
          noteStrength := 0;
        }
        lastSyllableNote := noteOut;
        lastSyllableStrength := noteStrength;
      } else if captureRemaining > 0 {
        if curPitch < 12 {
          noteOut := curPitch;
          noteStrength := curStrength;
          lastSyllableNote := noteOut;
          lastSyllableStrength := noteStrength;
          captureRemaining := 0;
        } else {
          captureRemaining := captureRemaining - 1;
        }
      }
    }

    /** Sustain detection with the stable-pitch counter and the release threshold. */
    method UpdateSustain(env: real, curPitch: byte, curStrength: byte)
      modifies this
      ensures State() == SustainStage(old(State()), env, curPitch, curStrength)
    {
      if env >= SUSTAIN_THRESH && curPitch < 12 {
        if curPitch == sustainCandidate {
          if sustainStableCount < 255 {
            sustainStableCount := sustainStableCount + 1;
          }
        } else {
          sustainCandidate := curPitch;
          sustainStableCount := 1;
        }
        if sustainStableCount >= SUSTAIN_STABLE_FRAMES {
          sustain := 1;
          noteOut := curPitch;
          noteStrength := curStrength;
        }
      } else if env <= SUSTAIN_RELEASE {
        sustain := 0;
        sustainCandidate := NO_NOTE;
        sustainStableCount := 0;
        noteOut := NO_NOTE;
        noteStrength := 0;
      }
    }
  }
}
