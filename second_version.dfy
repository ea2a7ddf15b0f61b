/**
 * The blink decoder of `blink_translator.py`.
 *
 * `detect_blinks` times each blink with `blink_start_time`, where 0 means
 * that no blink is being timed, and appends a dot or a dash to `morse_code`.
 * After each call the main loop flushes the code as one letter once more
 * than two seconds have passed since `blink_start_time`.
 *
 * `detect_blinks` resets `blink_start_time` to 0 on the same frame that it
 * appends a symbol. With timestamps counted from the epoch, the flush test
 * then holds on that very frame, so each letter holds one symbol. The
 * functions ending in `AsWritten` model that behaviour. The corrected flush
 * measures the pause from the time the last symbol was added, which this
 * model keeps in `lastSymbolTime`.
 */
module SecondVersion {
  import opened Wrappers
  import opened MorseTables
  import opened MorseText
  import opened Frames

  // Thresholds of the script, converted from seconds to milliseconds.
  const DotThreshold := 200
  const DashThreshold := 600
  const LetterPause := 2000

  /**
   * The script's globals `blink_start_time` (0 when nothing is timed) and
   * `morse_code`, and the time of the last symbol, which the corrected flush reads.
   */
  datatype Globals = Globals(blinkStartTime: int, morseCode: string, lastSymbolTime: int)

  const Initial: Globals := Globals(0, "", 0)

  /** The symbol an opening after `duration` milliseconds adds: a dot, a dash, or nothing. */
  function Symbol(duration: int): (s: string)
    ensures s == "." <==> duration < DotThreshold
    ensures s == "-" <==> DotThreshold <= duration < DashThreshold
    ensures s == "" <==> duration >= DashThreshold
  {
    if duration < DotThreshold then "." else if duration < DashThreshold then "-" else ""
  }

  /** The timing part of `detect_blinks` for a frame at `now`. */
  function DetectBlinksStep(g: Globals, now: int, closed: bool): (r: Globals)
    // Closing starts the timer unless one is running; nothing else changes.
    ensures closed && g.blinkStartTime == 0 ==> r == g.(blinkStartTime := now)
    ensures closed && g.blinkStartTime != 0 ==> r == g
    // Opening with no timer running changes nothing.
    ensures !closed && g.blinkStartTime == 0 ==> r == g
    // Opening a timed blink stops the timer and appends its symbol, if any.
    ensures !closed && g.blinkStartTime != 0 ==>
      && r.blinkStartTime == 0
      && r.morseCode == g.morseCode + Symbol(now - g.blinkStartTime)
      && r.lastSymbolTime == if Symbol(now - g.blinkStartTime) == "" then g.lastSymbolTime else now
    // So the code only grows, by at most one dot or dash per frame.
    ensures |r.morseCode| <= |g.morseCode| + 1 && r.morseCode[..|g.morseCode|] == g.morseCode
    ensures DotsAndDashes(g.morseCode) ==> DotsAndDashes(r.morseCode)
  {
    if closed then
      if g.blinkStartTime == 0 then g.(blinkStartTime := now) else g
    else if g.blinkStartTime != 0 then
      var symbol := Symbol(now - g.blinkStartTime);
      Globals(0, g.morseCode + symbol, if symbol == "" then g.lastSymbolTime else now)
    else g
  }

  // ---- The flush as written ----

  /** The loop's flush test as written: a non-empty code and more than 2 s since `blink_start_time`. */
  predicate FlushDueAsWritten(g: Globals, now: int)
  {
    |g.morseCode| > 0 && now - g.blinkStartTime > LetterPause
  }

  /** The flush as written: translate the code as one letter and empty it. */
  function FlushStepAsWritten(g: Globals, now: int): (r: (Globals, Option<string>))
    ensures FlushDueAsWritten(g, now) ==> r == (g.(morseCode := ""), Some(TranslateMorseCode(g.morseCode)))
    ensures !FlushDueAsWritten(g, now) ==> r == (g, None)
  {
    if FlushDueAsWritten(g, now) then (g.(morseCode := ""), Some(TranslateMorseCode(g.morseCode))) else (g, None)
  }

  /** One face of a frame as written: `detect_blinks`, then the flush. */
  function FaceStepAsWritten(g: Globals, now: int, closed: bool): (Globals, Option<string>)
  {
    FlushStepAsWritten(DetectBlinksStep(g, now, closed), now)
  }

  /** The loop as written over a sequence of frames: the final globals and the letters printed. */
  function RunAsWritten(g: Globals, samples: seq<Sample>): (r: (Globals, seq<string>))
    decreases |samples|
  {
    if samples == [] then (g, [])
    else
      var step := FaceStepAsWritten(g, samples[0].now, samples[0].closed);
      var rest := RunAsWritten(step.0, samples[1..]);
      (rest.0, (if step.1.Some? then [step.1.value] else []) + rest.1)
  }

  /** A frame that adds a symbol flushes it at once, whenever the clock reads more than 2 s. */
  lemma FlushFollowsSymbolAsWritten(g: Globals, now: int, closed: bool)
    requires now > LetterPause
    requires |DetectBlinksStep(g, now, closed).morseCode| > |g.morseCode|
    ensures FaceStepAsWritten(g, now, closed) ==
      (DetectBlinksStep(g, now, closed).(morseCode := ""), Some(TranslateMorseCode(DetectBlinksStep(g, now, closed).morseCode)))
  {
  }

  /** With the clock past 2 s, a frame that starts with an empty code ends with one and prints at most `E` or `T`. */
  lemma SingleSymbolFlushedAsWritten(g: Globals, now: int, closed: bool)
    requires g.morseCode == "" && now > LetterPause
    ensures FaceStepAsWritten(g, now, closed).0.morseCode == ""
    ensures FaceStepAsWritten(g, now, closed).1.Some? ==>
      FaceStepAsWritten(g, now, closed).1.value == "E" || FaceStepAsWritten(g, now, closed).1.value == "T"
  {
    var detected := DetectBlinksStep(g, now, closed);
    if |detected.morseCode| > 0 {
      assert detected.morseCode == "." || detected.morseCode == "-";
      assert MorseDict(".") == Some('E') && MorseDict("-") == Some('T');
    }
  }

  /**
   * With the clock past 2 s and an empty code to start with, the code is
   * empty again after every frame and every printed letter is the letter of
   * a single dot or dash.
   */
  lemma {:induction false} LettersAreSingleSymbolsAsWritten(g: Globals, samples: seq<Sample>)
    requires g.morseCode == ""
    requires forall i | 0 <= i < |samples| :: samples[i].now > LetterPause
    ensures RunAsWritten(g, samples).0.morseCode == ""
    ensures forall i | 0 <= i < |RunAsWritten(g, samples).1| ::
      RunAsWritten(g, samples).1[i] == "E" || RunAsWritten(g, samples).1[i] == "T"
    decreases |samples|
  {
    if samples != [] {
      var s := samples[0];
      var step := FaceStepAsWritten(g, s.now, s.closed);
      SingleSymbolFlushedAsWritten(g, s.now, s.closed);
      LettersAreSingleSymbolsAsWritten(step.0, samples[1..]);
    }
  }

  /** Two dots 300 ms apart, then a pause: the script prints `E` twice, not `I`. */
  lemma TwoDotsAsWritten()
    ensures RunAsWritten(Initial, TwoDots).1 == ["E", "E"]
  {
    LettersAreSingleSymbolsAsWritten(Initial, TwoDots);
    var g1 := FaceStepAsWritten(Initial, 10000, true).0;
    assert g1 == Globals(10000, "", 0);
    var g2 := FaceStepAsWritten(g1, 10100, false);
    assert g2 == (Globals(0, "", 10100), Some("E"));
    var g3 := FaceStepAsWritten(g2.0, 10400, true).0;
    assert g3 == Globals(10400, "", 10100);
    var g4 := FaceStepAsWritten(g3, 10500, false);
    assert g4 == (Globals(0, "", 10500), Some("E"));
    var g5 := FaceStepAsWritten(g4.0, 13000, false);
    assert g5 == (g4.0, None);
    assert TwoDots[1..][1..][1..][1..][1..] == [];
  }

  /** Frames spelling `..`: two short blinks, then a pause of more than two seconds. */
  const TwoDots: seq<Sample> :=
    [Sample(10000, true), Sample(10100, false), Sample(10400, true), Sample(10500, false), Sample(13000, false)]

  // ---- The corrected flush ----

  /** The corrected test: a non-empty code and more than 2 s since its last symbol. */
  predicate FlushDue(g: Globals, now: int)
  {
    |g.morseCode| > 0 && now - g.lastSymbolTime > LetterPause
  }

  /** The corrected flush: translate the code as one letter and empty it. */
  function FlushStep(g: Globals, now: int): (r: (Globals, Option<string>))
    ensures FlushDue(g, now) ==> r == (g.(morseCode := ""), Some(TranslateMorseCode(g.morseCode)))
    ensures !FlushDue(g, now) ==> r == (g, None)
  {
    if FlushDue(g, now) then (g.(morseCode := ""), Some(TranslateMorseCode(g.morseCode))) else (g, None)
  }

  /** One face of a frame with the corrected flush. */
  function FaceStep(g: Globals, now: int, closed: bool): (Globals, Option<string>)
  {
    FlushStep(DetectBlinksStep(g, now, closed), now)
  }

  /** The loop with the corrected flush. */
  function Run(g: Globals, samples: seq<Sample>): (r: (Globals, seq<string>))
    decreases |samples|
  {
    if samples == [] then (g, [])
    else
      var step := FaceStep(g, samples[0].now, samples[0].closed);
      var rest := Run(step.0, samples[1..]);
      (rest.0, (if step.1.Some? then [step.1.value] else []) + rest.1)
  }

  /** A symbol is never flushed on the frame that adds it: the letter goes on growing. */
  lemma SymbolIsKept(g: Globals, now: int, closed: bool)
    requires |DetectBlinksStep(g, now, closed).morseCode| > |g.morseCode|
    ensures FaceStep(g, now, closed) == (DetectBlinksStep(g, now, closed), None)
  {
  }

  /** After a pause of more than 2 s since the last symbol, the whole code comes out as one letter. */
  lemma PauseEndsLetter(g: Globals, now: int)
    requires g.blinkStartTime == 0 && g.morseCode != [] && now - g.lastSymbolTime > LetterPause
    ensures FaceStep(g, now, false) == (g.(morseCode := ""), Some(TranslateMorseCode(g.morseCode)))
  {
  }

  /** The same frames as `TwoDots` now give the letter `I`. */
  lemma TwoDotsCorrected()
    ensures Run(Initial, TwoDots).1 == ["I"]
  {
    var g1 := FaceStep(Initial, 10000, true).0;
    assert g1 == Globals(10000, "", 0);
    var g2 := FaceStep(g1, 10100, false);
    assert g2 == (Globals(0, ".", 10100), None);
    var g3 := FaceStep(g2.0, 10400, true).0;
    assert g3 == Globals(10400, ".", 10100);
    var g4 := FaceStep(g3, 10500, false);
    assert "." + "." == "..";
    assert g4 == (Globals(0, "..", 10500), None);
    var g5 := FaceStep(g4.0, 13000, false);
    assert MorseDict("..") == Some('I');
    assert g5 == (Globals(0, "", 10500), Some("I"));
    assert TwoDots[1..][1..][1..][1..][1..] == [];
  }

  // ---- The globals as an object ----

  /**
   * The script's globals, updated in place. `lastSymbolTime` is not a global
   * of the script: only the corrected flush reads it. `FrameAsWritten` runs a
   * face as the script does; `Frame` runs it with the corrected flush.
   */
  class BlinkTranslator {
    var blinkStartTime: int
    var morseCode: string
    var lastSymbolTime: int
    /** Time of the last frame; frames must not go back in time. */
    ghost var clock: int

    function State(): Globals
      reads this
    {
      Globals(blinkStartTime, morseCode, lastSymbolTime)
    }

    /** The code is dots and dashes, and no recorded time lies in the future (the clock starts at 0). */
    ghost predicate Valid()
      reads this
    {
      DotsAndDashes(morseCode) && 0 <= clock && blinkStartTime <= clock && lastSymbolTime <= clock
    }

    constructor ()
      ensures Valid() && State() == Initial && clock == 0
    {
      blinkStartTime := 0;
      morseCode := "";
      lastSymbolTime := 0;
      clock := 0;
    }

    /** The timing part of `detect_blinks`; returns the code, as the script does. */
    method DetectBlinks(now: int, closed: bool) returns (code: string)
      modifies this
      ensures State() == DetectBlinksStep(old(State()), now, closed) && code == morseCode
      ensures clock == old(clock)
    {
      if closed {
        if blinkStartTime == 0 {
          blinkStartTime := now;
        }
      } else {
        if blinkStartTime != 0 {
          var blinkDuration := now - blinkStartTime;
          if blinkDuration < DotThreshold {
            morseCode := morseCode + ".";
            lastSymbolTime := now;
          } else if blinkDuration < DashThreshold {
            morseCode := morseCode + "-";
            lastSymbolTime := now;
          }
          blinkStartTime := 0;
        }
      }
      code := morseCode;
    }

    /** The flush as the script writes it, timed from `blink_start_time`; returns the printed letter. */
    method FlushLetterAsWritten(now: int) returns (letter: Option<string>)
      modifies this`morseCode
      ensures (State(), letter) == FlushStepAsWritten(old(State()), now)
    {
      letter := None;
      if |morseCode| > 0 && now - blinkStartTime > LetterPause {
        letter := Some(TranslateMorseCode(morseCode));
        morseCode := "";
      }
    }

    /** One face of a frame at `now` as the script runs it: detect, then the flush as written. */
    method FrameAsWritten(now: int, closed: bool) returns (letter: Option<string>)
      requires Valid() && clock <= now
      modifies this
      ensures Valid() && clock == now
      ensures (State(), letter) == FaceStepAsWritten(old(State()), now, closed)
    {
      var code := DetectBlinks(now, closed);
      letter := FlushLetterAsWritten(now);
      clock := now;
    }

    /** The corrected flush; returns the printed letter when the letter ends. */
    method FlushLetter(now: int) returns (letter: Option<string>)
      modifies this
      ensures (State(), letter) == FlushStep(old(State()), now)
      ensures clock == old(clock)
    {
      letter := None;
      if |morseCode| > 0 && now - lastSymbolTime > LetterPause {
        letter := Some(TranslateMorseCode(morseCode));
        morseCode := "";
      }
    }

    /** One face of a frame at `now`: detect, then flush. */
    method Frame(now: int, closed: bool) returns (letter: Option<string>)
      requires Valid() && clock <= now
      modifies this
      ensures Valid() && clock == now
      ensures (State(), letter) == FaceStep(old(State()), now, closed)
    {
      var code := DetectBlinks(now, closed);
      letter := FlushLetter(now);
      clock := now;
    }
  }
}
