/**
 * The blink decoder of `prototype_blink_translator.py`.
 *
 * The script keeps its state in module globals and runs one loop body per
 * camera frame in which a face is found. The eye-opening ratio of the frame
 * goes into a window of the last three ratios; their average against 35 says
 * whether the eyes are closed. An edge on that signal starts or ends a timed
 * blink. `record_blink` turns a finished blink into a word toggle, a dot, a
 * dash or nothing. A pause of more than 1700 ms after the last blink closes
 * the letter.
 *
 * The specification functions below work on a `Decoder` value holding the
 * globals. The class `PrototypeTranslator` holds the same globals as fields
 * and updates them in place, as the script does. Its methods are proved to
 * follow the functions.
 */
module Prototype {
  import opened Wrappers
  import opened PyStr
  import opened MorseTables
  import opened MorseText
  import opened Frames

  // Thresholds of the script, in milliseconds, and the eye-ratio threshold.
  const DotThreshold := 350
  const DashThreshold := 650
  const StartStopThreshold := 4000
  const LetterGapThreshold := 1700
  const RatioThreshold := 35
  const RatioWindow := 3

  /** The four branches of `record_blink`, in the order it tests them. */
  datatype BlinkKind = WordToggle | Dot | Dash | DeadZone

  /** Which branch of `record_blink` a blink of `duration` milliseconds takes. */
  function Classify(duration: int): (k: BlinkKind)
    ensures k == WordToggle <==> duration >= StartStopThreshold
    ensures k == Dot <==> duration <= DotThreshold
    ensures k == Dash <==> DashThreshold <= duration < StartStopThreshold
    ensures k == DeadZone <==> DotThreshold < duration < DashThreshold
  {
    if duration >= StartStopThreshold then WordToggle
    else if duration <= DotThreshold then Dot
    else if duration >= DashThreshold then Dash
    else DeadZone
  }

  /** The globals the decoder reads and writes, `ratioList` aside. */
  datatype Decoder = Decoder(
    eyesClosed: bool,
    blinkStartTime: Option<int>,
    blinkCounter: nat,
    blinks: string,
    lastBlinkTime: Option<int>,
    isBuildingWord: bool,
    currentWord: seq<string>)

  /** The globals as the script initialises them. */
  const Initial: Decoder := Decoder(false, None, 0, "", None, false, [])

  /** What one frame reports: the blink duration, the finished word and the decoded letter, each when printed. */
  datatype FrameOutput = FrameOutput(blinkDuration: Option<int>, finalWord: Option<string>, decodedLetter: Option<string>)

  /**
   * `record_blink` for a blink of `duration` milliseconds: the new globals and
   * the word it prints when word building ends.
   */
  function RecordBlinkStep(d: Decoder, duration: int): (r: (Decoder, Option<string>))
    // Only the word-building globals can change; the blink timer is not among them.
    ensures r.0.eyesClosed == d.eyesClosed && r.0.blinkStartTime == d.blinkStartTime
    ensures r.0.blinkCounter == d.blinkCounter && r.0.lastBlinkTime == d.lastBlinkTime
    // A long blink flips word building and leaves the symbols alone; ending a
    // word emits its letters and empties it, starting one keeps it.
    ensures duration >= StartStopThreshold ==>
      && r.0.isBuildingWord == !d.isBuildingWord
      && r.0.blinks == d.blinks
      && (d.isBuildingWord ==> r.0.currentWord == [] && r.1 == Some(Concat(d.currentWord)))
      && (!d.isBuildingWord ==> r.0.currentWord == d.currentWord && r.1 == None)
    // A shorter blink adds at most one symbol, and only while building.
    ensures duration < StartStopThreshold ==>
      && r.1 == None && r.0.isBuildingWord == d.isBuildingWord && r.0.currentWord == d.currentWord
    ensures duration < StartStopThreshold && d.isBuildingWord && duration <= DotThreshold ==>
      r.0.blinks == d.blinks + "."
    ensures duration < StartStopThreshold && d.isBuildingWord && duration >= DashThreshold ==>
      r.0.blinks == d.blinks + "-"
    ensures duration < StartStopThreshold && (!d.isBuildingWord || DotThreshold < duration < DashThreshold) ==>
      r.0 == d
  {
    match Classify(duration)
    case WordToggle =>
      if d.isBuildingWord then (d.(isBuildingWord := false, currentWord := []), Some(Concat(d.currentWord)))
      else (d.(isBuildingWord := true), None)
    case Dot => (if d.isBuildingWord then d.(blinks := d.blinks + ".") else d, None)
    case Dash => (if d.isBuildingWord then d.(blinks := d.blinks + "-") else d, None)
    case DeadZone => (d, None)
  }

  /**
   * The edge-triggered part of the loop body: closing starts the timer and
   * counts a blink, opening records the blink and restarts the letter gap.
   * Returns the new globals, the recorded duration and the printed word.
   */
  function TransitionStep(d: Decoder, now: int, closed: bool): (r: (Decoder, Option<int>, Option<string>))
    // No edge, no change: a repeated observation neither restarts the timer nor counts again.
    ensures closed == d.eyesClosed ==> r == (d, None, None)
    ensures closed && !d.eyesClosed ==>
      r == (d.(eyesClosed := true, blinkStartTime := Some(now), blinkCounter := d.blinkCounter + 1), None, None)
    // On opening, exactly one blink of `now - start` milliseconds is recorded.
    ensures !closed && d.eyesClosed && d.blinkStartTime.Some? ==>
      var (recorded, word) := RecordBlinkStep(d.(eyesClosed := false), now - d.blinkStartTime.value);
      r == (recorded.(blinkStartTime := None, lastBlinkTime := Some(now)), Some(now - d.blinkStartTime.value), word)
    ensures r.0.blinkCounter >= d.blinkCounter
  {
    if closed && !d.eyesClosed then
      (d.(eyesClosed := true, blinkStartTime := Some(now), blinkCounter := d.blinkCounter + 1), None, None)
    else if !closed && d.eyesClosed then
      var afterOpen := d.(eyesClosed := false);
      match d.blinkStartTime
      case Some(start) =>
        var (recorded, word) := RecordBlinkStep(afterOpen, now - start);
        (recorded.(lastBlinkTime := Some(now), blinkStartTime := None), Some(now - start), word)
      case None => (afterOpen, None, None)
    else (d, None, None)
  }

  /** The test `if last_blink_time and now - last_blink_time > 1700`, with Python's truth value of a number. */
  predicate GapElapsed(d: Decoder, now: int)
  {
    d.lastBlinkTime.Some? && d.lastBlinkTime.value != 0 && now - d.lastBlinkTime.value > LetterGapThreshold
  }

  /**
   * The letter gap check: after a long enough pause the symbols become a
   * letter of the word (when building), and the pause timer is cleared.
   */
  function GapCheckStep(d: Decoder, now: int): (r: (Decoder, Option<string>))
    ensures !GapElapsed(d, now) ==> r == (d, None)
    ensures GapElapsed(d, now) ==> r.0.lastBlinkTime == None
    ensures GapElapsed(d, now) && d.blinks != [] && d.isBuildingWord ==>
      var letter := MorseToText(d.blinks);
      r == (d.(currentWord := d.currentWord + [letter], blinks := "", lastBlinkTime := None), Some(letter))
    ensures GapElapsed(d, now) && (d.blinks == [] || !d.isBuildingWord) ==>
      r == (d.(lastBlinkTime := None), None)
  {
    if GapElapsed(d, now) then
      if d.blinks != [] && d.isBuildingWord then
        var letter := MorseToText(d.blinks);
        (d.(currentWord := d.currentWord + [letter], blinks := "", lastBlinkTime := None), Some(letter))
      else (d.(lastBlinkTime := None), None)
    else (d, None)
  }

  /** One loop body on a frame with a face: the transition step, then the gap check. */
  function FrameStep(d: Decoder, now: int, closed: bool): (Decoder, FrameOutput)
  {
    var (afterEdge, duration, word) := TransitionStep(d, now, closed);
    var (afterGap, letter) := GapCheckStep(afterEdge, now);
    (afterGap, FrameOutput(duration, word, letter))
  }

  /** The loop over a sequence of frames: the final globals and what each frame reported. */
  function Run(d: Decoder, samples: seq<Sample>): (r: (Decoder, seq<FrameOutput>))
    ensures |r.1| == |samples|
    decreases |samples|
  {
    if samples == [] then (d, [])
    else
      var step := FrameStep(d, samples[0].now, samples[0].closed);
      var rest := Run(step.0, samples[1..]);
      (rest.0, [step.1] + rest.1)
  }

  /**
   * What the loop keeps true of the globals, given the time `clock` of the last
   * frame: the timer runs exactly while the eyes are closed, the symbols are
   * dots and dashes, and no recorded time lies in the future.
   */
  ghost predicate Consistent(d: Decoder, clock: int)
  {
    && (d.eyesClosed <==> d.blinkStartTime.Some?)
    && DotsAndDashes(d.blinks)
    && (d.blinkStartTime.Some? ==> d.blinkStartTime.value <= clock)
    && (d.lastBlinkTime.Some? ==> d.lastBlinkTime.value <= clock)
  }

  /** A decoded letter: one character, a key of `morse_code_dict` (the placeholder `?` is one). */
  ghost predicate IsDecodedLetter(s: string)
  {
    |s| == 1 && s[0] != ' ' && MorseCodeDict(s[0]).Some?
  }

  /** Every letter of the word under construction is a decoded letter. */
  ghost predicate LettersDecoded(d: Decoder)
  {
    forall i | 0 <= i < |d.currentWord| :: IsDecodedLetter(d.currentWord[i])
  }

  lemma InitialConsistent()
    ensures Consistent(Initial, 0) && LettersDecoded(Initial)
  {
  }

  /** A flushed letter is a single decoded character: the key whose code the symbols are, or `?`. */
  lemma GapCheckLetter(d: Decoder, now: int)
    requires DotsAndDashes(d.blinks)
    ensures GapCheckStep(d, now).1.Some? ==> IsDecodedLetter(GapCheckStep(d, now).1.value)
    ensures GapCheckStep(d, now).1.Some? && InvertedMorseCodeDict(d.blinks).Some? ==>
      GapCheckStep(d, now).1.value == [InvertedMorseCodeDict(d.blinks).value]
    ensures GapCheckStep(d, now).1.Some? && InvertedMorseCodeDict(d.blinks).None? ==>
      GapCheckStep(d, now).1.value == "?"
  {
    if GapCheckStep(d, now).1.Some? {
      MorseToTextOfOneCode(d.blinks);
      DecodedCodeIsKey(d.blinks);
    }
  }

  /** An edge keeps the globals consistent, records only a non-negative duration and leaves the word's letters decoded. */
  lemma TransitionKeepsConsistent(d: Decoder, clock: int, now: int, closed: bool)
    requires Consistent(d, clock) && clock <= now
    ensures Consistent(TransitionStep(d, now, closed).0, now)
    ensures TransitionStep(d, now, closed).1.Some? ==> TransitionStep(d, now, closed).1.value >= 0
    ensures LettersDecoded(d) ==> LettersDecoded(TransitionStep(d, now, closed).0)
  {
    var (afterEdge, duration, word) := TransitionStep(d, now, closed);
    assert DotsAndDashes(afterEdge.blinks) by {
      if afterEdge.blinks != d.blinks {
        assert afterEdge.blinks == d.blinks + "." || afterEdge.blinks == d.blinks + "-";
      }
    }
  }

  /** The gap check keeps the globals consistent and appends only decoded letters. */
  lemma GapKeepsConsistent(d: Decoder, now: int)
    requires Consistent(d, now)
    ensures Consistent(GapCheckStep(d, now).0, now)
    ensures LettersDecoded(d) ==> LettersDecoded(GapCheckStep(d, now).0)
  {
    GapCheckLetter(d, now);
  }

  /**
   * Every frame keeps the globals consistent, records only non-negative
   * durations and appends only decoded letters to the word.
   */
  lemma FrameKeepsConsistent(d: Decoder, clock: int, now: int, closed: bool)
    requires Consistent(d, clock) && clock <= now
    ensures Consistent(FrameStep(d, now, closed).0, now)
    ensures FrameStep(d, now, closed).1.blinkDuration.Some? ==> FrameStep(d, now, closed).1.blinkDuration.value >= 0
    ensures LettersDecoded(d) ==> LettersDecoded(FrameStep(d, now, closed).0)
  {
    TransitionKeepsConsistent(d, clock, now, closed);
    GapKeepsConsistent(TransitionStep(d, now, closed).0, now);
  }

  /** Closed frames while the eyes are already closed change no blink state and record nothing. */
  lemma {:induction false} ClosedFramesKeepTimer(d: Decoder, times: seq<int>)
    requires d.eyesClosed
    ensures var (last, outs) := Run(d, ClosedSamples(times));
      && last.eyesClosed && last.blinkStartTime == d.blinkStartTime && last.blinkCounter == d.blinkCounter
      && forall i | 0 <= i < |outs| :: outs[i].blinkDuration == None
    decreases |times|
  {
    if times != [] {
      assert ClosedSamples(times)[1..] == ClosedSamples(times[1..]);
      ClosedFramesKeepTimer(FrameStep(d, times[0], true).0, times[1..]);
    }
  }

  /** Closed samples at the given times. */
  function ClosedSamples(times: seq<int>): (r: seq<Sample>)
    ensures |r| == |times|
    ensures forall i | 0 <= i < |times| :: r[i] == Sample(times[i], true)
  {
    seq(|times|, i requires 0 <= i < |times| => Sample(times[i], true))
  }

  /** Running a single frame is one frame step. */
  lemma RunOne(d: Decoder, s: Sample)
    ensures Run(d, [s]) == (FrameStep(d, s.now, s.closed).0, [FrameStep(d, s.now, s.closed).1])
  {
    var next := FrameStep(d, s.now, s.closed).0;
    var out := FrameStep(d, s.now, s.closed).1;
    assert [s][1..] == [];
    assert Run(next, []) == (next, []);
    assert [out] + [] == [out];
  }

  /** Running two sequences of frames is running their concatenation. */
  lemma {:induction false} RunAppend(d: Decoder, a: seq<Sample>, b: seq<Sample>)
    ensures Run(d, a + b) == (Run(Run(d, a).0, b).0, Run(d, a).1 + Run(Run(d, a).0, b).1)
    decreases |a|
  {
    if a != [] {
      var step := FrameStep(d, a[0].now, a[0].closed);
      assert (a + b)[0] == a[0] && (a + b)[1..] == a[1..] + b;
      RunAppend(step.0, a[1..], b);
      var mid := Run(step.0, a[1..]);
      var tail := Run(mid.0, b);
      assert Run(d, a) == (mid.0, [step.1] + mid.1);
      assert Run(d, a + b) == (tail.0, [step.1] + (mid.1 + tail.1));
      assert [step.1] + (mid.1 + tail.1) == ([step.1] + mid.1) + tail.1;
    } else {
      assert a + b == b;
      assert Run(d, a).1 + Run(d, b).1 == Run(d, b).1;
    }
  }

  /**
   * A closed interval, however many closed frames it spans, ends with exactly
   * one recorded blink, timed from its first closed frame to the frame the
   * eyes open, and counts one blink.
   */
  lemma OneBlinkPerClosedInterval(d: Decoder, start: int, times: seq<int>, end: int)
    requires !d.eyesClosed
    ensures var (last, outs) := Run(d, [Sample(start, true)] + ClosedSamples(times) + [Sample(end, false)]);
      && last.blinkCounter == d.blinkCounter + 1
      && !last.eyesClosed && last.blinkStartTime == None && last.lastBlinkTime == Some(end)
      && |outs| == |times| + 2
      && (forall i | 0 <= i < |outs| - 1 :: outs[i].blinkDuration == None)
      && outs[|outs| - 1].blinkDuration == Some(end - start)
  {
    var first := [Sample(start, true)];
    var middle := ClosedSamples(times);
    var d1 := FrameStep(d, start, true).0;
    RunOne(d, Sample(start, true));
    ClosedFramesKeepTimer(d1, times);
    RunAppend(d, first, middle);
    RunAppend(d, first + middle, [Sample(end, false)]);
    var d2 := Run(d, first + middle).0;
    RunOne(d2, Sample(end, false));
  }

  /** After a gap check has fired, further checks do nothing until a new blink sets the timer. */
  lemma GapCheckIdempotent(d: Decoder, now: int, later: int)
    requires GapElapsed(d, now)
    ensures GapCheckStep(GapCheckStep(d, now).0, later) == (GapCheckStep(d, now).0, None)
  {
  }

  /** Without a new blink, a frame after a fired gap check decodes nothing and keeps the timer clear. */
  lemma NoLetterWithoutBlink(d: Decoder, now: int, closed: bool)
    requires d.lastBlinkTime == None && !(d.eyesClosed && !closed)
    ensures FrameStep(d, now, closed).0.lastBlinkTime == None
    ensures FrameStep(d, now, closed).1.decodedLetter == None
  {
  }

  // ---- Runs of several frames ----

  /** The output of a frame that prints nothing. */
  const Quiet := FrameOutput(None, None, None)

  /** Closing the open eyes starts the timer and counts a blink, when no letter gap ends at that frame. */
  lemma CloseStep(d: Decoder, close: int)
    requires !d.eyesClosed && !GapElapsed(d, close)
    ensures FrameStep(d, close, true) ==
      (d.(eyesClosed := true, blinkStartTime := Some(close), blinkCounter := d.blinkCounter + 1), Quiet)
  {
  }

  /** Opening the eyes records the blink and sets the gap timer, so no letter ends at that frame. */
  lemma OpenStep(d: Decoder, start: int, open: int)
    requires d.eyesClosed && d.blinkStartTime == Some(start)
    ensures var (recorded, word) := RecordBlinkStep(d.(eyesClosed := false, blinkStartTime := None), open - start);
      FrameStep(d, open, false) ==
        (recorded.(lastBlinkTime := Some(open)), FrameOutput(Some(open - start), word, None))
  {
    var (recorded, word) := RecordBlinkStep(d.(eyesClosed := false, blinkStartTime := None), open - start);
    assert RecordBlinkStep(d.(eyesClosed := false), open - start) == (recorded.(blinkStartTime := Some(start)), word);
  }

  /** A blink of the open eyes, from `close` to `open`, when no letter gap ends at `close`. */
  lemma BlinkRun(d: Decoder, close: int, open: int)
    requires !d.eyesClosed && d.blinkStartTime == None && !GapElapsed(d, close)
    ensures var (recorded, word) := RecordBlinkStep(d.(blinkCounter := d.blinkCounter + 1), open - close);
      Run(d, [Sample(close, true), Sample(open, false)]) ==
        (recorded.(lastBlinkTime := Some(open)), [Quiet, FrameOutput(Some(open - close), word, None)])
  {
    CloseStep(d, close);
    var d1 := FrameStep(d, close, true).0;
    OpenStep(d1, close, open);
    assert d1.(eyesClosed := false, blinkStartTime := None) == d.(blinkCounter := d.blinkCounter + 1);
    RunOne(d1, Sample(open, false));
    RunOne(d, Sample(close, true));
    RunAppend(d, [Sample(close, true)], [Sample(open, false)]);
    assert [Sample(close, true)] + [Sample(open, false)] == [Sample(close, true), Sample(open, false)];
    assert [Quiet] + [FrameStep(d1, open, false).1] == [Quiet, FrameStep(d1, open, false).1];
  }

  /**
   * A word-ending blink that starts before the letter gap has elapsed, and is
   * seen only on its closing and opening frames, prints the word without the
   * pending symbols and keeps them: the next word starts with them.
   */
  lemma WordEndKeepsPendingSymbols(d: Decoder, close: int, open: int, later: int)
    requires !d.eyesClosed && d.blinkStartTime == None && !GapElapsed(d, close)
    requires d.isBuildingWord && open - close >= StartStopThreshold
    ensures var (last, outs) := Run(d, [Sample(close, true), Sample(open, false)]);
      && outs[1].finalWord == Some(Concat(d.currentWord))
      && !last.isBuildingWord && last.currentWord == [] && last.blinks == d.blinks
      && GapCheckStep(last, later).0.blinks == d.blinks
  {
    BlinkRun(d, close, open);
  }

  /**
   * The gap check also runs on closed frames: a closed frame of a word-ending
   * blink that comes after the letter gap decodes the pending symbols, and the
   * word printed at the reopening contains them.
   */
  lemma GapDuringLongBlink(d: Decoder, close: int, mid: int, open: int)
    requires !d.eyesClosed && d.blinkStartTime == None && !GapElapsed(d, close) && GapElapsed(d, mid)
    requires d.isBuildingWord && d.blinks != [] && open - close >= StartStopThreshold
    ensures var (last, outs) := Run(d, [Sample(close, true), Sample(mid, true), Sample(open, false)]);
      && outs[1].decodedLetter == Some(MorseToText(d.blinks))
      && outs[2].finalWord == Some(Concat(d.currentWord + [MorseToText(d.blinks)]))
      && !last.isBuildingWord && last.currentWord == [] && last.blinks == ""
  {
    var a, b, c := Sample(close, true), Sample(mid, true), Sample(open, false);
    var letter := MorseToText(d.blinks);
    CloseStep(d, close);
    var d1 := FrameStep(d, close, true).0;
    var d2 := d1.(currentWord := d.currentWord + [letter], blinks := "", lastBlinkTime := None);
    assert FrameStep(d1, mid, true) == (d2, FrameOutput(None, None, Some(letter)));
    OpenStep(d2, close, open);
    RunOne(d, a);
    RunOne(d1, b);
    RunOne(d2, c);
    RunAppend(d1, [b], [c]);
    assert [b] + [c] == [b, c];
    RunAppend(d, [a], [b, c]);
    assert [a] + [b, c] == [a, b, c];
  }

  /**
   * Symbols left pending when a word ends start the next word: a blink that
   * starts a word, followed by a pause, decodes them as its first letter.
   */
  lemma PendingSymbolsStartNextWord(d: Decoder, close: int, open: int, pause: int)
    requires !d.eyesClosed && d.blinkStartTime == None && d.lastBlinkTime == None
    requires !d.isBuildingWord && d.blinks != []
    requires open - close >= StartStopThreshold && open != 0 && pause - open > LetterGapThreshold
    ensures var (last, outs) := Run(d, [Sample(close, true), Sample(open, false), Sample(pause, false)]);
      && outs[2].decodedLetter == Some(MorseToText(d.blinks))
      && last.isBuildingWord && last.currentWord == d.currentWord + [MorseToText(d.blinks)] && last.blinks == ""
  {
    var blink, rest := [Sample(close, true), Sample(open, false)], [Sample(pause, false)];
    BlinkRun(d, close, open);
    var d2 := Run(d, blink).0;
    assert d2.isBuildingWord && d2.blinks == d.blinks && d2.currentWord == d.currentWord;
    PauseRun(d2, pause);
    RunAppend(d, blink, rest);
    assert blink + rest == [Sample(close, true), Sample(open, false), Sample(pause, false)];
  }

  /** A pause of the open eyes that ends a letter while building a word. */
  lemma PauseRun(d: Decoder, now: int)
    requires !d.eyesClosed && GapElapsed(d, now) && d.blinks != [] && d.isBuildingWord
    ensures Run(d, [Sample(now, false)]) ==
      (d.(currentWord := d.currentWord + [MorseToText(d.blinks)], blinks := "", lastBlinkTime := None),
       [FrameOutput(None, None, Some(MorseToText(d.blinks)))])
  {
    RunOne(d, Sample(now, false));
  }

  /**
   * Frames spelling the one-letter word `S` from time `t`: a long blink
   * starts the word, three short blinks give `...`, a pause ends the letter
   * and a second long blink ends the word.
   */
  function SpellS(t: int): seq<Sample>
  {
    [Sample(t, true), Sample(t + 4200, false)]
    + [Sample(t + 4300, true), Sample(t + 4500, false)]
    + [Sample(t + 4700, true), Sample(t + 4900, false)]
    + [Sample(t + 5100, true), Sample(t + 5300, false)]
    + [Sample(t + 7100, false)]
    + [Sample(t + 7200, true), Sample(t + 11400, false)]
  }

  /** A dot blink while building a word, less than 1700 ms after the previous blink. */
  lemma DotRun(d: Decoder, close: int)
    requires !d.eyesClosed && d.blinkStartTime == None && d.isBuildingWord
    requires d.lastBlinkTime.Some? && close - d.lastBlinkTime.value <= LetterGapThreshold
    ensures Run(d, [Sample(close, true), Sample(close + 200, false)]) ==
      (d.(blinkCounter := d.blinkCounter + 1, blinks := d.blinks + ".", lastBlinkTime := Some(close + 200)),
       [Quiet, FrameOutput(Some(200), None, None)])
  {
    BlinkRun(d, close, close + 200);
  }

  /** The first eight frames of `SpellS` start a word and record three dots. */
  lemma SpellsSPrefix(t: int)
    requires t >= 0
    ensures Run(Initial, SpellS(t)[..8]).0 == Decoder(false, None, 4, "...", Some(t + 5300), true, [])
    ensures |Run(Initial, SpellS(t)[..8]).1| == 8
  {
    var p1 := [Sample(t, true), Sample(t + 4200, false)];
    var p2 := [Sample(t + 4300, true), Sample(t + 4500, false)];
    var p3 := [Sample(t + 4700, true), Sample(t + 4900, false)];
    var p4 := [Sample(t + 5100, true), Sample(t + 5300, false)];
    assert SpellS(t)[..8] == p1 + p2 + p3 + p4;
    BlinkRun(Initial, t, t + 4200);
    var d2 := Decoder(false, None, 1, "", Some(t + 4200), true, []);
    assert Run(Initial, p1).0 == d2;
    DotRun(d2, t + 4300);
    var d4 := Run(d2, p2).0;
    DotRun(d4, t + 4700);
    var d6 := Run(d4, p3).0;
    DotRun(d6, t + 5100);
    assert "" + "." + "." + "." == "...";
    RunAppend(Initial, p1, p2);
    RunAppend(Initial, p1 + p2, p3);
    RunAppend(Initial, p1 + p2 + p3, p4);
  }

  /** The pause after the dots adds the letter `S` to the word. */
  lemma PauseDecodesS(t: int)
    requires t >= 0
    ensures Run(Decoder(false, None, 4, "...", Some(t + 5300), true, []), [Sample(t + 7100, false)]) ==
      (Decoder(false, None, 4, "", None, true, ["S"]), [FrameOutput(None, None, Some("S"))])
  {
    var d8 := Decoder(false, None, 4, "...", Some(t + 5300), true, []);
    PauseRun(d8, t + 7100);
    ThreeDotsAreS();
    assert d8.currentWord + [MorseToText(d8.blinks)] == ["S"];
  }

  /** The closing long blink prints the word `S`. */
  lemma LongBlinkEndsWordS(t: int)
    ensures Run(Decoder(false, None, 4, "", None, true, ["S"]), [Sample(t + 7200, true), Sample(t + 11400, false)]) ==
      (Decoder(false, None, 5, "", Some(t + 11400), false, []), [Quiet, FrameOutput(Some(4200), Some("S"), None)])
  {
    BlinkRun(Decoder(false, None, 4, "", None, true, ["S"]), t + 7200, t + 11400);
    assert Concat(["S"]) == "S";
  }

  /** End to end: the frames of `SpellS` print the letter `S` on frame 8 and the word `S` on frame 10. */
  lemma SpellsS(t: int)
    requires t >= 0
    ensures Run(Initial, SpellS(t)).0 == Decoder(false, None, 5, "", Some(t + 11400), false, [])
    ensures Run(Initial, SpellS(t)).1[8] == FrameOutput(None, None, Some("S"))
    ensures Run(Initial, SpellS(t)).1[10] == FrameOutput(Some(4200), Some("S"), None)
  {
    var prefix := SpellS(t)[..8];
    var p5 := [Sample(t + 7100, false)];
    var p6 := [Sample(t + 7200, true), Sample(t + 11400, false)];
    assert SpellS(t) == prefix + p5 + p6;
    SpellsSPrefix(t);
    PauseDecodesS(t);
    LongBlinkEndsWordS(t);
    RunAppend(Initial, prefix, p5);
    RunAppend(Initial, prefix + p5, p6);
  }
  // ---- The ratio window of lines 103-109 ----

  /** `ratioList.append(ratio)` followed by `pop(0)` when the list is longer than three. */
  function PushRatio(ratios: seq<int>, ratio: int): (r: seq<int>)
    ensures |r| == if |ratios| < RatioWindow then |ratios| + 1 else |ratios|
    ensures r[|r| - 1] == ratio
  {
    var appended := ratios + [ratio];
    if |appended| > RatioWindow then appended[1..] else appended
  }

  /** `sum` of a list of ratios. */
  function Sum(s: seq<int>): int
  {
    if s == [] then 0 else Sum(s[..|s| - 1]) + s[|s| - 1]
  }

  /** `ratioAvg < 35` stated on integers: the sum is below 35 times the length. */
  predicate RatioSaysClosed(ratios: seq<int>)
  {
    Sum(ratios) < RatioThreshold * |ratios|
  }

  /** The integer test agrees with the script's average, computed here in exact arithmetic. */
  lemma RatioTestIsAverageTest(ratios: seq<int>)
    requires ratios != []
    ensures (Sum(ratios) as real) / (|ratios| as real) < RatioThreshold as real <==> RatioSaysClosed(ratios)
  {
    var n := |ratios| as real;
    var avg := (Sum(ratios) as real) / n;
    assert avg * n == Sum(ratios) as real;
    assert avg < RatioThreshold as real <==> avg * n < (RatioThreshold as real) * n;
  }

  /** The window after the ratios of `history` have arrived, starting from the empty list. */
  function WindowAfter(history: seq<int>): seq<int>
  {
    if history == [] then [] else PushRatio(WindowAfter(history[..|history| - 1]), history[|history| - 1])
  }

  /** `window` holds the last three ratios of `history`, or all of them when fewer arrived, in arrival order. */
  predicate HoldsLatest(window: seq<int>, history: seq<int>)
  {
    |window| == (if |history| < RatioWindow then |history| else RatioWindow) &&
    window == history[|history| - |window|..]
  }

  /** Pushing the next ratio keeps the window holding the latest ratios. */
  lemma PushKeepsLatest(window: seq<int>, history: seq<int>, ratio: int)
    requires HoldsLatest(window, history)
    ensures HoldsLatest(PushRatio(window, ratio), history + [ratio])
  {
    var h := history + [ratio];
    var k := |history| - |window|;
    assert window + [ratio] == h[k..];
    if |window| + 1 > RatioWindow {
      assert PushRatio(window, ratio) == h[k..][1..];
      assert h[k..][1..] == h[k + 1..];
    } else {
      assert PushRatio(window, ratio) == h[k..];
    }
  }

  /** The window built from the empty list holds the latest ratios. */
  lemma {:induction false} WindowHoldsLatest(history: seq<int>)
    ensures HoldsLatest(WindowAfter(history), history)
  {
    if history != [] {
      var prefix := history[..|history| - 1];
      var x := history[|history| - 1];
      WindowHoldsLatest(prefix);
      PushKeepsLatest(WindowAfter(prefix), prefix, x);
      assert prefix + [x] == history;
    }
  }

  // ---- The globals as an object ----

  /** The script's globals, updated in place frame by frame. */
  class PrototypeTranslator {
    var ratioList: seq<int>
    var blinkCounter: nat
    var blinkStartTime: Option<int>
    var blinks: string
    var lastBlinkTime: Option<int>
    var eyesClosed: bool
    var isBuildingWord: bool
    var currentWord: seq<string>
    /** Time of the last frame; frames must not go back in time. */
    ghost var clock: int
    /** Every ratio that has arrived. */
    ghost var ratioHistory: seq<int>

    function State(): Decoder
      reads this`eyesClosed, this`blinkStartTime, this`blinkCounter, this`blinks, this`lastBlinkTime
      reads this`isBuildingWord, this`currentWord
    {
      Decoder(eyesClosed, blinkStartTime, blinkCounter, blinks, lastBlinkTime, isBuildingWord, currentWord)
    }

    ghost predicate Valid()
      reads this
    {
      Consistent(State(), clock) && HoldsLatest(ratioList, ratioHistory)
    }

    constructor ()
      ensures Valid() && State() == Initial && ratioList == [] && ratioHistory == [] && clock == 0
    {
      ratioList := [];
      blinkCounter := 0;
      blinkStartTime := None;
      blinks := "";
      lastBlinkTime := None;
      eyesClosed := false;
      isBuildingWord := false;
      currentWord := [];
      clock := 0;
      ratioHistory := [];
    }

    /** `record_blink(startTime)` with the clock read as `now`; returns the word it prints, if any. */
    method RecordBlink(startTime: int, now: int) returns (finalWord: Option<string>)
      modifies this`isBuildingWord, this`currentWord, this`blinks
      ensures (State(), finalWord) == RecordBlinkStep(old(State()), now - startTime)
    {
      var blinkDuration := now - startTime;
      finalWord := None;
      if blinkDuration >= StartStopThreshold {
        if isBuildingWord {
          finalWord := Some(Concat(currentWord));
          currentWord := [];
        }
        isBuildingWord := !isBuildingWord;
      } else if isBuildingWord {
        if blinkDuration <= DotThreshold {
          blinks := blinks + ".";
        } else if blinkDuration >= DashThreshold {
          blinks := blinks + "-";
        }
      }
      // The closing `blink_start_time = None` of the script binds a local
      // name, so the global timer is left as it is here.
    }

    /** prototype_blink_translator.py:103-109: add the frame's ratio to the window and test its average. */
    method ObserveRatio(ratio: int) returns (closed: bool)
      requires Valid()
      modifies this`ratioList, this`ratioHistory
      ensures Valid()
      ensures ratioList == PushRatio(old(ratioList), ratio) && ratioHistory == old(ratioHistory) + [ratio]
      ensures |ratioList| <= RatioWindow && ratioList[|ratioList| - 1] == ratio
      ensures closed == RatioSaysClosed(ratioList)
    {
      PushKeepsLatest(ratioList, ratioHistory, ratio);
      ratioHistory := ratioHistory + [ratio];
      ratioList := ratioList + [ratio];
      if |ratioList| > RatioWindow {
        ratioList := ratioList[1..];
      }
      closed := Sum(ratioList) < RatioThreshold * |ratioList|;
    }

    /** prototype_blink_translator.py:109-121: act on an edge of the closed/open signal; returns the recorded duration and printed word. */
    method Transition(now: int, closed: bool) returns (blinkDuration: Option<int>, finalWord: Option<string>)
      modifies this`eyesClosed, this`blinkStartTime, this`blinkCounter, this`lastBlinkTime
      modifies this`isBuildingWord, this`currentWord, this`blinks
      ensures (State(), blinkDuration, finalWord) == TransitionStep(old(State()), now, closed)
    {
      blinkDuration := None;
      finalWord := None;
      if closed && !eyesClosed {
        eyesClosed := true;
        blinkStartTime := Some(now);
        blinkCounter := blinkCounter + 1;
      } else if !closed && eyesClosed {
        eyesClosed := false;
        if blinkStartTime.Some? {
          var start := blinkStartTime.value;
          blinkDuration := Some(now - start);
          finalWord := RecordBlink(start, now);
          lastBlinkTime := Some(now);
          blinkStartTime := None;
        }
      }
    }

    /** prototype_blink_translator.py:124-131: close the letter after a long enough pause; returns the letter when one is decoded. */
    method CheckLetterGap(now: int) returns (decodedLetter: Option<string>)
      modifies this`lastBlinkTime, this`blinks, this`currentWord
      ensures (State(), decodedLetter) == GapCheckStep(old(State()), now)
    {
      decodedLetter := None;
      if lastBlinkTime.Some? && lastBlinkTime.value != 0 && now - lastBlinkTime.value > LetterGapThreshold {
        if blinks != [] && isBuildingWord {
          var morseCode := blinks;
          var letter := DecodeMessage(morseCode);
          decodedLetter := Some(letter);
          currentWord := currentWord + [letter];
          blinks := "";
        }
        lastBlinkTime := None;
      }
    }

    /** prototype_blink_translator.py:109-131 for a frame at time `now`: the transition step, then the letter gap check. */
    method Frame(now: int, closed: bool) returns (out: FrameOutput)
      requires Valid() && clock <= now
      modifies this
      ensures Valid() && clock == now
      ensures (State(), out) == FrameStep(old(State()), now, closed)
      ensures ratioList == old(ratioList) && ratioHistory == old(ratioHistory)
    {
      FrameKeepsConsistent(State(), clock, now, closed);
      var blinkDuration, finalWord := Transition(now, closed);
      var decodedLetter := CheckLetterGap(now);
      clock := now;
      out := FrameOutput(blinkDuration, finalWord, decodedLetter);
    }

    /** The whole `if faces:` body for a frame whose eye ratio is `ratio`. */
    method FaceFrame(now: int, ratio: int) returns (out: FrameOutput)
      requires Valid() && clock <= now
      modifies this
      ensures Valid() && clock == now
      ensures ratioList == PushRatio(old(ratioList), ratio) && ratioHistory == old(ratioHistory) + [ratio]
      ensures (State(), out) == FrameStep(old(State()), now, RatioSaysClosed(ratioList))
    {
      ghost var before := State();
      var closed := ObserveRatio(ratio);
      assert State() == before;
      out := Frame(now, closed);
    }
  }
}
