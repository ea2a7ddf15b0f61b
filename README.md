# Blink-Translator decoder in Dafny

Blink-Translator turns eye blinks seen by a webcam into Morse code and text.
The repository has two scripts. Each runs a frame loop with a small timing
state machine:

- `prototype_blink_translator.py` keeps an eye-opening ratio per frame and
  smooths it over the last three frames. A closed/open edge times a blink.
  `record_blink` classifies the blink: a blink of 4000 ms or more starts or
  ends a word, one of at most 350 ms is a dot, one of 650 ms or more is a
  dash, and one in between is ignored. Symbols are only recorded while a
  word is being built. A pause of more than 1700 ms after the last blink
  decodes the pending symbols with `morse_to_text` into one letter of the
  current word. The word is printed when it ends.
- `blink_translator.py` times blinks with a `blink_start_time` that is 0 when
  nothing is timed. An opening after less than 200 ms appends a dot, one
  after less than 600 ms a dash, and a longer one nothing. After each frame
  the code is flushed as one letter through `translate_morse_code` once more
  than 2 s have passed since `blink_start_time`.

The model covers the tables, the two decoding functions and both state
machines. The camera and the face mesh are replaced by inputs: each frame
is a `Frames.Sample` holding a timestamp in integer milliseconds and a
closed/open flag. For the prototype, the frame's integer eye ratio is also
an input.

Files:

- `wrappers.dfy`: the `Option` type. A dictionary lookup that finds no key
  returns `None`.
- `pystr.dfy`: Python's `str.strip` (with Python's whitespace set),
  `str.split` with an explicit separator, and `str.join`.
- `morse_tables.dfy`: `morse_code_dict`, its inversion and `morse_dict`, each
  as a lookup function. It also gives the ITU-R M.1677-1 code (section 1.1 of
  Part I) as a reference for comparison.
- `morse_text.dfy`: `morse_to_text`, both as a function and as the
  script's two nested loops, plus `translate_morse_code`. It also has a
  reference encoder that `morse_to_text` inverts.
- `frames.dfy`: the per-frame input.
- `prototype.dfy`: the prototype's state machine. There are specification
  functions on a `Decoder` value, and the class `PrototypeTranslator`, whose
  fields are the script's globals and whose methods are proved to follow
  those functions.
- `second_version.dfy`: the second script's state machine. It has the flush
  as written, a corrected flush, and the class `BlinkTranslator`. The
  class's `FrameAsWritten` and `FlushLetterAsWritten` run the script as
  written; its `Frame` and `FlushLetter` run the corrected flush. The
  corrected flush reads `lastSymbolTime`, the time of the last symbol. That
  field is part of the model only: `blink_translator.py` has no such global.

Where the two scripts read the clock more than once per frame, the model
uses one `now` for the whole frame. Successive frames must have
non-decreasing timestamps. This is a precondition of the `Frame` methods,
kept in a ghost `clock` field.

Notes on the prototype's code:

- `record_blink` ends with `blink_start_time = None`, but that name is not in
  its `global` list (prototype_blink_translator.py:44, 66). So the statement
  only binds a local, and the model leaves the global alone there. The
  global is cleared by the loop at :120.
- A long blink that ends a word does not clear `blinks`. The gap check runs
  on every frame with a face, closed frames included (:124), but only
  decodes symbols while a word is being built (:125). Suppose no face frame
  reaches the gap check between 1700 ms after the last symbol and the
  reopening that ends the word, for example because the long blink starts
  within 1700 ms of the last symbol and only its closing and opening frames
  are seen. Then the pending symbols are printed in no word. They stay
  pending and start the next word's first letter.
  `Prototype.WordEndKeepsPendingSymbols` states the first part and
  `Prototype.PendingSymbolsStartNextWord` the second. When a closed frame
  of the long blink does come after the gap, it decodes the symbols into
  the word before the word is printed, as `Prototype.GapDuringLongBlink`
  states.
- The prototype's `@` is `.--.-`. ITU-R M.1677-1 gives `.--.-.`.
  `MorseTables.PunctuationFollowsItuExceptAt` states the difference.

## Model

| member | source | states |
|---|---|---|
| MorseTables.MorseCodeDict | prototype_blink_translator.py:13-24 | `morse_code_dict` as its lookup: 54 keys, `None` for any other character; EncodedDecodes, MorseCodeDictInjective, SpaceIsSlash, KeysArePrintable, KeysAreVisible and CodesAreDotsAndDashes state its properties, and LettersAndFiguresFollowItu, PunctuationFollowsItuExceptAt and ExtensionsOutsideItu compare it with ITU-R M.1677-1 |
| MorseTables.InvertedMorseCodeDict | prototype_blink_translator.py:69 | the inverted dictionary's lookup; InvertedDictIsInverse and DecodedEncodes state that it is exactly the inversion of `morse_code_dict` |
| MorseTables.MorseDict | blink_translator.py:15-21 | `morse_dict` as its lookup; MorseDictIsLetterPart, MorseDictCoversLetters and MorseDictInjective state that it is the letter part of `morse_code_dict`, inverted, and one-to-one |
| MorseTables.InvertedDictIsInverse | prototype_blink_translator.py:69 | a code decodes to a character exactly when `morse_code_dict` maps that character to the code, so the inversion loses no entry |
| MorseTables.EncodedDecodes | prototype_blink_translator.py:13-24 | every code of `morse_code_dict` decodes to its own key in the inverted dictionary |
| MorseTables.DecodedEncodes | prototype_blink_translator.py:13-24 | every character of the inverted dictionary encodes back to the code it came from |
| MorseTables.MorseCodeDictInjective | prototype_blink_translator.py:13-24 | no two keys of `morse_code_dict` share a code |
| MorseTables.SpaceIsSlash | prototype_blink_translator.py:23 | the blank is the one key whose code is `/` |
| MorseTables.KeysArePrintable | prototype_blink_translator.py:13-24 | every key other than the blank is printable ASCII between `!` and `_` |
| MorseTables.KeysAreVisible | prototype_blink_translator.py:13-24 | no key other than the blank is whitespace that `strip` would remove |
| MorseTables.CodesAreDotsAndDashes | prototype_blink_translator.py:13-24 | every code other than `/` is a non-empty string of dots and dashes |
| MorseTables.ItuCode | prototype_blink_translator.py:13-24 | the reference code of ITU-R M.1677-1 is a non-empty string of dots and dashes wherever it is defined |
| MorseTables.LettersAndFiguresFollowItu | prototype_blink_translator.py:14-20 | every letter and figure has the ITU code |
| MorseTables.PunctuationFollowsItuExceptAt | prototype_blink_translator.py:20-23 | every ITU punctuation mark is a key, and its code is the ITU code exactly when the mark is not `@` |
| MorseTables.ExtensionsOutsideItu | prototype_blink_translator.py:20-23 | a key has no ITU code exactly when it is one of `!`, `&`, `;`, `_` or the blank |
| MorseTables.MorseDictIsLetterPart | blink_translator.py:15-21 | `morse_dict` maps a code to a character exactly when the character is a letter A-Z whose prototype code is that code |
| MorseTables.MorseDictCoversLetters | blink_translator.py:15-21 | every letter A-Z comes from exactly one code |
| MorseTables.MorseDictInjective | blink_translator.py:15-21 | distinct codes give distinct letters |
| PyStr.IsSpace | prototype_blink_translator.py:70 | Python's whitespace set, the characters `strip()` removes; StripLeftSuffix and StripRightPrefix state that only these are removed, and KeysAreVisible that no key other than the blank is one of them |
| PyStr.Strip | prototype_blink_translator.py:70 | `str.strip`: StripLeft then StripRight; StripTrimmed, JoinStripped and StripTrailingBlank state when it removes nothing or only a trailing blank |
| PyStr.StripLeft | prototype_blink_translator.py:70 | `lstrip` over Python's whitespace; StripLeftSuffix states its result |
| PyStr.StripRight | prototype_blink_translator.py:77 | `rstrip` over Python's whitespace; StripRightPrefix states its result |
| PyStr.StripLeftSuffix | prototype_blink_translator.py:70 | the result is a suffix, everything removed is whitespace, and the result starts with a non-space |
| PyStr.StripRightPrefix | prototype_blink_translator.py:77 | the result is a prefix, everything removed is whitespace, and the result ends with a non-space |
| PyStr.Split | prototype_blink_translator.py:70-73 | `str.split(sep)` with an explicit separator; SplitNone states that a string without the separator is one part, SplitAfter that the first occurrence ends the first part, and SplitJoin that it undoes Join |
| PyStr.Join | prototype_blink_translator.py:51 | `sep.join(parts)`; JoinAppend states how it distributes over concatenated lists, JoinEnds what its first and last characters are, and SplitJoin that Split undoes it |
| PyStr.Concat | prototype_blink_translator.py:51 | `''.join(parts)` is Join with the empty separator |
| PyStr.SplitJoin | prototype_blink_translator.py:71-73 | splitting parts joined by a character absent from them gives the parts back |
| MorseText.DecodeChar | prototype_blink_translator.py:69-75 | a known code gives the key whose code it is, an unknown one gives `?` |
| MorseText.DecodeLetters | prototype_blink_translator.py:73-75 | one character per token, each the decoding of its token |
| MorseText.DecodeTokens | prototype_blink_translator.py:73-75 | the inner loop decodes the tokens of a word, one character per token in order |
| MorseText.DecodeMessage | prototype_blink_translator.py:68-77 | the script's nested loops compute `morse_to_text` |
| MorseText.DecodeWords | prototype_blink_translator.py:72-76 | each word's decoded letters followed by one blank; DecodeWordsSnoc states that a further word adds its letters and a blank at the end, and DecodeMessage that the loops compute it |
| MorseText.MorseToText | prototype_blink_translator.py:68-77 | `morse_to_text` as strip, split on `" / "`, DecodeWords and strip; DecodeMessage, MorseToTextOfOneCode, MorseToTextInvertsDict, SeparatorDecodesToNothing and MorseToTextRoundTrip state what it decodes |
| MorseText.MorseToTextOfOneCode | prototype_blink_translator.py:70-77 | a non-empty string of dots and dashes decodes to exactly one character: its key or `?` |
| MorseText.DecodedCodeIsKey | prototype_blink_translator.py:75 | that character is a key of `morse_code_dict` other than the blank |
| MorseText.MorseToTextInvertsDict | prototype_blink_translator.py:68-77 | the code of any key other than the blank decodes back to the key |
| MorseText.SeparatorDecodesToNothing | prototype_blink_translator.py:23 | the blank's code `/` decodes to the empty string, not to a blank |
| MorseText.UnknownCodeDecodesToPlaceholder | prototype_blink_translator.py:75 | `----.----` decodes to `?` |
| MorseText.ThreeDotsAreS | prototype_blink_translator.py:17 | `...` decodes to `S` |
| MorseText.MorseToTextRoundTrip | prototype_blink_translator.py:68-77 | words of keys joined by single blanks, encoded with the dictionary and decoded, come back unchanged |
| MorseText.TranslateMorseCode | blink_translator.py:81-82 | a known code gives its one letter, anything else (the empty code included) gives the empty string |
| Prototype.Classify | prototype_blink_translator.py:47-64 | each of the four branches is taken exactly for its range of durations |
| Prototype.RecordBlinkStep | prototype_blink_translator.py:43-66 | a blink of 4000 ms or more flips word building without touching the symbols; ending a word prints the joined letters and empties the word, starting one keeps it; a shorter blink adds a dot (at most 350 ms) or a dash (650 ms or more) only while building, and otherwise changes nothing; the blink timer is not changed |
| Prototype.TransitionStep | prototype_blink_translator.py:109-121 | a frame with no edge changes nothing; closing starts the timer and counts one blink; opening records one blink of `now - start` and sets the gap timer to `now` |
| Prototype.GapCheckStep | prototype_blink_translator.py:123-131 | after more than 1700 ms since a non-zero last-blink time, pending symbols become the next letter while building and are cleared; the gap timer is cleared either way; otherwise nothing changes |
| Prototype.GapCheckLetter | prototype_blink_translator.py:124-131 | a decoded letter is one character: the key whose code the symbols are, or `?` |
| Prototype.GapElapsed | prototype_blink_translator.py:124 | the letter gap test: a non-zero last-blink time more than 1700 ms ago; GapCheckStep, GapCheckIdempotent and NoLetterWithoutBlink state what follows from it |
| Prototype.FrameStep | prototype_blink_translator.py:109-131 | one frame: the edge step, then the gap check; FrameKeepsConsistent, CloseStep and OpenStep state its effect, and PrototypeTranslator.Frame is proved to follow it |
| Prototype.Run | prototype_blink_translator.py:79-131 | the loop over frames with a face, one output per frame; RunAppend, OneBlinkPerClosedInterval, BlinkRun, WordEndKeepsPendingSymbols, GapDuringLongBlink and SpellsS state what runs of it do |
| Prototype.TransitionKeepsConsistent | prototype_blink_translator.py:109-121 | an edge keeps the timer running exactly while the eyes are closed, keeps the symbols dots and dashes, records only a non-negative duration and leaves the word's letters decoded |
| Prototype.GapKeepsConsistent | prototype_blink_translator.py:124-131 | the gap check keeps the globals consistent and appends only decoded letters to the word |
| Prototype.InitialConsistent | prototype_blink_translator.py:26-41 | the initial globals satisfy the loop invariant |
| Prototype.FrameKeepsConsistent | prototype_blink_translator.py:109-131 | each frame keeps the timer running exactly while the eyes are closed, keeps the symbols dots and dashes, records only non-negative durations and adds only decoded letters to the word |
| Prototype.ClosedFramesKeepTimer | prototype_blink_translator.py:109-113 | closed frames while the eyes are closed neither restart the timer nor count a blink, and record nothing |
| Prototype.OneBlinkPerClosedInterval | prototype_blink_translator.py:109-121 | a closed interval of any length counts one blink and records one duration, from its first closed frame to the opening frame, and sets the gap timer to the opening time |
| Prototype.GapCheckIdempotent | prototype_blink_translator.py:124-131 | after the gap check has fired, another check does nothing |
| Prototype.NoLetterWithoutBlink | prototype_blink_translator.py:115-131 | until the eyes reopen, a cleared gap timer stays cleared and no letter is decoded |
| Prototype.RunAppend | prototype_blink_translator.py:79-131 | running two sequences of frames one after the other is running their concatenation |
| Prototype.CloseStep | prototype_blink_translator.py:109-113 | closing open eyes, with no letter gap due, starts the timer, counts one blink and reports nothing |
| Prototype.OpenStep | prototype_blink_translator.py:115-121 | opening closed eyes records a blink of `now - start`, sets the gap timer to `now` and decodes no letter on that frame |
| Prototype.BlinkRun | prototype_blink_translator.py:109-121 | a blink from an open state is `record_blink` of its duration plus one counted blink |
| Prototype.WordEndKeepsPendingSymbols | prototype_blink_translator.py:48-56 | a word-ending blink that starts before the letter gap is due and is seen only on its closing and opening frames prints the word without the pending symbols, and they survive the next gap check |
| Prototype.GapDuringLongBlink | prototype_blink_translator.py:109-131 | a closed frame of a word-ending blink that comes after the letter gap decodes the pending symbols, so the word printed at the reopening ends with them and the symbols are cleared |
| Prototype.PendingSymbolsStartNextWord | prototype_blink_translator.py:109-131 | symbols left pending when a word ended become the first letter of the next word: a word-starting blink followed by a pause of more than 1700 ms decodes them into that word and clears them |
| Prototype.PauseRun | prototype_blink_translator.py:124-131 | a long enough pause while building appends the decoded symbols to the word |
| Prototype.DotRun | prototype_blink_translator.py:58-61 | a 200 ms blink while building appends a dot |
| Prototype.SpellsSPrefix | prototype_blink_translator.py:48-61 | a long blink then three short blinks start a word and record `...` |
| Prototype.PauseDecodesS | prototype_blink_translator.py:124-131 | the pause after `...` adds the letter `S` |
| Prototype.LongBlinkEndsWordS | prototype_blink_translator.py:48-53 | the closing long blink prints the word `S` and empties it |
| Prototype.SpellsS | prototype_blink_translator.py:43-131 | from the initial globals, the frames of a long blink, three short blinks, a pause and a long blink print the letter `S` and then the word `S` |
| Prototype.PushRatio | prototype_blink_translator.py:104-106 | the window grows by one up to three entries and then keeps its length, and ends with the new ratio |
| Prototype.Sum | prototype_blink_translator.py:107 | `sum(ratio_list)`; RatioTestIsAverageTest relates it to the average |
| Prototype.RatioSaysClosed | prototype_blink_translator.py:107-109 | the verdict `ratio_avg < 35` on integers; RatioTestIsAverageTest states that it agrees with the exact average test |
| Prototype.RatioTestIsAverageTest | prototype_blink_translator.py:107-109 | the integer test `sum < 35 * len` agrees with `sum / len < 35` |
| Prototype.WindowAfter | prototype_blink_translator.py:104-106 | `ratio_list` after a history of `append` and `pop(0)` from the empty list; WindowHoldsLatest states that it holds the latest three ratios in arrival order |
| Prototype.PushKeepsLatest | prototype_blink_translator.py:104-106 | pushing the next ratio onto a window that holds the latest three ratios gives the window of the latest three, new one included |
| Prototype.WindowHoldsLatest | prototype_blink_translator.py:104-106 | the window holds the last three ratios received, or all of them when fewer arrived, in arrival order |
| Prototype.PrototypeTranslator.constructor | prototype_blink_translator.py:26-41 | the globals start as the script initialises them |
| Prototype.PrototypeTranslator.RecordBlink | prototype_blink_translator.py:43-66 | updates the fields as `RecordBlinkStep` says and returns the printed word |
| Prototype.PrototypeTranslator.ObserveRatio | prototype_blink_translator.py:103-109 | appends the ratio to the window, drops the oldest beyond three, and tells whether the average is below 35 |
| Prototype.PrototypeTranslator.Transition | prototype_blink_translator.py:109-121 | updates the fields as `TransitionStep` says |
| Prototype.PrototypeTranslator.CheckLetterGap | prototype_blink_translator.py:123-131 | updates the fields as `GapCheckStep` says |
| Prototype.PrototypeTranslator.Frame | prototype_blink_translator.py:109-131 | the transition step and then the gap check, keeping the invariant |
| Prototype.PrototypeTranslator.FaceFrame | prototype_blink_translator.py:103-131 | one frame with a face: the ratio window, then `Frame` on the average's verdict |
| SecondVersion.Symbol | blink_translator.py:68-73 | an opening after less than 200 ms gives a dot, after 200 to 599 ms a dash, after 600 ms or more nothing |
| SecondVersion.DetectBlinksStep | blink_translator.py:60-76 | a closed frame starts the timer only when it is 0; an open frame with the timer at 0 changes nothing; an open frame with a running timer appends the blink's symbol and resets the timer to 0; the code only grows, by at most one dot or dash |
| SecondVersion.FlushDueAsWritten | blink_translator.py:105 | the flush test as written, timed from `blink_start_time`; FlushFollowsSymbolAsWritten states that it holds on the frame that adds a symbol |
| SecondVersion.FlushStepAsWritten | blink_translator.py:105-108 | a non-empty code more than 2 s after `blink_start_time` is translated and emptied; otherwise nothing happens |
| SecondVersion.FaceStepAsWritten | blink_translator.py:102-108 | one face as the script runs it: `detect_blinks`, then the flush as written; SingleSymbolFlushedAsWritten states that each such face prints at most `E` or `T` and leaves the code empty |
| SecondVersion.RunAsWritten | blink_translator.py:84-108 | the loop as written; LettersAreSingleSymbolsAsWritten and TwoDotsAsWritten state that every printed letter is one symbol |
| SecondVersion.FlushFollowsSymbolAsWritten | blink_translator.py:76-108 | once the clock reads more than 2 s, a frame that adds a symbol flushes it on that same frame |
| SecondVersion.SingleSymbolFlushedAsWritten | blink_translator.py:60-108 | with the clock past 2 s, a frame that starts with an empty code ends with an empty code and prints at most `E` or `T` |
| SecondVersion.LettersAreSingleSymbolsAsWritten | blink_translator.py:60-108 | over any run with the clock past 2 s, the code is empty after every frame and every printed letter is `E` or `T` |
| SecondVersion.TwoDotsAsWritten | blink_translator.py:60-108 | two short blinks followed by a pause print `E` twice |
| SecondVersion.FlushDue | blink_translator.py:105 | the corrected flush test, timed from the last symbol; SymbolIsKept states that it does not hold on the frame that adds a symbol |
| SecondVersion.FlushStep | blink_translator.py:105-108 | corrected flush: a non-empty code more than 2 s after its last symbol is translated and emptied; otherwise nothing happens |
| SecondVersion.FaceStep | blink_translator.py:102-108 | one face with the corrected flush; SymbolIsKept and PauseEndsLetter state its effect, and BlinkTranslator.Frame is proved to follow it |
| SecondVersion.Run | blink_translator.py:84-108 | the loop with the corrected flush; TwoDotsCorrected states that the frames of `..` print `I` |
| SecondVersion.SymbolIsKept | blink_translator.py:105 | with the corrected flush, a symbol is never flushed on the frame that adds it |
| SecondVersion.PauseEndsLetter | blink_translator.py:105-108 | with the corrected flush, a pause of more than 2 s after the last symbol prints the whole code as one letter |
| SecondVersion.TwoDotsCorrected | blink_translator.py:105-108 | with the corrected flush, the same frames print `I` |
| SecondVersion.BlinkTranslator.constructor | blink_translator.py:24-26 | the globals start at `""` and 0 |
| SecondVersion.BlinkTranslator.DetectBlinks | blink_translator.py:47-78 | updates the fields as `DetectBlinksStep` says and returns the code |
| SecondVersion.BlinkTranslator.FlushLetterAsWritten | blink_translator.py:105-108 | updates the code as `FlushStepAsWritten` says and returns the printed letter |
| SecondVersion.BlinkTranslator.FrameAsWritten | blink_translator.py:102-108 | `detect_blinks` and then the flush as written, keeping the code dots and dashes: the script's own behaviour |
| SecondVersion.BlinkTranslator.FlushLetter | blink_translator.py:105-108 | updates the fields as the corrected `FlushStep` says and returns the printed letter |
| SecondVersion.BlinkTranslator.Frame | blink_translator.py:102-108 | `detect_blinks` and then the corrected flush, keeping the code dots and dashes |

## Left out

- Camera capture, frame rewind, drawing, `LivePlot`, `putTextRect`, `stackImages`, `imshow` and `waitKey`: these are input/output and user interface.
- Face-mesh detection, `findDistance` and `calculate_ear`: these are calls into libraries and floating-point geometry. Each frame's closed/open verdict (for the prototype, the integer ratio) is an input instead.
- Frames without a face are left out. Both loops skip the decoder for such a frame.
- `time.time()`: replaced by a `now` parameter in integer milliseconds, one reading per frame. The fractional milliseconds of the float clock are not modelled.
- `print` calls: the printed duration, word and letter are return values.
- The second script's loop over several faces in one frame: each face is one call of `Frame` with the same `now`.
- Prototype.PrototypeTranslator.RecordBlink: it does not store the global `blink_duration`. Nothing reads that global, and the duration is returned in the frame's output.
- MorseTables.MorseCodeDict and MorseTables.MorseDict: these are lookup functions, not Python dictionaries. A missing key is `None`.
- Prototype.Decoder: `blinks` is a string, not a list of one-character strings. The script only appends single characters to it and joins it with `''`.

## Findings

| source | as written | input that shows it | evidently intended | confidence | as-written member | corrected member |
|---|---|---|---|---|---|---|
| blink_translator.py:76, 105 | the flush tests `time.time() - blink_start_time > 2`, but `detect_blinks` set `blink_start_time` to 0 on the frame that added the symbol, so with an epoch clock the test holds at once and every letter is a single dot or dash | two 100 ms blinks 300 ms apart followed by a 2.5 s pause print `E`, `E` instead of `I` | end the letter after 2 s without a new symbol | not executed | SecondVersion.TwoDotsAsWritten | SecondVersion.TwoDotsCorrected |
