/**
 * Decoding strings of Morse code to text: `morse_to_text` of the prototype
 * script and `translate_morse_code` of the second script, with a reference
 * encoder that `morse_to_text` inverts.
 */
module MorseText {
  import opened Wrappers
  import opened PyStr
  import opened MorseTables

  /** `inverted_dict.get(char, '?')`: an unknown code becomes the placeholder `?`. */
  function DecodeChar(token: string): (r: char)
    ensures InvertedMorseCodeDict(token).Some? ==> MorseCodeDict(r) == Some(token)
    ensures InvertedMorseCodeDict(token).None? ==> r == '?'
  {
    match InvertedMorseCodeDict(token)
    case Some(c) =>
      InvertedDictIsInverse(c, token);
      c
    case None => '?'
  }

  /** The inner loop of `morse_to_text`: one character per space-separated token. */
  function DecodeLetters(tokens: seq<string>): (r: string)
    ensures |r| == |tokens|
    ensures forall i | 0 <= i < |tokens| :: r[i] == DecodeChar(tokens[i])
  {
    if tokens == [] then "" else [DecodeChar(tokens[0])] + DecodeLetters(tokens[1..])
  }

  /** The outer loop of `morse_to_text`: each word's letters, each followed by a blank. */
  function DecodeWords(words: seq<string>): string
  {
    if words == [] then "" else DecodeLetters(Split(words[0], " ")) + " " + DecodeWords(words[1..])
  }

  /** `morse_to_text`: words are separated by `" / "`, letters by `" "`, and the result is stripped. */
  function MorseToText(morseCode: string): string
  {
    Strip(DecodeWords(Split(Strip(morseCode), " / ")))
  }

  /** Decoding one more token adds its character. */
  lemma DecodeLettersSnoc(tokens: seq<string>, t: string)
    ensures DecodeLetters(tokens + [t]) == DecodeLetters(tokens) + [DecodeChar(t)]
  {
    assert DecodeLetters(tokens + [t])[..|tokens|] == DecodeLetters(tokens);
  }

  /** Decoding one more word adds its letters and a blank. */
  lemma {:induction false} DecodeWordsSnoc(words: seq<string>, w: string)
    ensures DecodeWords(words + [w]) == DecodeWords(words) + DecodeLetters(Split(w, " ")) + " "
  {
    if words == [] {
      assert [w][1..] == [];
    } else {
      assert (words + [w])[0] == words[0];
      assert (words + [w])[1..] == words[1..] + [w];
      DecodeWordsSnoc(words[1..], w);
      var first, rest, last := DecodeLetters(Split(words[0], " ")), DecodeWords(words[1..]), DecodeLetters(Split(w, " "));
      assert DecodeWords(words + [w]) == first + " " + (rest + last + " ");
      assert first + " " + (rest + last + " ") == (first + " " + rest) + last + " ";
    }
  }

  /** The inner loop of `morse_to_text`: one character per token. */
  method DecodeTokens(characters: seq<string>) returns (letters: string)
    ensures letters == DecodeLetters(characters)
  {
    letters := "";
    var j := 0;
    while j < |characters|
      invariant 0 <= j <= |characters|
      invariant letters == DecodeLetters(characters[..j])
    {
      assert characters[..j + 1] == characters[..j] + [characters[j]];
      DecodeLettersSnoc(characters[..j], characters[j]);
      letters := letters + [DecodeChar(characters[j])];
      j := j + 1;
    }
    assert characters[..j] == characters;
  }

  /** `morse_to_text` with its two loops, building the message one character at a time. */
  method DecodeMessage(morseCode: string) returns (text: string)
    ensures text == MorseToText(morseCode)
  {
    var words := Split(Strip(morseCode), " / ");
    var decodedMessage := "";
    var i := 0;
    while i < |words|
      invariant 0 <= i <= |words|
      invariant decodedMessage == DecodeWords(words[..i])
    {
      var letters := DecodeTokens(Split(words[i], " "));
      decodedMessage := decodedMessage + letters + " ";
      assert words[..i + 1] == words[..i] + [words[i]];
      DecodeWordsSnoc(words[..i], words[i]);
      i := i + 1;
    }
    assert words[..i] == words;
    text := Strip(decodedMessage);
  }

  /** `translate_morse_code` of the second script: the letter of a known code, otherwise `""`. */
  function TranslateMorseCode(morseCode: string): (r: string)
    ensures MorseDict(morseCode).Some? ==> r == [MorseDict(morseCode).value]
    ensures MorseDict(morseCode).None? ==> r == ""
  {
    match MorseDict(morseCode)
    case Some(c) => [c]
    case None => ""
  }

  /**
   * What the prototype's letter flush decodes: a single code of dots and
   * dashes gives exactly one character, the key whose code it is, or `?`
   * when no key has that code.
   */
  lemma MorseToTextOfOneCode(code: string)
    requires IsCode(code)
    ensures MorseToText(code) == [DecodeChar(code)]
    ensures InvertedMorseCodeDict(code).Some? ==> MorseToText(code) == [InvertedMorseCodeDict(code).value]
    ensures InvertedMorseCodeDict(code).None? ==> MorseToText(code) == "?"
  {
    assert ' ' !in code;
    StripTrimmed(code);
    NoOccurrenceWithout(code, " / ", 0);
    SplitNone(code, " / ");
    NoOccurrenceWithout(code, " ", 0);
    SplitNone(code, " ");
    assert DecodeWords([code]) == [DecodeChar(code)] + " ";
    var r := DecodeChar(code);
    if InvertedMorseCodeDict(code).Some? {
      SpaceIsSlash(r);
      KeysAreVisible(r);
    }
    StripTrailingBlank([r]);
  }

  /** `...` decodes to `S`. */
  lemma ThreeDotsAreS()
    ensures MorseToText("...") == "S"
  {
    var code := "...";
    assert IsCode(code) by {
      assert forall i | 0 <= i < |code| :: code[i] == '.' || code[i] == '-';
    }
    assert InvertedMorseCodeDict(code) == Some('S');
    MorseToTextOfOneCode(code);
  }

  /** The character a code decodes to is a key of the table other than the word separator. */
  lemma DecodedCodeIsKey(code: string)
    requires IsCode(code)
    ensures DecodeChar(code) != ' ' && MorseCodeDict(DecodeChar(code)).Some?
  {
    var c := DecodeChar(code);
    if InvertedMorseCodeDict(code).Some? {
      assert code[0] != '/';
      SpaceIsSlash(c);
    } else {
      assert c == '?';
    }
  }

  /** Decoding the code of any key other than the word separator gives that key back. */
  lemma MorseToTextInvertsDict(c: char)
    requires MorseCodeDict(c).Some? && c != ' '
    ensures MorseToText(MorseCodeDict(c).value) == [c]
  {
    CodesAreDotsAndDashes(c);
    InvertedDictIsInverse(c, MorseCodeDict(c).value);
    MorseToTextOfOneCode(MorseCodeDict(c).value);
  }

  /** The word separator does not round-trip: `/` decodes to a blank, which the final `strip` removes. */
  lemma SeparatorDecodesToNothing()
    ensures MorseCodeDict(' ') == Some("/")
    ensures MorseToText("/") == ""
  {
    assert Strip("/") == "/";
    NoOccurrenceWithout("/", " ", 0);
    SplitNone("/", " ");
    assert DecodeWords(["/"]) == "  ";
  }

  /** A code with no entry decodes to the placeholder instead of failing. */
  lemma UnknownCodeDecodesToPlaceholder()
    ensures MorseToText("----.----") == "?"
  {
    var code := "----.----";
    assert IsCode(code) by {
      assert forall i | 0 <= i < |code| :: code[i] == '.' || code[i] == '-';
    }
    assert InvertedMorseCodeDict(code) == None;
    MorseToTextOfOneCode(code);
  }

  /** A text the encoder accepts: every character is a key of `morse_code_dict`, the blank included. */
  predicate Encodable(text: string)
  {
    forall i | 0 <= i < |text| :: MorseCodeDict(text[i]).Some?
  }

  /** A word: non-empty, and every character a key other than the blank. */
  predicate IsWord(w: string)
  {
    w != [] && ' ' !in w && Encodable(w)
  }

  /** The code of every character of `text`, in order. */
  function EncodeChars(text: string): (r: seq<string>)
    requires Encodable(text)
    ensures |r| == |text|
    ensures forall i | 0 <= i < |text| :: r[i] == MorseCodeDict(text[i]).value
  {
    if text == [] then [] else [MorseCodeDict(text[0]).value] + EncodeChars(text[1..])
  }

  /**
   * The encoder `morse_to_text` expects: character codes separated by blanks,
   * so that a space (code `/`) becomes the word separator `" / "`.
   */
  function Encode(text: string): string
    requires Encodable(text)
  {
    Join(EncodeChars(text), " ")
  }

  /** The encoding of each word of a list. */
  function EncodeWords(words: seq<string>): (r: seq<string>)
    requires forall j | 0 <= j < |words| :: IsWord(words[j])
    ensures |r| == |words|
    ensures forall j | 0 <= j < |words| :: IsWord(words[j]) && r[j] == Encode(words[j])
  {
    if words == [] then [] else assert IsWord(words[0]); [Encode(words[0])] + EncodeWords(words[1..])
  }

  lemma {:induction false} EncodeCharsAppend(x: string, y: string)
    requires Encodable(x) && Encodable(y)
    ensures Encodable(x + y)
    ensures EncodeChars(x + y) == EncodeChars(x) + EncodeChars(y)
  {
    assert Encodable(x + y) by {
      forall i | 0 <= i < |x + y| ensures MorseCodeDict((x + y)[i]).Some? {
        if i >= |x| {
          assert (x + y)[i] == y[i - |x|];
        }
      }
    }
  }

  /** An encoded word has no `/` and starts and ends with a dot or a dash. */
  lemma EncodedWordShape(w: string)
    requires IsWord(w)
    ensures '/' !in Encode(w)
    ensures Encode(w) != [] && Encode(w)[0] in ".-" && Encode(w)[|Encode(w)| - 1] in ".-"
  {
    var codes := EncodeChars(w);
    forall j | 0 <= j < |codes| ensures IsCode(codes[j]) {
      CodesAreDotsAndDashes(w[j]);
    }
    JoinChars(codes, " ", c => c != '/');
    JoinEnds(codes, " ");
  }

  /** Splitting an encoded word at its blanks and decoding each code gives the word back. */
  lemma EncodedWordDecodes(w: string)
    requires IsWord(w)
    ensures DecodeLetters(Split(Encode(w), " ")) == w
  {
    var codes := EncodeChars(w);
    forall j | 0 <= j < |codes| ensures ' ' !in codes[j] && DecodeChar(codes[j]) == w[j] {
      CodesAreDotsAndDashes(w[j]);
      InvertedDictIsInverse(w[j], codes[j]);
    }
    SplitJoin(codes, ' ');
  }

  /** The first and last characters of a word are visible. */
  lemma WordEndsVisible(w: string)
    requires IsWord(w)
    ensures !IsSpace(w[0]) && !IsSpace(w[|w| - 1])
  {
    KeysAreVisible(w[0]);
    KeysAreVisible(w[|w| - 1]);
  }

  /** A single space between two encodable texts becomes the word separator. */
  lemma EncodeAroundSpace(w: string, j: string)
    requires w != [] && j != [] && Encodable(w) && Encodable(j)
    ensures Encodable(w + " " + j)
    ensures Encode(w + " " + j) == Encode(w) + " / " + Encode(j)
  {
    assert Encodable(" ") && EncodeChars(" ") == ["/"];
    EncodeCharsAppend(w, " ");
    EncodeCharsAppend(w + " ", j);
    JoinAroundSlash(EncodeChars(w), EncodeChars(j));
  }

  /** Joining encoded words by `" / "` is the encoding of the words joined by single spaces. */
  lemma {:induction false} EncodeOfJoin(words: seq<string>)
    requires |words| >= 1 && forall j | 0 <= j < |words| :: IsWord(words[j])
    ensures Encodable(Join(words, " "))
    ensures Encode(Join(words, " ")) == Join(EncodeWords(words), " / ")
  {
    assert IsWord(words[0]);
    if |words| > 1 {
      var rest := words[1..];
      EncodeOfJoin(rest);
      JoinEnds(rest, " ");
      EncodeAroundSpace(words[0], Join(rest, " "));
      assert EncodeWords(words)[1..] == EncodeWords(rest);
    }
  }

  /** `split(" / ")` undoes joining by `" / "` pieces that contain no `/`. */
  lemma {:induction false} SplitJoinWords(parts: seq<string>)
    requires |parts| >= 1 && forall j | 0 <= j < |parts| :: '/' !in parts[j]
    ensures Split(Join(parts, " / "), " / ") == parts
  {
    var p := parts[0];
    if |parts| == 1 {
      NoOccurrenceWithout(p, " / ", 1);
      SplitNone(p, " / ");
    } else {
      var rest := Join(parts[1..], " / ");
      var s := p + " / " + rest;
      forall i: nat | i < |p| ensures !OccursAt(s, " / ", i) {
        assert i + 1 < |p| ==> s[i + 1] == p[i + 1];
        assert i + 1 == |p| ==> s[i + 1] == ' ';
      }
      SplitAfter(p, " / ", rest);
      SplitJoinWords(parts[1..]);
      assert parts == [p] + parts[1..];
    }
  }

  /** Decoding encoded words gives each word followed by one blank. */
  lemma {:induction false} DecodeEncodedWords(words: seq<string>)
    requires forall j | 0 <= j < |words| :: IsWord(words[j])
    ensures words != [] ==> DecodeWords(EncodeWords(words)) == Join(words, " ") + " "
  {
    if words != [] {
      EncodedWordDecodes(words[0]);
      DecodeEncodedWords(words[1..]);
      assert EncodeWords(words)[1..] == EncodeWords(words[1..]);
    }
  }

  /** Codes (with blanks between letters) that contain no `/` and start and end with a dot or a dash. */
  predicate IsEncodedWord(e: string)
  {
    e != [] && '/' !in e && e[0] in ".-" && e[|e| - 1] in ".-"
  }

  /** Encoded words joined by `" / "` are trimmed and split back into the encoded words. */
  lemma SlashJoinSplits(ew: seq<string>)
    requires |ew| >= 1 && forall j | 0 <= j < |ew| :: IsEncodedWord(ew[j])
    ensures Strip(Join(ew, " / ")) == Join(ew, " / ")
    ensures Split(Join(ew, " / "), " / ") == ew
  {
    SlashJoinStripped(ew);
    SplitJoinWords(ew);
  }

  /** Encoded words joined by `" / "` are left alone by `strip`. */
  lemma SlashJoinStripped(ew: seq<string>)
    requires |ew| >= 1 && forall j | 0 <= j < |ew| :: ew[j] != []
    requires IsEncodedWord(ew[0]) && IsEncodedWord(ew[|ew| - 1])
    ensures Strip(Join(ew, " / ")) == Join(ew, " / ")
  {
    var first, last := ew[0], ew[|ew| - 1];
    assert !IsSpace(first[0]) && !IsSpace(last[|last| - 1]);
    JoinStripped(ew, " / ");
  }

  lemma EncodedWordsSplit(words: seq<string>)
    requires |words| >= 1 && forall j | 0 <= j < |words| :: IsWord(words[j])
    ensures Strip(Join(EncodeWords(words), " / ")) == Join(EncodeWords(words), " / ")
    ensures Split(Join(EncodeWords(words), " / "), " / ") == EncodeWords(words)
  {
    var ew := EncodeWords(words);
    forall j | 0 <= j < |ew| ensures IsEncodedWord(ew[j]) {
      EncodedWordShape(words[j]);
    }
    SlashJoinSplits(ew);
  }

  /** The encoding of words separated by single spaces is trimmed and splits back into the encoded words. */
  lemma EncodedTextSplits(words: seq<string>)
    requires |words| >= 1 && forall j | 0 <= j < |words| :: IsWord(words[j])
    ensures Encodable(Join(words, " "))
    ensures Split(Strip(Encode(Join(words, " "))), " / ") == EncodeWords(words)
  {
    EncodeOfJoin(words);
    EncodedWordsSplit(words);
  }

  /** Text of words separated by single spaces neither starts nor ends with whitespace. */
  lemma WordsTextTrimmed(words: seq<string>)
    requires |words| >= 1 && forall j | 0 <= j < |words| :: words[j] != []
    requires IsWord(words[0]) && IsWord(words[|words| - 1])
    ensures Strip(Join(words, " ") + " ") == Join(words, " ")
  {
    WordEndsVisible(words[0]);
    WordEndsVisible(words[|words| - 1]);
    JoinTrimmed(words, " ");
  }

  /**
   * Round trip: text made of words of keys separated by single spaces is
   * encoded and decoded back to itself.
   */
  lemma MorseToTextRoundTrip(words: seq<string>)
    requires |words| >= 1 && forall j | 0 <= j < |words| :: IsWord(words[j])
    ensures Encodable(Join(words, " "))
    ensures MorseToText(Encode(Join(words, " "))) == Join(words, " ")
  {
    EncodedTextSplits(words);
    DecodeEncodedWords(words);
    WordsTextTrimmed(words);
  }
}
