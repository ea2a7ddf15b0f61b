/**
 * The two static Morse tables of the translator scripts, and International
 * Morse code (ITU-R Recommendation M.1677-1, Part I, section 1.1) as an
 * independent reference for them.
 *
 * A Python dictionary is modelled by its `get` function: `None` is "no such
 * key". The inverted dictionary that `morse_to_text` builds is written out
 * and proved to be exactly the inversion of `morse_code_dict`.
 */
module MorseTables {
  import opened Wrappers
  import opened PyStr

  /** A string of Morse symbols only. */
  predicate DotsAndDashes(s: string)
  {
    forall i | 0 <= i < |s| :: s[i] == '.' || s[i] == '-'
  }

  /** A Morse code as the decoders build it: a non-empty string of dots and dashes. */
  predicate IsCode(s: string)
  {
    s != [] && DotsAndDashes(s)
  }

  /** `morse_code_dict.get(c)` of the prototype script (54 entries). */
  function MorseCodeDict(c: char): Option<string>
  {
    match c
    case 'A' => Some(".-") case 'B' => Some("-...") case 'C' => Some("-.-.")
    case 'D' => Some("-..") case 'E' => Some(".") case 'F' => Some("..-.")
    case 'G' => Some("--.") case 'H' => Some("....") case 'I' => Some("..")
    case 'J' => Some(".---") case 'K' => Some("-.-") case 'L' => Some(".-..")
    case 'M' => Some("--") case 'N' => Some("-.") case 'O' => Some("---")
    case 'P' => Some(".--.") case 'Q' => Some("--.-") case 'R' => Some(".-.")
    case 'S' => Some("...") case 'T' => Some("-") case 'U' => Some("..-")
    case 'V' => Some("...-") case 'W' => Some(".--") case 'X' => Some("-..-")
    case 'Y' => Some("-.--") case 'Z' => Some("--..") case '1' => Some(".----")
    case '2' => Some("..---") case '3' => Some("...--") case '4' => Some("....-")
    case '5' => Some(".....") case '6' => Some("-....") case '7' => Some("--...")
    case '8' => Some("---..") case '9' => Some("----.") case '0' => Some("-----")
    case '.' => Some(".-.-.-") case ',' => Some("--..--") case '?' => Some("..--..")
    case '\'' => Some(".----.") case '!' => Some("-.-.--") case '/' => Some("-..-.")
    case '(' => Some("-.--.") case ')' => Some("-.--.-") case '&' => Some(".-...")
    case ':' => Some("---...") case ';' => Some("-.-.-.") case '=' => Some("-...-")
    case '+' => Some(".-.-.") case '-' => Some("-....-") case '_' => Some("..--.-")
    case '"' => Some(".-..-.") case '@' => Some(".--.-") case ' ' => Some("/")
    case _ => None
  }

  /** `{value: key for key, value in morse_code_dict.items()}`, the dictionary `morse_to_text` decodes with. */
  function InvertedMorseCodeDict(code: string): Option<char>
  {
    match code
    case ".-" => Some('A') case "-..." => Some('B') case "-.-." => Some('C')
    case "-.." => Some('D') case "." => Some('E') case "..-." => Some('F')
    case "--." => Some('G') case "...." => Some('H') case ".." => Some('I')
    case ".---" => Some('J') case "-.-" => Some('K') case ".-.." => Some('L')
    case "--" => Some('M') case "-." => Some('N') case "---" => Some('O')
    case ".--." => Some('P') case "--.-" => Some('Q') case ".-." => Some('R')
    case "..." => Some('S') case "-" => Some('T') case "..-" => Some('U')
    case "...-" => Some('V') case ".--" => Some('W') case "-..-" => Some('X')
    case "-.--" => Some('Y') case "--.." => Some('Z') case ".----" => Some('1')
    case "..---" => Some('2') case "...--" => Some('3') case "....-" => Some('4')
    case "....." => Some('5') case "-...." => Some('6') case "--..." => Some('7')
    case "---.." => Some('8') case "----." => Some('9') case "-----" => Some('0')
    case ".-.-.-" => Some('.') case "--..--" => Some(',') case "..--.." => Some('?')
    case ".----." => Some('\'') case "-.-.--" => Some('!') case "-..-." => Some('/')
    case "-.--." => Some('(') case "-.--.-" => Some(')') case ".-..." => Some('&')
    case "---..." => Some(':') case "-.-.-." => Some(';') case "-...-" => Some('=')
    case ".-.-." => Some('+') case "-....-" => Some('-') case "..--.-" => Some('_')
    case ".-..-." => Some('"') case ".--.-" => Some('@') case "/" => Some(' ')
    case _ => None
  }

  /** `morse_dict.get(code)` of the second script: the 26 letters only. */
  function MorseDict(code: string): Option<char>
  {
    match code
    case ".-" => Some('A') case "-..." => Some('B') case "-.-." => Some('C')
    case "-.." => Some('D') case "." => Some('E') case "..-." => Some('F')
    case "--." => Some('G') case "...." => Some('H') case ".." => Some('I')
    case ".---" => Some('J') case "-.-" => Some('K') case ".-.." => Some('L')
    case "--" => Some('M') case "-." => Some('N') case "---" => Some('O')
    case ".--." => Some('P') case "--.-" => Some('Q') case ".-." => Some('R')
    case "..." => Some('S') case "-" => Some('T') case "..-" => Some('U')
    case "...-" => Some('V') case ".--" => Some('W') case "-..-" => Some('X')
    case "-.--" => Some('Y') case "--.." => Some('Z')
    case _ => None
  }

  /**
   * International Morse code for the letters (section 1.1.1), the figures
   * (section 1.1.2) and the ASCII punctuation marks of section 1.1.3.
   */
  function ItuCode(c: char): (r: Option<string>)
    ensures r.Some? ==> IsCode(r.value)
  {
    match c
    case 'A' => Some(".-") case 'B' => Some("-...") case 'C' => Some("-.-.")
    case 'D' => Some("-..") case 'E' => Some(".") case 'F' => Some("..-.")
    case 'G' => Some("--.") case 'H' => Some("....") case 'I' => Some("..")
    case 'J' => Some(".---") case 'K' => Some("-.-") case 'L' => Some(".-..")
    case 'M' => Some("--") case 'N' => Some("-.") case 'O' => Some("---")
    case 'P' => Some(".--.") case 'Q' => Some("--.-") case 'R' => Some(".-.")
    case 'S' => Some("...") case 'T' => Some("-") case 'U' => Some("..-")
    case 'V' => Some("...-") case 'W' => Some(".--") case 'X' => Some("-..-")
    case 'Y' => Some("-.--") case 'Z' => Some("--..")
    case '1' => Some(".----") case '2' => Some("..---") case '3' => Some("...--")
    case '4' => Some("....-") case '5' => Some(".....") case '6' => Some("-....")
    case '7' => Some("--...") case '8' => Some("---..") case '9' => Some("----.")
    case '0' => Some("-----")
    case '.' => Some(".-.-.-") case ',' => Some("--..--") case ':' => Some("---...")
    case '?' => Some("..--..") case '\'' => Some(".----.") case '-' => Some("-....-")
    case '/' => Some("-..-.") case '(' => Some("-.--.") case ')' => Some("-.--.-")
    case '"' => Some(".-..-.") case '=' => Some("-...-") case '+' => Some(".-.-.")
    case '@' => Some(".--.-.")
    case _ => None
  }

  /**
   * The inverted dictionary is exactly the inversion of `morse_code_dict`:
   * a code decodes to a character exactly when that character encodes to it.
   * Hence no two keys share a code and the inversion loses nothing.
   */
  lemma InvertedDictIsInverse(c: char, code: string)
    ensures InvertedMorseCodeDict(code) == Some(c) <==> MorseCodeDict(c) == Some(code)
  {
    if MorseCodeDict(c) == Some(code) {
      EncodedDecodes(c);
    }
    if InvertedMorseCodeDict(code) == Some(c) {
      DecodedEncodes(code);
    }
  }

  /** Every code of `morse_code_dict` decodes to its key. */
  lemma EncodedDecodes(c: char)
    requires MorseCodeDict(c).Some?
    ensures InvertedMorseCodeDict(MorseCodeDict(c).value) == Some(c)
  {
  }

  /** Every code of the inverted dictionary encodes back to the same code. */
  lemma DecodedEncodes(code: string)
    requires InvertedMorseCodeDict(code).Some?
    ensures MorseCodeDict(InvertedMorseCodeDict(code).value) == Some(code)
  {
  }

  /** All 54 codes of `morse_code_dict` are distinct. */
  lemma MorseCodeDictInjective(a: char, b: char)
    requires MorseCodeDict(a).Some? && MorseCodeDict(a) == MorseCodeDict(b)
    ensures a == b
  {
    InvertedDictIsInverse(a, MorseCodeDict(a).value);
    InvertedDictIsInverse(b, MorseCodeDict(a).value);
  }

  /** The word separator `' '` is the one entry whose code is `/`. */
  lemma SpaceIsSlash(c: char)
    requires MorseCodeDict(c).Some?
    ensures c == ' ' <==> MorseCodeDict(c) == Some("/")
  {
  }

  /** Every other key is a printable ASCII character, ... */
  lemma KeysArePrintable(c: char)
    requires MorseCodeDict(c).Some? && c != ' '
    ensures '!' <= c <= '_'
  {
  }

  /** ... so none of them is whitespace that `strip` would remove. */
  lemma KeysAreVisible(c: char)
    requires MorseCodeDict(c).Some? && c != ' '
    ensures !IsSpace(c)
  {
    KeysArePrintable(c);
  }

  /** Every other entry's code is made of dots and dashes. */
  lemma CodesAreDotsAndDashes(c: char)
    requires MorseCodeDict(c).Some? && c != ' '
    ensures IsCode(MorseCodeDict(c).value)
  {
    var code := MorseCodeDict(c).value;
    assert |code| <= 6;
    assert forall i | 0 <= i < |code| :: code[i] == '.' || code[i] == '-';
  }

  /** `morse_dict` sends its codes to the letters A to Z, each letter from the prototype's code for it. */
  lemma MorseDictIsLetterPart(code: string, c: char)
    ensures MorseDict(code) == Some(c) <==> 'A' <= c <= 'Z' && MorseCodeDict(c) == Some(code)
  {
    if 'A' <= c <= 'Z' && MorseCodeDict(c) == Some(code) {
      assert MorseDict(code) == Some(c);
    }
  }

  /** Every letter A to Z has exactly one code in `morse_dict`. */
  lemma MorseDictCoversLetters(c: char)
    requires 'A' <= c <= 'Z'
    ensures MorseCodeDict(c).Some? && MorseDict(MorseCodeDict(c).value) == Some(c)
    ensures forall code: string :: MorseDict(code) == Some(c) ==> code == MorseCodeDict(c).value
  {
    forall code: string | MorseDict(code) == Some(c) ensures code == MorseCodeDict(c).value {
      MorseDictIsLetterPart(code, c);
    }
    MorseDictIsLetterPart(MorseCodeDict(c).value, c);
  }

  /** `morse_dict` is injective: distinct codes give distinct letters. */
  lemma MorseDictInjective(a: string, b: string)
    requires MorseDict(a).Some? && MorseDict(a) == MorseDict(b)
    ensures a == b
  {
    MorseDictIsLetterPart(a, MorseDict(a).value);
    MorseDictIsLetterPart(b, MorseDict(a).value);
  }

  /** The prototype's letters and figures are International Morse code. */
  lemma LettersAndFiguresFollowItu(c: char)
    requires 'A' <= c <= 'Z' || '0' <= c <= '9'
    ensures MorseCodeDict(c).Some? && MorseCodeDict(c) == ItuCode(c)
  {
  }

  /**
   * Of the Recommendation's punctuation marks the prototype has all, and with
   * the same codes except the commercial at: `.--.-` instead of `.--.-.`.
   */
  lemma PunctuationFollowsItuExceptAt(c: char)
    requires ItuCode(c).Some?
    ensures MorseCodeDict(c).Some?
    ensures MorseCodeDict(c) == ItuCode(c) <==> c != '@'
  {
  }

  /** `!`, `&`, `;`, `_` and the word separator are extensions outside the Recommendation. */
  lemma ExtensionsOutsideItu(c: char)
    requires MorseCodeDict(c).Some?
    ensures ItuCode(c).None? <==> c == '!' || c == '&' || c == ';' || c == '_' || c == ' '
  {
  }
}
