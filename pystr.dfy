/**
 * The few Python string operations the decoder relies on: `str.isspace`,
 * `str.strip()`, `str.split(sep)` with an explicit separator, and `sep.join`.
 */
module PyStr {

  /** Python's `str.isspace`: the characters `str.strip()` removes when called without arguments. */
  predicate IsSpace(c: char)
  {
    c == ' ' || c == '\t' || c == '\n' || c == '\r' || c == '\U{000B}' || c == '\U{000C}'
    || ('\U{001C}' <= c <= '\U{001F}') || c == '\U{0085}' || c == '\U{00A0}' || c == '\U{1680}'
    || ('\U{2000}' <= c <= '\U{200A}') || c == '\U{2028}' || c == '\U{2029}' || c == '\U{202F}'
    || c == '\U{205F}' || c == '\U{3000}'
  }

  /** `s.lstrip()`: drops the whitespace at the front. */
  function StripLeft(s: string): string
  {
    if s == [] || !IsSpace(s[0]) then s else StripLeft(s[1..])
  }

  /** `lstrip` returns a suffix, everything it removes is whitespace, and what it keeps starts with a non-space. */
  lemma {:induction false} StripLeftSuffix(s: string)
    ensures |StripLeft(s)| <= |s| && StripLeft(s) == s[|s| - |StripLeft(s)|..]
    ensures forall i | 0 <= i < |s| - |StripLeft(s)| :: IsSpace(s[i])
    ensures StripLeft(s) == [] || !IsSpace(StripLeft(s)[0])
    decreases |s|
  {
    if s != [] && IsSpace(s[0]) {
      StripLeftSuffix(s[1..]);
    }
  }

  /** `s.rstrip()`: drops the longest all-whitespace suffix. */
  function StripRight(s: string): string
  {
    if s == [] || !IsSpace(s[|s| - 1]) then s else StripRight(s[..|s| - 1])
  }

  /** `rstrip` returns a prefix, everything it removes is whitespace, and what it keeps ends with a non-space. */
  lemma {:induction false} StripRightPrefix(s: string)
    ensures |StripRight(s)| <= |s| && StripRight(s) == s[..|StripRight(s)|]
    ensures forall i | |StripRight(s)| <= i < |s| :: IsSpace(s[i])
    ensures StripRight(s) == [] || !IsSpace(StripRight(s)[|StripRight(s)| - 1])
    decreases |s|
  {
    if s != [] && IsSpace(s[|s| - 1]) {
      StripRightPrefix(s[..|s| - 1]);
    }
  }

  /** `s.strip()`. */
  function Strip(s: string): string
  {
    StripRight(StripLeft(s))
  }

  /** A string that starts and ends with a non-whitespace character is left alone by `strip`. */
  lemma StripTrimmed(s: string)
    requires s == [] || (!IsSpace(s[0]) && !IsSpace(s[|s| - 1]))
    ensures Strip(s) == s
  {
  }

  /** Stripping `s + " "` gives `s` back when `s` is already trimmed. */
  lemma StripTrailingBlank(s: string)
    requires s != [] && !IsSpace(s[0]) && !IsSpace(s[|s| - 1])
    ensures Strip(s + " ") == s
  {
    var t := s + " ";
    assert StripLeft(t) == t;
    assert t[..|t| - 1] == s;
    assert StripRight(t) == StripRight(s);
  }

  /** A join of parts whose first and last characters are not whitespace is left alone by `strip`. */
  lemma JoinStripped(parts: seq<string>, sep: string)
    requires |parts| >= 1 && forall j | 0 <= j < |parts| :: parts[j] != []
    requires !IsSpace(parts[0][0]) && !IsSpace(parts[|parts| - 1][|parts[|parts| - 1]| - 1])
    ensures Strip(Join(parts, sep)) == Join(parts, sep)
  {
    JoinEnds(parts, sep);
    StripTrimmed(Join(parts, sep));
  }

  /** A join of parts whose first and last characters are not whitespace, with a blank added, strips back to the join. */
  lemma JoinTrimmed(parts: seq<string>, sep: string)
    requires |parts| >= 1 && forall j | 0 <= j < |parts| :: parts[j] != []
    requires !IsSpace(parts[0][0]) && !IsSpace(parts[|parts| - 1][|parts[|parts| - 1]| - 1])
    ensures Strip(Join(parts, sep) + " ") == Join(parts, sep)
  {
    JoinEnds(parts, sep);
    StripTrailingBlank(Join(parts, sep));
  }

  /** `sep` occurs in `s` at position `i`. */
  predicate OccursAt(s: string, sep: string, i: nat)
  {
    i + |sep| <= |s| && s[i..i + |sep|] == sep
  }

  /**
   * `s.split(sep)` for a non-empty separator: scanning from the left, every
   * occurrence of `sep` ends one piece, and pieces may be empty.
   */
  function Split(s: string, sep: string): (r: seq<string>)
    requires sep != []
    ensures |r| >= 1
    decreases |s|
  {
    if |s| < |sep| then [s]
    else if OccursAt(s, sep, 0) then [""] + Split(s[|sep|..], sep)
    else
      var rest := Split(s[1..], sep);
      [[s[0]] + rest[0]] + rest[1..]
  }

  /** A string lacking one of the separator's characters has no occurrence of it. */
  lemma NoOccurrenceWithout(s: string, sep: string, k: nat)
    requires k < |sep| && sep[k] !in s
    ensures forall i: nat | i < |s| :: !OccursAt(s, sep, i)
  {
  }

  /** Without any occurrence of the separator, `split` returns the whole string as the only piece. */
  lemma {:induction false} SplitNone(s: string, sep: string)
    requires sep != []
    requires forall i: nat | i < |s| :: !OccursAt(s, sep, i)
    ensures Split(s, sep) == [s]
    decreases |s|
  {
    if |s| >= |sep| {
      assert !OccursAt(s, sep, 0);
      forall i: nat | i < |s[1..]| ensures !OccursAt(s[1..], sep, i) {
        assert !OccursAt(s, sep, i + 1);
        if i + |sep| <= |s[1..]| {
          assert s[1..][i..i + |sep|] == s[i + 1..i + 1 + |sep|];
        }
      }
      SplitNone(s[1..], sep);
      assert [s[0]] + s[1..] == s;
    }
  }

  /**
   * When the first occurrence of `sep` in `a + sep + rest` is the one right
   * after `a`, `split` returns `a` followed by the pieces of `rest`.
   */
  lemma {:induction false} SplitAfter(a: string, sep: string, rest: string)
    requires sep != []
    requires forall i: nat | i < |a| :: !OccursAt(a + sep + rest, sep, i)
    ensures Split(a + sep + rest, sep) == [a] + Split(rest, sep)
    decreases |a|
  {
    var s := a + sep + rest;
    if a == [] {
      assert s == sep + rest;
      assert s[..|sep|] == sep;
      assert s[|sep|..] == rest;
    } else {
      assert !OccursAt(s, sep, 0);
      var t := a[1..] + sep + rest;
      assert s[1..] == t;
      forall i: nat | i < |a[1..]| ensures !OccursAt(t, sep, i) {
        assert !OccursAt(s, sep, i + 1);
        assert t[i..i + |sep|] == s[i + 1..i + 1 + |sep|];
      }
      SplitAfter(a[1..], sep, rest);
      assert [a[0]] + a[1..] == a;
    }
  }

  /** `sep.join(parts)`. */
  function Join(parts: seq<string>, sep: string): string
  {
    if parts == [] then ""
    else if |parts| == 1 then parts[0]
    else parts[0] + sep + Join(parts[1..], sep)
  }

  /** Joining two non-empty lists puts one separator between their joins. */
  lemma {:induction false} JoinAppend(a: seq<string>, b: seq<string>, sep: string)
    requires a != [] && b != []
    ensures Join(a + b, sep) == Join(a, sep) + sep + Join(b, sep)
  {
    assert (a + b)[0] == a[0];
    if |a| > 1 {
      assert (a + b)[1..] == a[1..] + b;
      JoinAppend(a[1..], b, sep);
      var x, y := Join(a[1..], sep), Join(b, sep);
      assert Join(a + b, sep) == a[0] + sep + (x + sep + y);
      assert a[0] + sep + (x + sep + y) == (a[0] + sep + x) + sep + y;
    } else {
      assert (a + b)[1..] == b;
    }
  }

  /** Joining by blanks around a `/` part produces the word separator `" / "`. */
  lemma JoinAroundSlash(a: seq<string>, b: seq<string>)
    requires a != [] && b != []
    ensures Join(a + ["/"] + b, " ") == Join(a, " ") + " / " + Join(b, " ")
  {
    JoinAppend(a, ["/"] + b, " ");
    assert a + ["/"] + b == a + (["/"] + b);
    assert (["/"] + b)[1..] == b;
  }

  /** A join starts with its first part and ends with its last one. */
  lemma {:induction false} JoinEnds(parts: seq<string>, sep: string)
    requires |parts| >= 1 && forall j | 0 <= j < |parts| :: parts[j] != []
    ensures Join(parts, sep) != []
    ensures Join(parts, sep)[0] == parts[0][0]
    ensures Join(parts, sep)[|Join(parts, sep)| - 1] == parts[|parts| - 1][|parts[|parts| - 1]| - 1]
  {
    if |parts| > 1 {
      JoinEnds(parts[1..], sep);
    }
  }

  /** `''.join(parts)`: the parts in order, which is their join with the empty separator. */
  function Concat(parts: seq<string>): (r: string)
    ensures r == Join(parts, "")
  {
    if parts == [] then ""
    else
      var rest := Concat(parts[1..]);
      assert |parts| == 1 ==> rest == "" && parts[0] + rest == parts[0];
      assert |parts| > 1 ==> parts[0] + rest == parts[0] + "" + rest;
      parts[0] + rest
  }

  /** Every character of `Join(parts, sep)` comes from a part or from the separator. */
  lemma {:induction false} JoinChars(parts: seq<string>, sep: string, p: char -> bool)
    requires forall j | 0 <= j < |parts| :: forall i | 0 <= i < |parts[j]| :: p(parts[j][i])
    requires forall i | 0 <= i < |sep| :: p(sep[i])
    ensures forall i | 0 <= i < |Join(parts, sep)| :: p(Join(parts, sep)[i])
  {
    if |parts| > 1 {
      JoinChars(parts[1..], sep, p);
      var j := Join(parts[1..], sep);
      forall i | 0 <= i < |parts[0] + sep + j| ensures p((parts[0] + sep + j)[i]) {
        if i < |parts[0]| {
        } else if i < |parts[0]| + |sep| {
          assert (parts[0] + sep + j)[i] == sep[i - |parts[0]|];
        } else {
          assert (parts[0] + sep + j)[i] == j[i - |parts[0]| - |sep|];
        }
      }
    }
  }

  /** Splitting on a one-character separator undoes joining pieces that do not contain it. */
  lemma {:induction false} SplitJoin(parts: seq<string>, c: char)
    requires |parts| >= 1
    requires forall j | 0 <= j < |parts| :: c !in parts[j]
    ensures Split(Join(parts, [c]), [c]) == parts
  {
    if |parts| == 1 {
      forall i: nat | i < |parts[0]| ensures !OccursAt(parts[0], [c], i) {
        assert parts[0][i..i + 1] == [parts[0][i]];
      }
      SplitNone(parts[0], [c]);
    } else {
      var rest := Join(parts[1..], [c]);
      var s := parts[0] + [c] + rest;
      forall i: nat | i < |parts[0]| ensures !OccursAt(s, [c], i) {
        assert s[i..i + 1] == [parts[0][i]];
      }
      SplitAfter(parts[0], [c], rest);
      SplitJoin(parts[1..], c);
      assert parts == [parts[0]] + parts[1..];
    }
  }
}
