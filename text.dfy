/**
 The Python string builtins the input parser relies on: `str.strip()`,
 `str.splitlines()`, `str.replace(",", " ")` and `str.split()` with no
 arguments, over strings of Unicode scalar values.
 */
module Text {

  /** Python's `str.isspace()` for a single character: the whitespace that
      `strip()` removes and `split()` splits on. */
  predicate IsSpace(c: char) {
    var u := c as int;
    (0x09 <= u <= 0x0D) || (0x1C <= u <= 0x20) || u == 0x85 || u == 0xA0 || u == 0x1680
    || (0x2000 <= u <= 0x200A) || u == 0x2028 || u == 0x2029 || u == 0x202F || u == 0x205F
    || u == 0x3000
  }

  /** A line boundary of `str.splitlines()`; the pair "\r\n" is one boundary (see BreakLength). */
  predicate IsLineBreak(c: char) {
    var u := c as int;
    (0x0A <= u <= 0x0D) || (0x1C <= u <= 0x1E) || u == 0x85 || u == 0x2028 || u == 0x2029
  }

  predicate AllSpace(s: string) {
    forall i :: 0 <= i < |s| ==> IsSpace(s[i])
  }

  predicate NoSpace(s: string) {
    forall i :: 0 <= i < |s| ==> !IsSpace(s[i])
  }

  predicate NoLineBreak(s: string) {
    forall i :: 0 <= i < |s| ==> !IsLineBreak(s[i])
  }

  // ---------------------------------------------------------------- strip

  /** Drops the leading whitespace: what remains is a suffix of `s` that does
      not start with whitespace, and everything dropped was whitespace. */
  function TrimStart(s: string): (r: string)
    ensures |r| <= |s| && r == s[|s| - |r|..]
    ensures AllSpace(s[..|s| - |r|])
    ensures r == [] || !IsSpace(r[0])
  {
    if s != [] && IsSpace(s[0]) then
      var r := TrimStart(s[1..]);
      assert s[..|s| - |r|] == [s[0]] + s[1..][..|s| - 1 - |r|];
      r
    else
      s
  }

  /** Drops the trailing whitespace: what remains is a prefix of `s` that does
      not end with whitespace, and everything dropped was whitespace. */
  function TrimEnd(s: string): (r: string)
    ensures |r| <= |s| && r == s[..|r|]
    ensures AllSpace(s[|r|..])
    ensures r == [] || !IsSpace(r[|r| - 1])
  {
    if s != [] && IsSpace(s[|s| - 1]) then
      var r := TrimEnd(s[..|s| - 1]);
      assert s[|r|..] == s[..|s| - 1][|r|..] + [s[|s| - 1]];
      r
    else
      s
  }

  /** `str.strip()`: drops the leading and the trailing whitespace. */
  function Strip(s: string): (r: string)
    ensures |r| <= |s|
    ensures r == [] || (!IsSpace(r[0]) && !IsSpace(r[|r| - 1]))
  {
    TrimEnd(TrimStart(s))
  }

  /** What `str.strip()` keeps is a contiguous middle of `s`, starting at
      position `i`, with only whitespace on either side of it. */
  lemma StripStart(s: string) returns (i: nat)
    ensures i + |Strip(s)| <= |s| && Strip(s) == s[i..i + |Strip(s)|]
    ensures AllSpace(s[..i]) && AllSpace(s[i + |Strip(s)|..])
  {
    var t := TrimStart(s);
    var r := TrimEnd(t);
    i := |s| - |t|;
    assert s[i..i + |r|] == t[..|r|];
    assert s[i + |r|..] == t[|r|..];
  }

  /** The whole-text strip leaves nothing exactly when the text is all whitespace. */
  lemma StripEmptyIff(s: string)
    ensures Strip(s) == [] <==> AllSpace(s)
  {
    var i := StripStart(s);
    if Strip(s) == [] {
      assert s == s[..i] + s[i..];
      AllSpaceConcat(s[..i], s[i..]);
    } else {
      assert s[i] == Strip(s)[0];
    }
  }

  lemma AllSpaceConcat(a: string, b: string)
    requires AllSpace(a) && AllSpace(b)
    ensures AllSpace(a + b)
  {
  }

  /** Text that neither starts nor ends with whitespace is its own strip. */
  lemma StripUnchanged(s: string)
    requires s != [] && !IsSpace(s[0]) && !IsSpace(s[|s| - 1])
    ensures Strip(s) == s
  {
  }

  // ----------------------------------------------------------- splitlines

  /** Index of the first line boundary of `s`, or `|s|` when there is none. */
  function LineEnd(s: string): (k: nat)
    ensures k <= |s|
    ensures NoLineBreak(s[..k])
    ensures k < |s| ==> IsLineBreak(s[k])
  {
    if s == [] || IsLineBreak(s[0]) then 0
    else
      var k := LineEnd(s[1..]);
      assert s[..k + 1] == [s[0]] + s[1..][..k];
      1 + k
  }

  /** Length of the line boundary at `s[k]`: "\r\n" is one boundary of two characters. */
  function BreakLength(s: string, k: nat): (n: nat)
    requires k < |s|
    ensures 1 <= n && k + n <= |s|
  {
    if s[k] == '\r' && k + 1 < |s| && s[k + 1] == '\n' then 2 else 1
  }

  /** `str.splitlines()`: the lines of `s` without their boundaries; text that
      ends with a boundary has no empty line after it. */
  function SplitLines(s: string): (lines: seq<string>)
    ensures forall l :: l in lines ==> NoLineBreak(l)
    ensures lines == [] <==> s == []
    decreases |s|
  {
    if s == [] then []
    else
      var k := LineEnd(s);
      if k == |s| then
        assert s[..k] == s;
        [s]
      else
        [s[..k]] + SplitLines(s[k + BreakLength(s, k)..])
  }

  /** The lines, each followed by "\n". */
  function JoinLines(lines: seq<string>): string {
    if lines == [] then [] else lines[0] + "\n" + JoinLines(lines[1..])
  }

  lemma LineEndAt(a: string, b: char, c: string)
    requires NoLineBreak(a) && IsLineBreak(b)
    ensures LineEnd(a + [b] + c) == |a|
  {
    var s := a + [b] + c;
    assert s[..|a|] == a && s[|a|] == b;
    var k := LineEnd(s);
  }

  lemma LineEndNone(a: string)
    requires NoLineBreak(a)
    ensures LineEnd(a) == |a|
  {
    var k := LineEnd(a);
  }

  /** A line ended by a boundary other than "\r" comes off the front. */
  lemma SplitLinesCons(a: string, b: char, rest: string)
    requires NoLineBreak(a) && IsLineBreak(b) && b != '\r'
    ensures SplitLines(a + [b] + rest) == [a] + SplitLines(rest)
  {
    var s := a + [b] + rest;
    LineEndAt(a, b, rest);
    assert s[..|a|] == a;
    assert s[|a| + 1..] == rest;
  }

  /** "\r\n" is one boundary: the line before it comes off the front, with
      no empty line between the two characters. */
  lemma SplitLinesCrLf(a: string, rest: string)
    requires NoLineBreak(a)
    ensures SplitLines(a + "\r\n" + rest) == [a] + SplitLines(rest)
  {
    var s := a + "\r\n" + rest;
    assert s == a + ['\r'] + (['\n'] + rest);
    LineEndAt(a, '\r', ['\n'] + rest);
    assert BreakLength(s, |a|) == 2;
    assert s[..|a|] == a;
    assert s[|a| + 2..] == rest;
  }

  /** A carriage return not followed by "\n" is a boundary of its own. */
  lemma SplitLinesLoneCr(a: string, rest: string)
    requires NoLineBreak(a)
    requires rest == [] || rest[0] != '\n'
    ensures SplitLines(a + "\r" + rest) == [a] + SplitLines(rest)
  {
    var s := a + "\r" + rest;
    LineEndAt(a, '\r', rest);
    assert BreakLength(s, |a|) == 1;
    assert s[..|a|] == a;
    assert s[|a| + 1..] == rest;
  }

  /** A non-empty text without boundaries is one line. */
  lemma SplitLinesSingle(a: string)
    requires a != [] && NoLineBreak(a)
    ensures SplitLines(a) == [a]
  {
    LineEndNone(a);
  }

  /** An empty line between two lines is a line of its own. */
  lemma SplitLinesBlankBetween(a: string, c: string)
    requires NoLineBreak(a) && c != [] && NoLineBreak(c)
    ensures SplitLines(a + "\n\n" + c) == [a, "", c]
  {
    assert a + "\n\n" + c == a + ['\n'] + ([] + ['\n'] + c);
    SplitLinesCons(a, '\n', [] + ['\n'] + c);
    SplitLinesCons([], '\n', c);
    SplitLinesSingle(c);
  }

  /** Splitting newline-terminated lines gives those lines back. */
  lemma {:induction false} SplitLinesOfJoinLines(lines: seq<string>)
    requires forall l :: l in lines ==> NoLineBreak(l)
    ensures SplitLines(JoinLines(lines)) == lines
  {
    if lines != [] {
      var rest := JoinLines(lines[1..]);
      assert JoinLines(lines) == lines[0] + ['\n'] + rest;
      SplitLinesCons(lines[0], '\n', rest);
      assert forall l :: l in lines[1..] ==> l in lines;
      SplitLinesOfJoinLines(lines[1..]);
    }
  }

  // -------------------------------------------------------- replace, split

  /** `s.replace(",", " ")`: every comma becomes a space, nothing else moves. */
  function ReplaceCommas(s: string): (r: string)
    ensures |r| == |s| && ',' !in r
    ensures forall i :: 0 <= i < |s| && s[i] != ',' ==> r[i] == s[i]
    ensures forall i :: 0 <= i < |s| && s[i] == ',' ==> r[i] == ' '
  {
    seq(|s|, i requires 0 <= i < |s| => if s[i] == ',' then ' ' else s[i])
  }

  lemma ReplaceCommasConcat(a: string, b: string)
    ensures ReplaceCommas(a + b) == ReplaceCommas(a) + ReplaceCommas(b)
  {
    assert forall i :: 0 <= i < |a| + |b| ==>
      ReplaceCommas(a + b)[i] == (ReplaceCommas(a) + ReplaceCommas(b))[i];
  }

  /** The word under construction, if any. */
  function Flush(word: string): seq<string> {
    if word == [] then [] else [word]
  }

  /** `str.split()` over the rest `s` of the text, with `word` the
      characters of the current word read so far. */
  function SplitFrom(s: string, word: string): (words: seq<string>)
    requires NoSpace(word)
    ensures forall w :: w in words ==> w != [] && NoSpace(w)
    ensures forall w, c :: w in words && c in w ==> c in word || c in s
    decreases |s|
  {
    if s == [] then Flush(word)
    else if IsSpace(s[0]) then
      var rest := SplitFrom(s[1..], []);
      assert forall c :: c in s[1..] ==> c in s;
      Flush(word) + rest
    else
      var rest := SplitFrom(s[1..], word + [s[0]]);
      assert forall c :: c in s[1..] ==> c in s;
      rest
  }

  /** `str.split()`: the maximal runs of non-whitespace, in order. */
  function SplitWhitespace(s: string): (words: seq<string>)
    ensures forall w :: w in words ==> w != [] && NoSpace(w)
    ensures forall w, c :: w in words && c in w ==> c in s
  {
    SplitFrom(s, [])
  }

  /** Leading whitespace is skipped. */
  lemma {:induction false} SplitSkipsSpaces(p: string, y: string)
    requires AllSpace(p)
    ensures SplitFrom(p + y, []) == SplitFrom(y, [])
  {
    if p != [] {
      assert (p + y)[0] == p[0] && (p + y)[1..] == p[1..] + y;
      SplitSkipsSpaces(p[1..], y);
      assert SplitFrom(p + y, []) == Flush([]) + SplitFrom(p[1..] + y, []);
    } else {
      assert p + y == y;
    }
  }

  /** A non-empty run of whitespace separates the words on its left from
      those on its right, whatever its length or its characters. */
  lemma {:induction false} SplitFromConcat(x: string, seps: string, y: string, word: string)
    requires NoSpace(word)
    requires seps != [] && AllSpace(seps)
    ensures SplitFrom(x + seps + y, word) == SplitFrom(x, word) + SplitFrom(y, [])
    decreases |x|
  {
    var s := x + seps + y;
    if x == [] {
      assert s == seps + y && s[1..] == seps[1..] + y;
      SplitSkipsSpaces(seps[1..], y);
    } else {
      assert s[1..] == x[1..] + seps + y;
      if IsSpace(x[0]) {
        SplitFromConcat(x[1..], seps, y, []);
      } else {
        SplitFromConcat(x[1..], seps, y, word + [x[0]]);
      }
    }
  }

  lemma {:induction false} SplitFromWord(w: string, word: string)
    requires NoSpace(word) && NoSpace(w)
    ensures NoSpace(word + w)
    ensures SplitFrom(w, word) == Flush(word + w)
    decreases |w|
  {
    if w != [] {
      assert word + w == (word + [w[0]]) + w[1..];
      SplitFromWord(w[1..], word + [w[0]]);
    } else {
      assert word + w == word;
    }
  }

  /** A non-empty string without whitespace is one word. */
  lemma SplitSingleWord(w: string)
    requires w != [] && NoSpace(w)
    ensures SplitWhitespace(w) == [w]
  {
    SplitFromWord(w, []);
    assert [] + w == w;
  }

  /** A string of whitespace only has no words. */
  lemma SplitAllSpace(s: string)
    requires AllSpace(s)
    ensures SplitWhitespace(s) == []
  {
    SplitSkipsSpaces(s, []);
    assert s + [] == s;
  }
}
