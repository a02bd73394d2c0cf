/**
 The parser for the pasted coordinate text (UTM_Circle.py, lines 47-60): the
 whole text is stripped and split into lines; each line has its commas
 turned into spaces and is split on whitespace; a line of exactly two tokens
 that both parse as numbers gives an (easting, northing) pair, any other
 line gives an error message that quotes the line as it was typed.

 Python's `float()` is not modelled: it is the parameter `parse`, which
 yields `Some(v)` where `float()` returns `v` and `None` where it raises
 ValueError.
 */
module CoordinateInput {
  import opened Wrappers
  import opened Text

  /** An accepted (easting, northing) pair, in the order the line gives them. */
  datatype Coord = Coord(easting: real, northing: real)

  /** Python's `float()` applied to one token. */
  type FloatParser = string -> Option<real>

  /** What one input line contributes: a pair, or an error message. */
  datatype LineOutcome = Accepted(coord: Coord) | Rejected(message: string)

  const WrongFormat: string := "Wrong format: "
  const InvalidNumberFormat: string := "Invalid number format: "

  /** `coord_text.strip().splitlines()`: there are no lines exactly when the
      text is all whitespace. */
  function Lines(text: string): (lines: seq<string>)
    ensures forall l :: l in lines ==> NoLineBreak(l)
    ensures lines == [] <==> AllSpace(text)
  {
    StripEmptyIff(text);
    SplitLines(Strip(text))
  }

  /** A comma or a Python whitespace character. */
  predicate IsSeparator(c: char) {
    c == ',' || IsSpace(c)
  }

  /** A non-empty string with no separator in it. */
  predicate IsToken(t: string) {
    t != [] && forall i :: 0 <= i < |t| ==> !IsSeparator(t[i])
  }

  /** `line.replace(",", " ").split()`: the tokens are non-empty and hold
      neither a comma nor whitespace. */
  function Tokens(line: string): (tokens: seq<string>)
    ensures forall t :: t in tokens ==> IsToken(t)
  {
    var spaced := ReplaceCommas(line);
    var tokens := SplitWhitespace(spaced);
    assert forall t, i :: t in tokens && 0 <= i < |t| ==> t[i] in t;
    tokens
  }

  /** The condition under which a line is accepted: two tokens, both of
      which `parse` accepts. */
  predicate Acceptable(line: string, parse: FloatParser) {
    var t := Tokens(line);
    |t| == 2 && parse(t[0]).Some? && parse(t[1]).Some?
  }

  /** The pair an acceptable line denotes. */
  function PairOf(line: string, parse: FloatParser): Coord
    requires Acceptable(line, parse)
  {
    var t := Tokens(line);
    Coord(parse(t[0]).value, parse(t[1]).value)
  }

  /** The message for a line that is not acceptable. */
  function Complaint(line: string): string {
    if |Tokens(line)| == 2 then InvalidNumberFormat + line else WrongFormat + line
  }

  /** The branch of lines 52-60 that one line takes. */
  function Classify(line: string, parse: FloatParser): LineOutcome {
    var parts := Tokens(line);
    if |parts| == 2 then
      match (parse(parts[0]), parse(parts[1]))
      case (Some(e), Some(n)) => Accepted(Coord(e, n))
      case _ => Rejected(InvalidNumberFormat + line)
    else
      Rejected(WrongFormat + line)
  }

  /** The `coords` list after the loop has read `lines`. */
  function ParsedCoords(lines: seq<string>, parse: FloatParser): seq<Coord> {
    if lines == [] then []
    else
      var before := ParsedCoords(lines[..|lines| - 1], parse);
      match Classify(lines[|lines| - 1], parse)
      case Accepted(c) => before + [c]
      case Rejected(_) => before
  }

  /** The `errors` list after the loop has read `lines`. */
  function ParsedErrors(lines: seq<string>, parse: FloatParser): seq<string> {
    if lines == [] then []
    else
      var before := ParsedErrors(lines[..|lines| - 1], parse);
      match Classify(lines[|lines| - 1], parse)
      case Accepted(_) => before
      case Rejected(m) => before + [m]
  }

  // ------------------------------------------------------------ the loop

  /** Lines 47-60, lifted out of the button handler: split the text into
      lines, then read them. */
  method ParseInput(text: string, parse: FloatParser) returns (coords: seq<Coord>, errors: seq<string>)
    ensures coords == ParsedCoords(Lines(text), parse)
    ensures errors == ParsedErrors(Lines(text), parse)
    ensures |coords| + |errors| == |Lines(text)|
  {
    coords, errors := ReadLines(SplitLines(Strip(text)), parse);
  }

  /** The loop of lines 51-60 over the lines of the input. */
  method ReadLines(lines: seq<string>, parse: FloatParser) returns (coords: seq<Coord>, errors: seq<string>)
    ensures coords == ParsedCoords(lines, parse)
    ensures errors == ParsedErrors(lines, parse)
    ensures |coords| + |errors| == |lines|
  {
    coords, errors := [], [];
    for i := 0 to |lines|
      invariant coords == ParsedCoords(lines[..i], parse)
      invariant errors == ParsedErrors(lines[..i], parse)
      invariant |coords| + |errors| == i
    {
      var line := lines[i];
      var parts := Tokens(line);
      if |parts| == 2 {
        var e, n := parse(parts[0]), parse(parts[1]);
        if e.Some? && n.Some? {
          ReadAccepted(lines, i, parse, Coord(e.value, n.value));
          coords := coords + [Coord(e.value, n.value)];
        } else {
          ReadRejected(lines, i, parse, InvalidNumberFormat + line);
          errors := errors + [InvalidNumberFormat + line];
        }
      } else {
        ReadRejected(lines, i, parse, WrongFormat + line);
        errors := errors + [WrongFormat + line];
      }
    }
    assert lines[..|lines|] == lines;
  }

  /** An iteration on an acceptable line appends its pair to `coords`. */
  lemma ReadAccepted(lines: seq<string>, i: nat, parse: FloatParser, c: Coord)
    requires i < |lines| && Classify(lines[i], parse) == Accepted(c)
    ensures ParsedCoords(lines[..i + 1], parse) == ParsedCoords(lines[..i], parse) + [c]
    ensures ParsedErrors(lines[..i + 1], parse) == ParsedErrors(lines[..i], parse)
  {
    assert lines[..i + 1][..i] == lines[..i];
  }

  /** An iteration on any other line appends its message to `errors`. */
  lemma ReadRejected(lines: seq<string>, i: nat, parse: FloatParser, m: string)
    requires i < |lines| && Classify(lines[i], parse) == Rejected(m)
    ensures ParsedCoords(lines[..i + 1], parse) == ParsedCoords(lines[..i], parse)
    ensures ParsedErrors(lines[..i + 1], parse) == ParsedErrors(lines[..i], parse) + [m]
  {
    assert lines[..i + 1][..i] == lines[..i];
  }

  // ----------------------------------------------- partition and order

  lemma {:induction false} ParsedConcat(a: seq<string>, b: seq<string>, parse: FloatParser)
    ensures ParsedCoords(a + b, parse) == ParsedCoords(a, parse) + ParsedCoords(b, parse)
    ensures ParsedErrors(a + b, parse) == ParsedErrors(a, parse) + ParsedErrors(b, parse)
    decreases |b|
  {
    if b == [] {
      assert a + b == a;
    } else {
      var ab := a + b;
      assert ab[..|ab| - 1] == a + b[..|b| - 1];
      assert ab[|ab| - 1] == b[|b| - 1];
      ParsedConcat(a, b[..|b| - 1], parse);
    }
  }

  /** Every line lands in exactly one of the two lists. */
  lemma {:induction false} EveryLineCounted(lines: seq<string>, parse: FloatParser)
    ensures |ParsedCoords(lines, parse)| + |ParsedErrors(lines, parse)| == |lines|
  {
    if lines != [] {
      EveryLineCounted(lines[..|lines| - 1], parse);
    }
  }

  lemma ParsedSingle(line: string, parse: FloatParser)
    ensures ParsedCoords([line], parse) == if Acceptable(line, parse) then [PairOf(line, parse)] else []
    ensures ParsedErrors([line], parse) == if Acceptable(line, parse) then [] else [Complaint(line)]
  {
    assert [line][..0] == [];
  }

  /** An acceptable line is in `coords`, after the pairs of the acceptable
      lines before it and nothing else. */
  lemma AcceptedLinePosition(lines: seq<string>, parse: FloatParser, i: nat)
    requires i < |lines| && Acceptable(lines[i], parse)
    ensures var r := |ParsedCoords(lines[..i], parse)|;
            r < |ParsedCoords(lines, parse)| && ParsedCoords(lines, parse)[r] == PairOf(lines[i], parse)
  {
    assert lines == lines[..i] + [lines[i]] + lines[i + 1..];
    ParsedSingle(lines[i], parse);
    ParsedConcat(lines[..i], [lines[i]], parse);
    ParsedConcat(lines[..i] + [lines[i]], lines[i + 1..], parse);
  }

  /** A line that is not acceptable is quoted in `errors`, after the
      messages of the rejected lines before it and nothing else; the message
      quotes the line as typed, commas and all. */
  lemma RejectedLinePosition(lines: seq<string>, parse: FloatParser, i: nat)
    requires i < |lines| && !Acceptable(lines[i], parse)
    ensures var r := |ParsedErrors(lines[..i], parse)|;
            r < |ParsedErrors(lines, parse)| && ParsedErrors(lines, parse)[r] == Complaint(lines[i])
  {
    assert lines == lines[..i] + [lines[i]] + lines[i + 1..];
    ParsedSingle(lines[i], parse);
    ParsedConcat(lines[..i], [lines[i]], parse);
    ParsedConcat(lines[..i] + [lines[i]], lines[i + 1..], parse);
  }

  /** Every pair in `coords` comes from an acceptable line. */
  lemma {:induction false} CoordOrigin(lines: seq<string>, parse: FloatParser, k: nat)
    requires k < |ParsedCoords(lines, parse)|
    ensures exists i :: 0 <= i < |lines| && Acceptable(lines[i], parse)
                        && |ParsedCoords(lines[..i], parse)| == k
                        && ParsedCoords(lines, parse)[k] == PairOf(lines[i], parse)
  {
    var n := |lines| - 1;
    var init := lines[..n];
    assert lines == init + [lines[n]];
    ParsedSingle(lines[n], parse);
    ParsedConcat(init, [lines[n]], parse);
    if k < |ParsedCoords(init, parse)| {
      CoordOrigin(init, parse, k);
      var i :| 0 <= i < |init| && Acceptable(init[i], parse)
               && |ParsedCoords(init[..i], parse)| == k
               && ParsedCoords(init, parse)[k] == PairOf(init[i], parse);
      assert lines[..i] == init[..i];
      assert lines[i] == init[i];
    } else {
      assert lines[..n] == init;
    }
  }

  /** Every message in `errors` quotes a line that is not acceptable. */
  lemma {:induction false} ErrorOrigin(lines: seq<string>, parse: FloatParser, k: nat)
    requires k < |ParsedErrors(lines, parse)|
    ensures exists i :: 0 <= i < |lines| && !Acceptable(lines[i], parse)
                        && |ParsedErrors(lines[..i], parse)| == k
                        && ParsedErrors(lines, parse)[k] == Complaint(lines[i])
  {
    var n := |lines| - 1;
    var init := lines[..n];
    assert lines == init + [lines[n]];
    ParsedSingle(lines[n], parse);
    ParsedConcat(init, [lines[n]], parse);
    if k < |ParsedErrors(init, parse)| {
      ErrorOrigin(init, parse, k);
      var i :| 0 <= i < |init| && !Acceptable(init[i], parse)
               && |ParsedErrors(init[..i], parse)| == k
               && ParsedErrors(init, parse)[k] == Complaint(init[i]);
      assert lines[..i] == init[..i];
      assert lines[i] == init[i];
    } else {
      assert lines[..n] == init;
    }
  }

  /** Of two acceptable lines, the earlier one's pair comes first in
      `coords`; of two rejected lines, the earlier one's message comes first
      in `errors`. */
  lemma InputOrderKept(lines: seq<string>, parse: FloatParser, i: nat, j: nat)
    requires i < j <= |lines|
    ensures Acceptable(lines[i], parse) ==>
              |ParsedCoords(lines[..i], parse)| < |ParsedCoords(lines[..j], parse)|
    ensures !Acceptable(lines[i], parse) ==>
              |ParsedErrors(lines[..i], parse)| < |ParsedErrors(lines[..j], parse)|
  {
    assert lines[..j] == lines[..i] + [lines[i]] + lines[i + 1..j];
    ParsedSingle(lines[i], parse);
    ParsedConcat(lines[..i], [lines[i]], parse);
    ParsedConcat(lines[..i] + [lines[i]], lines[i + 1..j], parse);
  }

  // ------------------------------------------------------------ tokens

  lemma AllSeparatorsSpaced(seps: string)
    requires forall i :: 0 <= i < |seps| ==> IsSeparator(seps[i])
    ensures AllSpace(ReplaceCommas(seps))
  {
  }

  /** A non-empty run of commas and whitespace, of any length and mix,
      separates the tokens on its left from those on its right. */
  lemma TokensConcat(x: string, seps: string, y: string)
    requires seps != [] && forall i :: 0 <= i < |seps| ==> IsSeparator(seps[i])
    ensures Tokens(x + seps + y) == Tokens(x) + Tokens(y)
  {
    ReplaceCommasConcat(x, seps);
    ReplaceCommasConcat(x + seps, y);
    AllSeparatorsSpaced(seps);
    SplitFromConcat(ReplaceCommas(x), ReplaceCommas(seps), ReplaceCommas(y), []);
  }

  /** A token on its own is one token. */
  lemma TokensOfToken(t: string)
    requires IsToken(t)
    ensures Tokens(t) == [t]
  {
    assert ReplaceCommas(t) == t;
    SplitSingleWord(t);
  }

  /** The tokens written one after the other, separated by `seps`. */
  function JoinTokens(tokens: seq<string>, seps: string): string {
    if |tokens| <= 1 then (if tokens == [] then [] else tokens[0])
    else tokens[0] + seps + JoinTokens(tokens[1..], seps)
  }

  /** Splitting tokens joined by any non-empty run of separators gives the
      tokens back. */
  lemma {:induction false} TokensOfJoinTokens(tokens: seq<string>, seps: string)
    requires forall t :: t in tokens ==> IsToken(t)
    requires seps != [] && forall i :: 0 <= i < |seps| ==> IsSeparator(seps[i])
    ensures Tokens(JoinTokens(tokens, seps)) == tokens
  {
    if tokens == [] {
      SplitAllSpace(ReplaceCommas([]));
    } else if |tokens| == 1 {
      TokensOfToken(tokens[0]);
    } else {
      assert tokens[0] in tokens;
      assert forall t :: t in tokens[1..] ==> t in tokens;
      TokensConcat(tokens[0], seps, JoinTokens(tokens[1..], seps));
      TokensOfToken(tokens[0]);
      TokensOfJoinTokens(tokens[1..], seps);
    }
  }

  /** Commas and whitespace are interchangeable as separators: "a,b",
      "a b" and "a , b" give the same tokens. */
  lemma SeparatorsInterchangeable(x: string, y: string, seps1: string, seps2: string)
    requires seps1 != [] && forall i :: 0 <= i < |seps1| ==> IsSeparator(seps1[i])
    requires seps2 != [] && forall i :: 0 <= i < |seps2| ==> IsSeparator(seps2[i])
    ensures Tokens(x + seps1 + y) == Tokens(x + seps2 + y)
  {
    TokensConcat(x, seps1, y);
    TokensConcat(x, seps2, y);
  }

  // ------------------------------------------------- blank text and lines

  /** A line of whitespace only, such as an empty line between two pairs,
      has no tokens and is reported as "Wrong format: " followed by the line. */
  lemma BlankLineIsWrongFormat(line: string, parse: FloatParser)
    requires AllSpace(line)
    ensures Tokens(line) == []
    ensures Classify(line, parse) == Rejected(WrongFormat + line)
  {
    SplitAllSpace(ReplaceCommas(line));
  }

  /** Text that is all whitespace yields neither pairs nor errors. */
  lemma {:induction false} BlankTextYieldsNothing(text: string, parse: FloatParser)
    ensures AllSpace(text) <==> ParsedCoords(Lines(text), parse) == [] && ParsedErrors(Lines(text), parse) == []
  {
    EveryLineCounted(Lines(text), parse);
  }

  /** An empty line between two lines survives the whole-text strip and is
      reported as "Wrong format: " with nothing after it. */
  lemma InteriorBlankLineKept(a: string, c: string, parse: FloatParser)
    requires a != [] && NoLineBreak(a) && !IsSpace(a[0])
    requires c != [] && NoLineBreak(c) && !IsSpace(c[|c| - 1])
    ensures Lines(a + "\n\n" + c) == [a, "", c]
    ensures Classify(Lines(a + "\n\n" + c)[1], parse) == Rejected("Wrong format: ")
  {
    var s := a + "\n\n" + c;
    assert s[0] == a[0] && s[|s| - 1] == c[|c| - 1];
    StripUnchanged(s);
    SplitLinesBlankBetween(a, c);
    assert Lines(s) == [a, "", c];
    BlankLineIsWrongFormat("", parse);
  }

  /** A line holding a single number, such as "465177.689", is a
      wrong-format line. */
  lemma SingleTokenIsWrongFormat(t: string, parse: FloatParser)
    requires IsToken(t)
    ensures Classify(t, parse) == Rejected(WrongFormat + t)
  {
    TokensOfToken(t);
  }

  /** Two tokens separated by a comma, by spaces, or by any mix of the two,
      as in "465177.689,5708543.612" and "465154.25 5708490.11", are
      exactly those two tokens, and the line is accepted exactly when both parse. */
  lemma TwoTokenLine(e: string, seps: string, n: string, parse: FloatParser)
    requires IsToken(e) && IsToken(n)
    requires seps != [] && forall i :: 0 <= i < |seps| ==> IsSeparator(seps[i])
    ensures Tokens(e + seps + n) == [e, n]
    ensures Classify(e + seps + n, parse)
            == if parse(e).Some? && parse(n).Some? then Accepted(Coord(parse(e).value, parse(n).value))
               else Rejected(InvalidNumberFormat + e + seps + n)
  {
    TokensConcat(e, seps, n);
    TokensOfToken(e);
    TokensOfToken(n);
  }

  /** An error message quotes the line as typed: what follows the prefix is
      the line itself, so commas in it are kept rather than shown as spaces. */
  lemma ComplaintQuotesTypedLine(line: string)
    requires ',' in line
    ensures var prefix := if |Tokens(line)| == 2 then InvalidNumberFormat else WrongFormat;
            Complaint(line) == prefix + line && Complaint(line) != prefix + ReplaceCommas(line)
  {
    var prefix := if |Tokens(line)| == 2 then InvalidNumberFormat else WrongFormat;
    var i :| 0 <= i < |line| && line[i] == ',';
    assert (prefix + line)[|prefix| + i] == ',';
    assert (prefix + ReplaceCommas(line))[|prefix| + i] == ' ';
  }
}
