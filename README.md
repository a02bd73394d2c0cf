# UTM circles: input parsing and batch assembly

`UTM_Circle.py` is a small Streamlit application. The user pastes UTM
coordinates (easting and northing, one pair per line, separated by a comma or
by spaces) and picks a UTM zone, a radius and a number of points per circle.
Pressing "Generate Circles" then does the following:

- it parses the pasted text into pairs and error messages;
- it generates a ring of points around every pair, with its WGS84
  latitude and longitude;
- it labels the rings "Circle 1", "Circle 2", ... in input order;
- it assembles a table of the ring centres and one combined table of all
  ring points.

This project models the discrete logic of that handler:

- **Text** (`text.dfy`). The Python string builtins the parser relies on:
  `str.strip()`, `str.splitlines()`, `str.replace(",", " ")` and `str.split()`.
  They are stated over Python's own whitespace and line-boundary characters.
- **Decimal** (`decimal.dfy`). The decimal rendering of integers used by the
  f-strings `f"EPSG:{...}"` and `f"Circle {...}"`, and its inverse.
- **CoordinateInput** (`coordinate_input.dfy`). The line parser: the
  whole-text strip and split into lines, the tokenisation of one line, and
  the three-way classification of a line. A line is accepted, or rejected
  as "Invalid number format: ", or rejected as "Wrong format: ". The module
  also holds the loop that fills `coords` and `errors`, as a method proved
  against recursive specification functions.
- **Circles** (`circles.dfy`). The EPSG code of a zone, and the shape of the
  table `generate_circle_from_utm` returns: `num_points` rows at angles
  `linspace(0, 360, num_points)`. It also holds the labels, the
  centre-table and combined-table loop, and the handler as a whole.

Python's `float()` is a parameter of the model. It returns `Some(v)` where
`float()` returns `v`, and `None` where `float()` raises `ValueError`. The
projection to WGS84 is folded into an opaque `Geodesy` value: two functions
from the EPSG code, the centre and the angle to a position. Both are
described under "Left out".

## Model

| member | source | states |
|---|---|---|
| Text.TrimStart | UTM_Circle.py:47 | the leading part of `strip()`: the result is a suffix of the input that does not start with whitespace, and all that was dropped is whitespace |
| Text.TrimEnd | UTM_Circle.py:47 | the trailing part of `strip()`: the result is a prefix of the input that does not end with whitespace, and all that was dropped is whitespace |
| Text.Strip | UTM_Circle.py:47 | `str.strip()` is no longer than its input and is empty or starts and ends with a non-whitespace character |
| Text.StripStart | UTM_Circle.py:47 | `strip()` keeps a contiguous middle of the text: it gives the position where that middle starts, with only whitespace before and after it |
| Text.StripEmptyIff | UTM_Circle.py:47 | the stripped text is empty exactly when the text is all whitespace (both directions) |
| Text.StripUnchanged | UTM_Circle.py:47 | text that neither starts nor ends with whitespace is left as it is by `strip()` |
| Text.LineEnd | UTM_Circle.py:47 | the first line boundary: no boundary before it, and a boundary at it unless it is the end of the text |
| Text.SplitLines | UTM_Circle.py:47 | `str.splitlines()`: no line contains a boundary character, and there are no lines exactly when the text is empty |
| Text.SplitLinesCons | UTM_Circle.py:47 | a line ended by a boundary other than carriage return is split off the front, and the rest is split on its own |
| Text.SplitLinesCrLf | UTM_Circle.py:47 | "\r\n" is one line boundary: the line before it comes off the front, with no empty line between the two characters |
| Text.SplitLinesLoneCr | UTM_Circle.py:47 | a carriage return that is not followed by "\n" is a line boundary of its own |
| Text.SplitLinesSingle | UTM_Circle.py:47 | a non-empty text without boundaries is exactly one line |
| Text.SplitLinesBlankBetween | UTM_Circle.py:47 | two lines with an empty line between them split into those three lines, the empty one included |
| Text.SplitLinesOfJoinLines | UTM_Circle.py:47 | splitting newline-terminated lines gives exactly those lines back (round trip) |
| Text.ReplaceCommas | UTM_Circle.py:52 | `replace(",", " ")` keeps the length and leaves no comma: each comma becomes a space and every other character stays in place |
| Text.ReplaceCommasConcat | UTM_Circle.py:52 | replacing the commas of a concatenation is the same as replacing them in each part |
| Text.SplitFrom | UTM_Circle.py:52 | the words `split()` yields are non-empty, hold no whitespace and are made only of characters of the input |
| Text.SplitWhitespace | UTM_Circle.py:52 | `str.split()` yields non-empty words without whitespace, built from characters of the input |
| Text.SplitSkipsSpaces | UTM_Circle.py:52 | leading whitespace does not change the words of `split()` |
| Text.SplitFromConcat | UTM_Circle.py:52 | any non-empty run of whitespace separates the words on its left from those on its right |
| Text.SplitFromWord | UTM_Circle.py:52 | characters that are not whitespace read after a partial word extend it into one word |
| Text.SplitSingleWord | UTM_Circle.py:52 | a non-empty string with no whitespace is one word |
| Text.SplitAllSpace | UTM_Circle.py:52 | a string of whitespace only yields no words |
| Decimal.NatToString | UTM_Circle.py:74 | `f"{n}"` for a natural number is one or more digits, with a leading zero only for zero |
| Decimal.DecimalValueOfNatToString | UTM_Circle.py:74 | reading the rendering of `n` back as a decimal number gives `n` (round trip) |
| Decimal.NatToStringInjective | UTM_Circle.py:74 | different natural numbers render differently |
| Decimal.IntToString | UTM_Circle.py:8 | `f"{i}"` for an integer is the digits of its magnitude with no leading zero (except for zero itself), preceded by a minus sign when it is negative; reading the digits back gives the magnitude |
| Decimal.IntToStringInjective | UTM_Circle.py:8 | different integers render differently |
| CoordinateInput.Lines | UTM_Circle.py:47 | `coord_text.strip().splitlines()` gives lines without boundary characters, and no lines exactly when the text is all whitespace |
| CoordinateInput.Tokens | UTM_Circle.py:52 | `line.replace(",", " ").split()` never yields an empty token or a token holding a comma or whitespace |
| CoordinateInput.ParseInput | UTM_Circle.py:47-60 | the handler's parsing fills `coords` and `errors` with the pairs and the messages of the lines of the stripped text, in line order, and every line gives exactly one entry |
| CoordinateInput.ReadLines | UTM_Circle.py:48-60 | the loop over the lines appends each line's pair or message to the matching list, so that `coords` and `errors` are those of all lines in order, and their lengths add up to the number of lines |
| CoordinateInput.ReadAccepted | UTM_Circle.py:53-56 | reading an accepted line appends its pair to `coords` and leaves `errors` unchanged |
| CoordinateInput.ReadRejected | UTM_Circle.py:57-60 | reading a rejected line appends its message to `errors` and leaves `coords` unchanged |
| CoordinateInput.ParsedConcat | UTM_Circle.py:51-60 | parsing two blocks of lines one after the other gives the pairs and messages of the first block followed by those of the second |
| CoordinateInput.EveryLineCounted | UTM_Circle.py:51-60 | every line lands in exactly one of the two lists: the pair and message counts add up to the number of lines |
| CoordinateInput.ParsedSingle | UTM_Circle.py:52-60 | one line gives its pair if it has two tokens that both parse, and otherwise its message |
| CoordinateInput.AcceptedLinePosition | UTM_Circle.py:53-56 | an accepted line's pair is in `coords`, at the position equal to the number of pairs of the lines before it |
| CoordinateInput.RejectedLinePosition | UTM_Circle.py:52-60 | a rejected line's message is in `errors`, at the position equal to the number of messages of the lines before it |
| CoordinateInput.CoordOrigin | UTM_Circle.py:53-56 | every pair in `coords` comes from a line with exactly two tokens that both parse, and is that line's pair |
| CoordinateInput.ErrorOrigin | UTM_Circle.py:57-60 | every message in `errors` comes from a line that is not accepted, and is that line's message |
| CoordinateInput.InputOrderKept | UTM_Circle.py:51-60 | of two lines, the earlier one's entry comes first in its list: input order is kept in `coords` and in `errors` |
| CoordinateInput.AllSeparatorsSpaced | UTM_Circle.py:52 | a run of commas and whitespace becomes all whitespace once the commas are replaced |
| CoordinateInput.TokensConcat | UTM_Circle.py:52 | any non-empty run of commas and whitespace separates the tokens on its left from those on its right |
| CoordinateInput.TokensOfToken | UTM_Circle.py:52 | a string without separators is exactly one token |
| CoordinateInput.TokensOfJoinTokens | UTM_Circle.py:52 | tokens joined by any non-empty run of separators split back into the same tokens (round trip) |
| CoordinateInput.SeparatorsInterchangeable | UTM_Circle.py:52 | commas, whitespace and mixes of the two are interchangeable separators: "a,b", "a b" and "a , b" give the same tokens |
| CoordinateInput.BlankLineIsWrongFormat | UTM_Circle.py:52-60 | a whitespace-only line has no tokens and is reported as "Wrong format: " followed by the line |
| CoordinateInput.BlankTextYieldsNothing | UTM_Circle.py:47-60 | the text gives neither pairs nor errors exactly when it is all whitespace (both directions) |
| CoordinateInput.InteriorBlankLineKept | UTM_Circle.py:47-60 | an empty line between two lines survives the whole-text strip and is reported as "Wrong format: " with nothing after it |
| CoordinateInput.SingleTokenIsWrongFormat | UTM_Circle.py:52-60 | a line holding a single token is reported as "Wrong format: " followed by the line |
| CoordinateInput.TwoTokenLine | UTM_Circle.py:52-58 | two tokens joined by a comma, by spaces or by a mix give exactly those tokens; the line is accepted with the parsed pair when both tokens parse, and otherwise reported as "Invalid number format: " followed by the line |
| CoordinateInput.ComplaintQuotesTypedLine | UTM_Circle.py:52-60 | the message quotes the line as typed: a line with a comma is not quoted in its comma-replaced form |
| Circles.EpsgCodeNumber | UTM_Circle.py:8 | the code is "EPSG:" followed by the decimal digits of 32600 + zone, with no leading zero |
| Circles.EpsgCodeInjective | UTM_Circle.py:8 | different zones never share a code |
| Circles.EpsgCodeNorthern | UTM_Circle.py:8 | for zones 1 to 60 the code is "EPSG:326" followed by the zone in two digits, a number from 32601 to 32660: always the northern family |
| Circles.Linspace | UTM_Circle.py:16 | `linspace(start, stop, num)` has `num` values, starts at `start`, ends at `stop`, and takes equal steps of `(stop - start) / (num - 1)` |
| Circles.GenerateCircle | UTM_Circle.py:7-28 | the table has `num_points` rows, with angles from 0 to 360 degrees in equal steps of `360 / (num_points - 1)`; each row holds the projection of its angle in the zone's EPSG system, and the centre is projected in the same system |
| Circles.ExampleDefaultCircle | UTM_Circle.py:7-16 | the defaults (zone 31, 17 points) give EPSG:32631 and 17 rows from 0 to 360 degrees, 22.5 degrees apart |
| Circles.LabelNumber | UTM_Circle.py:74 | a label is "Circle " followed by the 1-based position of its pair |
| Circles.LabelsDistinct | UTM_Circle.py:74 | no two circles share a label |
| Circles.ConcatLength | UTM_Circle.py:88 | concatenating tables of `n` rows each gives `n` times as many rows as there are tables |
| Circles.ConcatRow | UTM_Circle.py:88 | row `k` of table `i` is row `i * n + k` of the concatenation |
| Circles.BuildBatch | UTM_Circle.py:67-80 | the loop gives exactly one labelled table and one centre row per pair, in the order of the pairs |
| Circles.CentreTableRows | UTM_Circle.py:70-80 | there is one centre row per pair, labelled "Circle 1", "Circle 2", ... in input order; no label occurs twice, and each row holds the projected centre of its own pair |
| Circles.CombinedTableRows | UTM_Circle.py:78-88 | the combined table has `|coords| * num_points` rows; rows `i * num_points` to `(i + 1) * num_points - 1` are circle `i`'s rows in angle order, each with circle `i`'s label |
| Circles.OnGenerate | UTM_Circle.py:46-88 | the handler reports the parser's messages; it builds no tables when no line was accepted; otherwise it gives the centre table and the combined table of all accepted pairs, of `|coords| * num_points` rows |

## Left out

- Python's `float()` (line 55) is the parameter `parse`; its grammar is not modelled. `parse` returns reals, so the accepted spellings "nan" and "inf" are not represented.
- The projection is folded into the opaque `Geodesy` functions. These are the pyproj transformer (lines 9, 20-21), `np.radians`, `cos` and `sin` (17-19), the epoch correction (11-14), the radius, and the rounding of the latitudes and longitudes to 10 decimal places (25-28). No property of the geographic positions is stated beyond which EPSG code, centre and angle they are computed from.
- Circles.GenerateCircle: the Angle column is not rounded to 6 decimal places (line 24). Its angles are the exact `Linspace` values, so its steps are exactly `360 / (num_points - 1)`. The source's rounded column can differ from that in the sixth decimal: for 8 points it reads 0, 51.428571, 102.857143, ..., with steps of 51.428571 and 51.428572.
- Circles.Linspace: computed in exact reals, not float64, so the floating-point error of `np.linspace` and the rounding of the angles at line 24 are not captured.
- The bounds on the widgets are not modelled as checks (lines 41-43). The zone's bound of 1..60 and the minimum of 3 points per circle are enforced only by the widgets. The model takes any zone and any number of points, and the lemmas that need a bound require it. The radius has no bound in the source either.
- The Streamlit display is not modelled. That covers the title, the help text, the widgets, `st.error` for each message (lines 62-64), the per-circle `st.dataframe` (75-76) and the centre table display (83-85).
- The CSV encoding and the two download buttons (lines 89-94) are not modelled: they are I/O. The model stops at the combined table and the centre table as sequences of rows.
- Python strings may hold lone surrogate code points. Dafny's `char` cannot, so such text is not represented.
- The code has no hemisphere flag: it always uses the northern family 326. It also has no closed-loop option, no planar-approximate strategy, no inverse transform, and no error for an out-of-range zone or point count. None of these is modelled.
