/**
 The batch side of UTM_Circle.py: the coordinate-reference code a zone
 resolves to (line 8), the shape of the table `generate_circle_from_utm`
 returns (lines 16-28), and the labelled per-circle, centre and combined
 tables the button handler assembles (lines 66-80, 88).

 The floating-point geodesy is not modelled. `Geodesy.ring(crs, c, a)` stands
 for the rounded WGS84 position of the ring point at angle `a` (degrees)
 around centre `c` in the reference system `crs`, and `Geodesy.centre(crs, c)`
 for that of the centre (pyproj, cos/sin, the optional epoch shift and the
 rounding of lines 9-28); the radius and the correction switch are fixed for
 a whole batch and are folded into these two functions.
 */
module Circles {
  import opened Wrappers
  import opened Decimal
  import opened CoordinateInput

  // ------------------------------------------------------------ EPSG code

  /** `f"EPSG:{32600 + utm_zone}"`: the WGS84 / UTM code of a zone. */
  function EpsgCode(zone: int): string {
    "EPSG:" + IntToString(32600 + zone)
  }

  /** The number after "EPSG:" is 32600 + zone, written without leading zeros. */
  lemma EpsgCodeNumber(zone: int)
    ensures |EpsgCode(zone)| >= 6 && EpsgCode(zone)[..5] == "EPSG:"
    ensures 32600 + zone >= 0 ==>
              AllDigits(EpsgCode(zone)[5..]) && DecimalValue(EpsgCode(zone)[5..]) == 32600 + zone
              && (EpsgCode(zone)[5] == '0' ==> zone == -32600)
  {
    assert EpsgCode(zone)[5..] == IntToString(32600 + zone);
  }

  /** Different zones never share a code. */
  lemma EpsgCodeInjective(z1: int, z2: int)
    ensures EpsgCode(z1) == EpsgCode(z2) ==> z1 == z2
  {
    if EpsgCode(z1) == EpsgCode(z2) {
      assert EpsgCode(z1)[5..] == IntToString(32600 + z1);
      assert EpsgCode(z2)[5..] == IntToString(32600 + z2);
      IntToStringInjective(32600 + z1, 32600 + z2);
    }
  }

  /** Zones 1..60 (the range the zone widget allows) give EPSG:32601 ..
      EPSG:32660: always the northern-hemisphere family "326", then the zone
      in two digits. */
  lemma EpsgCodeNorthern(zone: int)
    requires 1 <= zone <= 60
    ensures EpsgCode(zone) == "EPSG:326" + [DigitChar(zone / 10), DigitChar(zone % 10)]
    ensures 32601 <= DecimalValue(EpsgCode(zone)[5..]) <= 32660
  {
    var n := 32600 + zone;
    var q := zone / 10;
    assert n / 10 == 3260 + q && n % 10 == zone % 10;
    assert (3260 + q) / 10 == 326 && (3260 + q) % 10 == q;
    assert NatToString(326) == "326" by {
      assert NatToString(3) == "3";
      assert NatToString(32) == "3" + [DigitChar(2)];
    }
    assert NatToString(3260 + q) == "326" + [DigitChar(q)];
    assert NatToString(n) == "326" + [DigitChar(q)] + [DigitChar(zone % 10)];
    EpsgCodeNumber(zone);
  }

  // ------------------------------------------------------- circle table

  /** `numpy.linspace(start, stop, num)` (endpoint included), in exact
      arithmetic: `num` values from `start` to `stop` with equal steps. */
  function Linspace(start: real, stop: real, num: nat): (r: seq<real>)
    ensures |r| == num
    ensures num >= 1 ==> r[0] == start
    ensures num >= 2 ==> r[num - 1] == stop
    ensures num >= 2 ==> forall k :: 0 <= k < num - 1 ==>
              r[k + 1] - r[k] == (stop - start) / ((num - 1) as real)
  {
    if num == 1 then [start]
    else
      var step := if num == 0 then 0.0 else (stop - start) / ((num - 1) as real);
      var r := seq(num, k requires 0 <= k < num => start + (k as real) * step);
      assert num >= 2 ==> ((num - 1) as real) * step == stop - start;
      r
  }

  datatype GeoPoint = GeoPoint(latitude: real, longitude: real)

  /** The opaque projection, see the module comment. */
  datatype Geodesy = Geodesy(ring: (string, Coord, real) -> GeoPoint, centre: (string, Coord) -> GeoPoint)

  /** One row of the table `generate_circle_from_utm` returns. */
  datatype PointRow = PointRow(angle: real, position: GeoPoint)

  /** The table of ring points and the centre, as `generate_circle_from_utm` returns them. */
  datatype CircleTable = CircleTable(rows: seq<PointRow>, centre: GeoPoint)

  /** `generate_circle_from_utm(e, n, zone, radius, num_points, ...)`: one row
      per point, the angles running from 0 to 360 degrees in equal steps, each
      row's position the projection of its angle in the zone's reference
      system, and the centre projected in the same system. */
  function GenerateCircle(c: Coord, zone: int, numPoints: nat, geo: Geodesy): (table: CircleTable)
    ensures |table.rows| == numPoints
    ensures numPoints >= 1 ==> table.rows[0].angle == 0.0
    ensures numPoints >= 2 ==> table.rows[numPoints - 1].angle == 360.0
    ensures numPoints >= 2 ==> forall k :: 0 <= k < numPoints - 1 ==>
              table.rows[k + 1].angle - table.rows[k].angle == 360.0 / ((numPoints - 1) as real)
    ensures forall k :: 0 <= k < numPoints ==>
              table.rows[k].position == geo.ring(EpsgCode(zone), c, table.rows[k].angle)
    ensures table.centre == geo.centre(EpsgCode(zone), c)
  {
    var crs := EpsgCode(zone);
    var angles := Linspace(0.0, 360.0, numPoints);
    var rows := seq(numPoints, k requires 0 <= k < numPoints => PointRow(angles[k], geo.ring(crs, c, angles[k])));
    CircleTable(rows, geo.centre(crs, c))
  }

  /** The default settings give 17 rows 22.5 degrees apart, in EPSG:32631. */
  lemma ExampleDefaultCircle(c: Coord, geo: Geodesy)
    ensures EpsgCode(31) == "EPSG:32631"
    ensures var t := GenerateCircle(c, 31, 17, geo);
            |t.rows| == 17 && t.rows[0].angle == 0.0 && t.rows[1].angle == 22.5 && t.rows[16].angle == 360.0
  {
    EpsgCodeNorthern(31);
  }

  // ------------------------------------------------------------- labels

  /** `f"Circle {idx+1}"`. */
  function Label(idx: nat): string {
    "Circle " + NatToString(idx + 1)
  }

  /** A label is "Circle " followed by the 1-based position of its pair. */
  lemma LabelNumber(idx: nat)
    ensures Label(idx)[..7] == "Circle "
    ensures AllDigits(Label(idx)[7..]) && DecimalValue(Label(idx)[7..]) == idx + 1
  {
    assert Label(idx)[7..] == NatToString(idx + 1);
    DecimalValueOfNatToString(idx + 1);
  }

  /** No two circles share a label. */
  lemma LabelsDistinct(i: nat, j: nat)
    ensures i != j ==> Label(i) != Label(j)
  {
    LabelNumber(i);
    LabelNumber(j);
  }

  // ------------------------------------------------------------ tables

  /** A row of the combined table: a point row with its "Circle ID" column. */
  datatype LabelledRow = LabelledRow(angle: real, position: GeoPoint, circleId: string)

  /** A row of the centre table. */
  datatype CentreRow = CentreRow(circleId: string, position: GeoPoint)

  /** `df["Circle ID"] = label`. */
  function WithLabel(rows: seq<PointRow>, circleId: string): seq<LabelledRow> {
    seq(|rows|, k requires 0 <= k < |rows| => LabelledRow(rows[k].angle, rows[k].position, circleId))
  }

  /** `pd.concat(circle_tables, ignore_index=True)`: the tables one after the other. */
  function Concat(tables: seq<seq<LabelledRow>>): seq<LabelledRow> {
    if tables == [] then [] else tables[0] + Concat(tables[1..])
  }

  /** Tables of `n` rows each concatenate to `|tables| * n` rows. */
  lemma {:induction false} ConcatLength(tables: seq<seq<LabelledRow>>, n: nat)
    requires forall i :: 0 <= i < |tables| ==> |tables[i]| == n
    ensures |Concat(tables)| == |tables| * n
  {
    if tables != [] {
      ConcatLength(tables[1..], n);
      assert |tables| * n == n + |tables[1..]| * n;
    }
  }

  /** Row `k` of table `i` is row `i * n + k` of the concatenation of
      tables of `n` rows each. */
  lemma {:induction false} ConcatRow(tables: seq<seq<LabelledRow>>, n: nat, i: nat, k: nat)
    requires forall j :: 0 <= j < |tables| ==> |tables[j]| == n
    requires i < |tables| && k < n
    ensures i * n + k < |Concat(tables)| && Concat(tables)[i * n + k] == tables[i][k]
  {
    ConcatLength(tables, n);
    var rest := tables[1..];
    ConcatLength(rest, n);
    if i > 0 {
      ConcatRow(rest, n, i - 1, k);
      assert i * n + k == n + ((i - 1) * n + k);
    }
  }

  /** The labelled table of every pair, in the order of the pairs. */
  function CircleTables(coords: seq<Coord>, zone: int, numPoints: nat, geo: Geodesy): seq<seq<LabelledRow>> {
    seq(|coords|, i requires 0 <= i < |coords| =>
      WithLabel(GenerateCircle(coords[i], zone, numPoints, geo).rows, Label(i)))
  }

  /** The centre row of every pair, in the order of the pairs. */
  function CentreTable(coords: seq<Coord>, zone: int, numPoints: nat, geo: Geodesy): seq<CentreRow> {
    seq(|coords|, i requires 0 <= i < |coords| =>
      CentreRow(Label(i), GenerateCircle(coords[i], zone, numPoints, geo).centre))
  }

  /** The loop of lines 67-80: one labelled table and one centre row per
      pair, in the order of the pairs. */
  method BuildBatch(coords: seq<Coord>, zone: int, numPoints: nat, geo: Geodesy)
    returns (centreRows: seq<CentreRow>, circleTables: seq<seq<LabelledRow>>)
    ensures centreRows == CentreTable(coords, zone, numPoints, geo)
    ensures circleTables == CircleTables(coords, zone, numPoints, geo)
  {
    centreRows, circleTables := [], [];
    for idx := 0 to |coords|
      invariant centreRows == CentreTable(coords, zone, numPoints, geo)[..idx]
      invariant circleTables == CircleTables(coords, zone, numPoints, geo)[..idx]
    {
      var table := GenerateCircle(coords[idx], zone, numPoints, geo);
      var circleId := Label(idx);
      circleTables := circleTables + [WithLabel(table.rows, circleId)];
      centreRows := centreRows + [CentreRow(circleId, table.centre)];
    }
  }

  /** The centre table has one row per pair, labelled "Circle 1", "Circle 2",
      ... in input order, no label twice, each with the projected centre of
      its own pair. */
  lemma CentreTableRows(coords: seq<Coord>, zone: int, numPoints: nat, geo: Geodesy)
    ensures var centres := CentreTable(coords, zone, numPoints, geo);
            && |centres| == |coords|
            && (forall i :: 0 <= i < |coords| ==>
                  centres[i].circleId == Label(i)
                  && centres[i].position == geo.centre(EpsgCode(zone), coords[i]))
            && (forall i, j :: 0 <= i < j < |coords| ==> centres[i].circleId != centres[j].circleId)
  {
    forall i: nat, j: nat | i < j {
      LabelsDistinct(i, j);
    }
  }

  /** The combined table has `|coords| * numPoints` rows: the rows of circle
      `i`, labelled with its label, are rows `i * numPoints` to
      `(i + 1) * numPoints - 1`, in angle order. */
  lemma CombinedTableRows(coords: seq<Coord>, zone: int, numPoints: nat, geo: Geodesy, i: nat, k: nat)
    requires i < |coords| && k < numPoints
    ensures var points := Concat(CircleTables(coords, zone, numPoints, geo));
            var row := GenerateCircle(coords[i], zone, numPoints, geo).rows[k];
            && |points| == |coords| * numPoints
            && i * numPoints + k < |points|
            && points[i * numPoints + k] == LabelledRow(row.angle, row.position, Label(i))
  {
    var tables := CircleTables(coords, zone, numPoints, geo);
    ConcatLength(tables, numPoints);
    ConcatRow(tables, numPoints, i, k);
  }

  /** The tables the button handler produces from the pairs. */
  datatype Batch = Batch(centreRows: seq<CentreRow>, points: seq<LabelledRow>)

  /** The "Generate Circles" handler (lines 46-88) without its display: the
      error messages, and the centre and combined tables when at least one
      line was accepted. */
  method OnGenerate(text: string, zone: int, numPoints: nat, parse: FloatParser, geo: Geodesy)
    returns (errors: seq<string>, batch: Option<Batch>)
    ensures errors == ParsedErrors(Lines(text), parse)
    ensures var coords := ParsedCoords(Lines(text), parse);
            batch == if coords == [] then None
                     else Some(Batch(CentreTable(coords, zone, numPoints, geo),
                                     Concat(CircleTables(coords, zone, numPoints, geo))))
    ensures batch.Some? ==>
              |batch.value.points| == |ParsedCoords(Lines(text), parse)| * numPoints
  {
    var coords;
    coords, errors := ParseInput(text, parse);
    if coords == [] {
      batch := None;
    } else {
      var centreRows, circleTables := BuildBatch(coords, zone, numPoints, geo);
      ConcatLength(circleTables, numPoints);
      batch := Some(Batch(centreRows, Concat(circleTables)));
    }
  }
}
