/** The grouping loop of `displayBusRoutes` (main.js:123-131): the filtered shape
    rows are bucketed by `shape_id` into the plain object `routeLines`, one
    point list per polyline, points in row order. Coordinates stay the raw field
    strings; converting them with `parseFloat` is not part of this model. */
module ShapeGroups {
  import opened Wrappers
  import opened Seqs
  import opened JsText
  import opened Csv

  /** `[parseFloat(shape.shape_pt_lat), parseFloat(shape.shape_pt_lon)]` before the
      conversion. */
  datatype Point = Point(lat: Option<string>, lon: Option<string>)

  /** `routeLines`: property key to point list. */
  type Polylines = map<string, seq<Point>>

  function PointOf(row: Record): Point
  {
    Point(Field(row, "shape_pt_lat"), Field(row, "shape_pt_lon"))
  }

  /** The property key `routeLines[shape.shape_id]` uses: the id, or the string
      "undefined" for a row without one. */
  function KeyOf(row: Record): string
  {
    ToJsString(Field(row, "shape_id"))
  }

  function InGroup(key: string): Record -> bool
  {
    row => KeyOf(row) == key
  }

  /** The buckets after processing `rows` in order: a new bucket on first sight of a
      key, then the point appended to it. */
  function Groups(rows: seq<Record>): Polylines
  {
    if rows == [] then map[]
    else
      var n := |rows| - 1;
      var lines := Groups(rows[..n]);
      var key := KeyOf(rows[n]);
      lines[key := (if key in lines then lines[key] else []) + [PointOf(rows[n])]]
  }

  /** The keys of `routeLines` are exactly the keys of the rows: one group per
      distinct `shape_id`. */
  lemma {:induction false} GroupsKeys(rows: seq<Record>)
    ensures Groups(rows).Keys == set row | row in rows :: KeyOf(row)
  {
    if rows != [] {
      var n := |rows| - 1;
      GroupsKeys(rows[..n]);
      assert rows == rows[..n] + [rows[n]];
    }
  }

  /** The groups partition the rows: the group of a key holds the points of
      exactly the rows with that key, in row order (and a key no row has has no
      group). */
  lemma {:induction false} GroupsContents(rows: seq<Record>, key: string)
    ensures (if key in Groups(rows) then Groups(rows)[key] else [])
         == Map(Filter(rows, InGroup(key)), PointOf)
  {
    if rows != [] {
      var n := |rows| - 1;
      GroupsContents(rows[..n], key);
      assert rows == rows[..n] + [rows[n]];
      FilterSnoc(rows[..n], rows[n], InGroup(key));
      if KeyOf(rows[n]) == key {
        MapSnoc(Filter(rows[..n], InGroup(key)), rows[n], PointOf);
      }
    }
  }

  /** Each row's point is in the group of its own key, and every point of a group
      is the point of some row with that key. (Two rows with different keys and
      equal coordinates put equal points in two groups; the row-level partition
      is `GroupsContents`.) */
  lemma RowInItsGroup(rows: seq<Record>, i: int, key: string)
    requires 0 <= i < |rows|
    ensures key in Groups(rows) && PointOf(rows[i]) in Groups(rows)[key] <== key == KeyOf(rows[i])
    ensures key in Groups(rows) ==> forall p :: p in Groups(rows)[key] ==>
      exists j | 0 <= j < |rows| :: KeyOf(rows[j]) == key && PointOf(rows[j]) == p
  {
    if key == KeyOf(rows[i]) {
      RowInOwnGroup(rows, i);
    }
    if key in Groups(rows) {
      forall p | p in Groups(rows)[key]
        ensures exists j | 0 <= j < |rows| :: KeyOf(rows[j]) == key && PointOf(rows[j]) == p
      {
        var j := GroupPointFromRow(rows, key, p);
      }
    }
  }

  lemma RowInOwnGroup(rows: seq<Record>, i: int)
    requires 0 <= i < |rows|
    ensures KeyOf(rows[i]) in Groups(rows) && PointOf(rows[i]) in Groups(rows)[KeyOf(rows[i])]
  {
    var key := KeyOf(rows[i]);
    GroupsContents(rows, key);
    var kept := Filter(rows, InGroup(key));
    FilterKeeps(rows, InGroup(key), i);
    var k :| 0 <= k < |kept| && kept[k] == rows[i];
    assert Map(kept, PointOf)[k] == PointOf(rows[i]);
  }

  lemma GroupPointFromRow(rows: seq<Record>, key: string, p: Point) returns (j: int)
    requires key in Groups(rows) && p in Groups(rows)[key]
    ensures 0 <= j < |rows| && KeyOf(rows[j]) == key && PointOf(rows[j]) == p
  {
    GroupsContents(rows, key);
    var kept := Filter(rows, InGroup(key));
    var k :| 0 <= k < |kept| && Map(kept, PointOf)[k] == p;
    assert kept[k] in rows && InGroup(key)(kept[k]);
    j :| 0 <= j < |rows| && rows[j] == kept[k];
  }

  /** The number of points over all groups. */
  ghost function TotalPoints(lines: Polylines): nat
    decreases |lines|
  {
    if lines == map[] then 0
    else
      var key := PickKey(lines);
      |lines[key]| + TotalPoints(lines - {key})
  }

  /** Some key of a non-empty map. */
  ghost function PickKey(lines: Polylines): (key: string)
    requires lines != map[]
    ensures key in lines && |lines - {key}| < |lines|
  {
    var key :| key in lines.Keys;
    assert (lines - {key}).Keys == lines.Keys - {key};
    key
  }

  /** `TotalPoints` does not depend on which key is taken first. */
  lemma {:induction false} TotalPointsWithout(lines: Polylines, key: string)
    requires key in lines
    ensures TotalPoints(lines) == |lines[key]| + TotalPoints(lines - {key})
    decreases |lines|
  {
    var first := PickKey(lines);
    if first != key {
      var rest := lines - {first};
      var others := lines - {key};
      RemoveShrinks(lines, key);
      TotalPointsWithout(rest, key);
      TotalPointsWithout(others, first);
      RemoveSwap(lines, first, key);
    }
  }

  lemma RemoveShrinks(lines: Polylines, key: string)
    requires key in lines
    ensures (lines - {key})[key := lines[key]] == lines
    ensures |lines - {key}| < |lines|
  {
    assert (lines - {key}).Keys == lines.Keys - {key};
    assert (lines - {key})[key := lines[key]] == lines;
  }

  lemma RemoveSwap(lines: Polylines, a: string, b: string)
    ensures (lines - {a}) - {b} == (lines - {b}) - {a}
  {
  }

  /** Every row becomes exactly one point: the groups hold as many points as there
      are rows. */
  lemma {:induction false} GroupsTotalPoints(rows: seq<Record>)
    ensures TotalPoints(Groups(rows)) == |rows|
  {
    if rows != [] {
      var n := |rows| - 1;
      var before := Groups(rows[..n]);
      var key := KeyOf(rows[n]);
      var bucket := if key in before then before[key] else [];
      assert Groups(rows) == before[key := bucket + [PointOf(rows[n])]];
      GroupsTotalPoints(rows[..n]);
      TotalPointsUpdate(before, key, bucket + [PointOf(rows[n])]);
      if key in before {
        TotalPointsWithout(before, key);
      } else {
        RemoveAbsent(before, key);
      }
    }
  }

  /** Replacing the group of one key changes the total by the difference in size. */
  lemma TotalPointsUpdate(lines: Polylines, key: string, points: seq<Point>)
    ensures TotalPoints(lines[key := points]) == |points| + TotalPoints(lines - {key})
  {
    TotalPointsWithout(lines[key := points], key);
    UpdateThenRemove(lines, key, points);
  }

  lemma UpdateThenRemove(lines: Polylines, key: string, points: seq<Point>)
    ensures lines[key := points] - {key} == lines - {key}
  {
  }

  lemma RemoveAbsent(lines: Polylines, key: string)
    requires key !in lines
    ensures lines - {key} == lines
  {
  }

  /** The grouping loop over a dictionary whose only keys are its own entries (an
      object made by `Object.create(null)`): the intended behaviour. */
  method GroupShapes(rows: seq<Record>) returns (routeLines: Polylines)
    ensures routeLines == Groups(rows)
  {
    routeLines := map[];
    for i := 0 to |rows|
      invariant routeLines == Groups(rows[..i])
    {
      assert rows[..i + 1][..i] == rows[..i];
      var shapeId := KeyOf(rows[i]);
      if shapeId !in routeLines {
        routeLines := routeLines[shapeId := []];
      }
      routeLines := routeLines[shapeId := routeLines[shapeId] + [PointOf(rows[i])]];
    }
    assert rows[..|rows|] == rows;
  }

  /** The properties every plain object `{}` inherits from `Object.prototype`
      (ECMAScript section 20.1.3 and Annex B.2.2). All are functions or the
      prototype itself: truthy, and without a `push` method. */
  const InheritedNames: set<string> := {
    "constructor", "hasOwnProperty", "isPrototypeOf", "propertyIsEnumerable",
    "toLocaleString", "toString", "valueOf", "__proto__",
    "__defineGetter__", "__defineSetter__", "__lookupGetter__", "__lookupSetter__"
  }

  /** `routeLines[key].push(...)` on an inherited property: `TypeError`. */
  datatype TypeError = PushIsNotAFunction(key: string)

  /** The grouping loop as written, on `routeLines = {}`: a key that names an
      inherited property skips the bucket creation (`!routeLines[key]` is false)
      and then the `push` throws, ending the loop. */
  function GroupedAsWritten(rows: seq<Record>): Result<Polylines, TypeError>
  {
    if rows == [] then Success(map[])
    else
      var n := |rows| - 1;
      match GroupedAsWritten(rows[..n])
      case Failure(e) => Failure(e)
      case Success(lines) =>
        var key := KeyOf(rows[n]);
        if key in InheritedNames then Failure(PushIsNotAFunction(key))
        else Success(lines[key := (if key in lines then lines[key] else []) + [PointOf(rows[n])]])
  }

  /** main.js:123-131 as written. */
  method GroupShapesAsWritten(rows: seq<Record>) returns (r: Result<Polylines, TypeError>)
    ensures r == GroupedAsWritten(rows)
  {
    var routeLines: Polylines := map[];
    for i := 0 to |rows|
      invariant GroupedAsWritten(rows[..i]) == Success(routeLines)
    {
      var prefix := rows[..i + 1];
      assert prefix[..i] == rows[..i] && prefix[i] == rows[i];
      var shapeId := KeyOf(rows[i]);
      if shapeId in InheritedNames {
        AsWrittenFailureStays(rows, i + 1);
        return Failure(PushIsNotAFunction(shapeId));
      }
      ghost var before := routeLines;
      if shapeId !in routeLines {
        routeLines := routeLines[shapeId := []];
      }
      routeLines := routeLines[shapeId := routeLines[shapeId] + [PointOf(rows[i])]];
      assert routeLines
          == before[shapeId := (if shapeId in before then before[shapeId] else []) + [PointOf(rows[i])]];
      assert GroupedAsWritten(prefix[..i]) == Success(before);
    }
    assert rows[..|rows|] == rows;
    r := Success(routeLines);
  }

  /** Once the loop has thrown, later rows change nothing. */
  lemma {:induction false} AsWrittenFailureStays(rows: seq<Record>, n: nat)
    requires n <= |rows| && GroupedAsWritten(rows[..n]).Failure?
    ensures GroupedAsWritten(rows) == GroupedAsWritten(rows[..n])
  {
    if n < |rows| {
      var m := |rows| - 1;
      assert rows[..m][..n] == rows[..n];
      AsWrittenFailureStays(rows[..m], n);
    } else {
      assert rows[..n] == rows;
    }
  }

  /** The loop as written agrees with the intended grouping exactly when no row's
      key names an inherited property; otherwise it throws on the first such row. */
  lemma {:induction false} AsWrittenAgreesUnlessInherited(rows: seq<Record>)
    ensures GroupedAsWritten(rows).Success?
        <==> forall i :: 0 <= i < |rows| ==> KeyOf(rows[i]) !in InheritedNames
    ensures GroupedAsWritten(rows).Success? ==> GroupedAsWritten(rows).value == Groups(rows)
    ensures GroupedAsWritten(rows).Failure? ==>
      exists i | 0 <= i < |rows| ::
        && KeyOf(rows[i]) == GroupedAsWritten(rows).error.key
        && KeyOf(rows[i]) in InheritedNames
        && forall j :: 0 <= j < i ==> KeyOf(rows[j]) !in InheritedNames
  {
    if rows != [] {
      var n := |rows| - 1;
      AsWrittenAgreesUnlessInherited(rows[..n]);
      assert forall i :: 0 <= i < n ==> rows[..n][i] == rows[i];
      if GroupedAsWritten(rows[..n]).Failure? {
        var i :| 0 <= i < n
          && KeyOf(rows[..n][i]) == GroupedAsWritten(rows[..n]).error.key
          && KeyOf(rows[..n][i]) in InheritedNames
          && forall j :: 0 <= j < i ==> KeyOf(rows[..n][j]) !in InheritedNames;
        assert KeyOf(rows[i]) in InheritedNames;
      }
    }
  }

  /** A shape whose id is `toString` makes the loop as written throw, where the
      intended grouping gives it one polyline. */
  lemma InheritedShapeIdThrows()
    ensures var rows := [map["shape_id" := Some("toString"), "shape_pt_lat" := Some("3.1"),
                             "shape_pt_lon" := Some("101.6")]];
      && GroupedAsWritten(rows) == Failure(PushIsNotAFunction("toString"))
      && Groups(rows) == map["toString" := [Point(Some("3.1"), Some("101.6"))]]
  {
    var rows := [map["shape_id" := Some("toString"), "shape_pt_lat" := Some("3.1"),
                     "shape_pt_lon" := Some("101.6")]];
    assert rows[..0] == [];
    assert KeyOf(rows[0]) == "toString";
    assert PointOf(rows[0]) == Point(Some("3.1"), Some("101.6"));
    assert Groups(rows[..0]) == map[];
    var point := Point(Some("3.1"), Some("101.6"));
    assert Groups(rows) == Groups(rows[..0])["toString" := [] + [PointOf(rows[0])]];
    assert [] + [point] == [point];
    assert Groups(rows) == map[]["toString" := [point]];
  }
}
