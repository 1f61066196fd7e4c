/** What `fetchRouteData` hands to the map (main.js:84-94): the join's shape rows,
    grouped into polylines by `displayBusRoutes`, and the join's stop rows. Each
    grouping fact is stated for the intended grouping `Groups` and for the loop as
    written, `GroupedAsWritten`, which throws when a key names an inherited
    property of `{}`. */
module Pipeline {
  import opened Wrappers
  import opened Seqs
  import opened Csv
  import opened RouteJoin
  import opened ShapeGroups

  /** A route id that no trip has gives no polyline and no stop, and neither the
      join nor the grouping raises an error. */
  lemma UnknownRouteDrawsNothing(routeId: string, trips: seq<Record>, shapes: seq<Record>,
                                 stopTimes: seq<Record>, stops: seq<Record>)
    requires forall j :: 0 <= j < |trips| ==> Field(trips[j], "route_id") != Some(routeId)
    ensures var d := JoinRoute(routeId, trips, shapes, stopTimes, stops);
      Groups(d.shapes) == map[] && GroupedAsWritten(d.shapes) == Success(map[]) && d.stops == []
  {
    UnknownRoute(routeId, trips, shapes, stopTimes, stops);
  }

  /** Two trips of one route run along one shape with two points: the intended
      grouping gives the route one polyline holding both points in file order, not
      one per trip. The loop as written gives the same polyline unless the shape's
      id names an inherited property, and then throws. */
  lemma SharedShapeOneLine(routeId: string, t1: Record, t2: Record, p1: Record, p2: Record,
                           stopTimes: seq<Record>, stops: seq<Record>)
    requires Field(t1, "route_id") == Some(routeId) && Field(t2, "route_id") == Some(routeId)
    requires Field(t1, "shape_id") == Field(t2, "shape_id") == Field(p1, "shape_id") == Field(p2, "shape_id")
    ensures var d := JoinRoute(routeId, [t1, t2], [p1, p2], stopTimes, stops);
      && d.shapes == [p1, p2]
      && Groups(d.shapes) == map[KeyOf(p1) := [PointOf(p1), PointOf(p2)]]
      && (KeyOf(p1) !in InheritedNames ==>
            GroupedAsWritten(d.shapes) == Success(map[KeyOf(p1) := [PointOf(p1), PointOf(p2)]]))
      && (KeyOf(p1) in InheritedNames ==>
            GroupedAsWritten(d.shapes) == Failure(PushIsNotAFunction(KeyOf(p1))))
  {
    var d := JoinRoute(routeId, [t1, t2], [p1, p2], stopTimes, stops);
    var shapeIds := [Field(t1, "shape_id"), Field(t2, "shape_id")];
    assert d.shapeIds == shapeIds by {
      BothTripsOnRoute(routeId, t1, t2);
    }
    KeepBoth(p1, p2, IdIn(shapeIds, "shape_id"));
    TwoPointsOneLine(p1, p2);
  }

  /** Two trips of one route both stop at one stop: the stop is drawn once,
      although `stopIds` names it twice. */
  lemma SharedStopOnce(routeId: string, t1: Record, t2: Record, shapes: seq<Record>,
                       st1: Record, st2: Record, stop: Record)
    requires Field(t1, "route_id") == Some(routeId) && Field(t2, "route_id") == Some(routeId)
    requires Field(st1, "trip_id") == Field(t1, "trip_id") && Field(st2, "trip_id") == Field(t2, "trip_id")
    requires Field(st1, "stop_id") == Field(stop, "stop_id") && Field(st2, "stop_id") == Field(stop, "stop_id")
    ensures var d := JoinRoute(routeId, [t1, t2], shapes, [st1, st2], [stop]);
      && d.stopIds == [Field(stop, "stop_id"), Field(stop, "stop_id")]
      && d.stops == [stop]
  {
    var d := JoinRoute(routeId, [t1, t2], shapes, [st1, st2], [stop]);
    var tripIds := [Field(t1, "trip_id"), Field(t2, "trip_id")];
    var stopIds := [Field(stop, "stop_id"), Field(stop, "stop_id")];
    assert d.tripIds == tripIds by {
      BothTripsOnRoute(routeId, t1, t2);
      MapPair(t1, t2, Column("trip_id"));
    }
    assert d.stopIds == stopIds by {
      KeepBoth(st1, st2, IdIn(tripIds, "trip_id"));
      MapPair(st1, st2, Column("stop_id"));
    }
    KeepOne(stop, IdIn(stopIds, "stop_id"));
  }

  lemma BothTripsOnRoute(routeId: string, t1: Record, t2: Record)
    requires OnRoute(routeId)(t1) && OnRoute(routeId)(t2)
    ensures Filter([t1, t2], OnRoute(routeId)) == [t1, t2]
  {
    KeepBoth(t1, t2, OnRoute(routeId));
  }

  lemma KeepBoth(x: Record, y: Record, p: Record -> bool)
    requires p(x) && p(y)
    ensures Filter([x, y], p) == [x, y]
  {
    assert [x, y][..1] == [x] && [x][..0] == [];
  }

  lemma KeepOne(x: Record, p: Record -> bool)
    requires p(x)
    ensures Filter([x], p) == [x]
  {
    assert [x][..0] == [];
  }

  lemma MapPair(x: Record, y: Record, f: Record -> Option<string>)
    ensures Map([x, y], f) == [f(x), f(y)]
  {
    assert [x, y][..1] == [x] && [x][..0] == [];
  }

  /** Two points with the same key make one polyline in the intended grouping, and
      in the loop as written unless the key names an inherited property. */
  lemma TwoPointsOneLine(p1: Record, p2: Record)
    requires KeyOf(p1) == KeyOf(p2)
    ensures Groups([p1, p2]) == map[KeyOf(p1) := [PointOf(p1), PointOf(p2)]]
    ensures KeyOf(p1) !in InheritedNames ==>
      GroupedAsWritten([p1, p2]) == Success(map[KeyOf(p1) := [PointOf(p1), PointOf(p2)]])
    ensures KeyOf(p1) in InheritedNames ==>
      GroupedAsWritten([p1, p2]) == Failure(PushIsNotAFunction(KeyOf(p1)))
  {
    IntendedTwoPoints(p1, p2);
    if KeyOf(p1) in InheritedNames {
      assert [p1, p2][..1] == [p1] && [p1][..0] == [];
      assert GroupedAsWritten([p1]) == Failure(PushIsNotAFunction(KeyOf(p1)));
    } else {
      AsWrittenAgreesUnlessInherited([p1, p2]);
    }
  }

  /** A row without a `shape_id` and a row whose `shape_id` is the text
      `"undefined"` land in one polyline: `routeLines[undefined]` is
      `routeLines["undefined"]`. */
  lemma UndefinedShapeIdSharesLine(p1: Record, p2: Record)
    requires Field(p1, "shape_id") == None && Field(p2, "shape_id") == Some("undefined")
    ensures KeyOf(p1) == KeyOf(p2) == "undefined"
    ensures Groups([p1, p2]) == map["undefined" := [PointOf(p1), PointOf(p2)]]
    ensures GroupedAsWritten([p1, p2]) == Success(map["undefined" := [PointOf(p1), PointOf(p2)]])
  {
    TwoPointsOneLine(p1, p2);
  }

  lemma IntendedTwoPoints(p1: Record, p2: Record)
    requires KeyOf(p1) == KeyOf(p2)
    ensures Groups([p1, p2]) == map[KeyOf(p1) := [PointOf(p1), PointOf(p2)]]
  {
    var key, a, b := KeyOf(p1), PointOf(p1), PointOf(p2);
    assert Groups([p1]) == map[key := [a]] by {
      assert [p1][..0] == [];
      assert Groups([p1][..0]) == map[];
      assert [] + [a] == [a];
    }
    assert Groups([p1, p2]) == map[key := [a]][key := [a] + [b]] by {
      assert [p1, p2][..1] == [p1];
    }
    SameKeyTwice(key, a, b);
  }

  lemma SameKeyTwice(key: string, a: Point, b: Point)
    ensures map[key := [a]][key := [a] + [b]] == map[key := [a, b]]
  {
    assert [a] + [b] == [a, b];
  }

  /** From feed text to polyline: a `trips.txt` with one trip of the route and a
      `shapes.txt` with two points of its shape, parsed by `parseCSV`, joined and
      grouped, give one polyline holding both points in file order. */
  lemma FeedTextToPolyline(routeId: string, tripId: string, shapeId: string,
                           lat1: string, lon1: string, lat2: string, lon2: string)
    requires IsPlainField(routeId) && IsPlainField(tripId) && IsPlainField(shapeId)
    requires IsPlainField(lat1) && IsPlainField(lon1) && IsPlainField(lat2) && IsPlainField(lon2)
    ensures var trips := ParseCSV("route_id,trip_id,shape_id\n" + (routeId + "," + tripId + "," + shapeId));
      var shapes := ParseCSV("shape_id,shape_pt_lat,shape_pt_lon\n"
                             + (shapeId + "," + lat1 + "," + lon1) + "\n"
                             + (shapeId + "," + lat2 + "," + lon2));
      var d := JoinRoute(routeId, trips, shapes, [], []);
      && Groups(d.shapes) == map[shapeId := [Point(Some(lat1), Some(lon1)), Point(Some(lat2), Some(lon2))]]
      && (shapeId !in InheritedNames ==>
            GroupedAsWritten(d.shapes)
            == Success(map[shapeId := [Point(Some(lat1), Some(lon1)), Point(Some(lat2), Some(lon2))]]))
  {
    var t := TripsRecord(routeId, tripId, shapeId);
    var p1, p2 := ShapesRecords(shapeId, lat1, lon1, lat2, lon2);
    var d := JoinRoute(routeId, [t], [p1, p2], [], []);
    assert d.shapeIds == [Some(shapeId)] by {
      KeepOne(t, OnRoute(routeId));
      assert Map([t], Column("shape_id")) == [Some(shapeId)] by {
        assert [t][..0] == [];
      }
    }
    KeepBoth(p1, p2, IdIn([Some(shapeId)], "shape_id"));
    TwoPointsOneLine(p1, p2);
  }

  /** The one trip of `FeedTextToPolyline`. */
  lemma TripsRecord(routeId: string, tripId: string, shapeId: string) returns (t: Record)
    requires IsPlainField(routeId) && IsPlainField(tripId) && IsPlainField(shapeId)
    ensures ParseCSV("route_id,trip_id,shape_id\n" + (routeId + "," + tripId + "," + shapeId)) == [t]
    ensures Field(t, "route_id") == Some(routeId) && Field(t, "shape_id") == Some(shapeId)
  {
    TripsColumns();
    TripsHeaderText();
    ThreeColumnOneRow("route_id", "trip_id", "shape_id", routeId, tripId, shapeId);
    t := map["route_id" := Some(routeId), "trip_id" := Some(tripId), "shape_id" := Some(shapeId)];
  }

  /** The header of `FeedTextToPolyline`'s `trips.txt` is three distinct plain column names. */
  lemma TripsColumns()
    ensures IsPlainField("route_id") && IsPlainField("trip_id") && IsPlainField("shape_id")
    ensures "route_id" != "trip_id" && "route_id" != "shape_id" && "trip_id" != "shape_id"
    ensures "route_id" != ProtoKey && "trip_id" != ProtoKey && "shape_id" != ProtoKey
  {
  }

  /** The same header, as the text of the file's first line. */
  lemma TripsHeaderText()
    ensures "route_id" + "," + "trip_id" + "," + "shape_id" + "\n" == "route_id,trip_id,shape_id\n"
  {
  }

  /** The two shape points of `FeedTextToPolyline`. */
  lemma ShapesRecords(shapeId: string, lat1: string, lon1: string, lat2: string, lon2: string)
    returns (p1: Record, p2: Record)
    requires IsPlainField(shapeId)
    requires IsPlainField(lat1) && IsPlainField(lon1) && IsPlainField(lat2) && IsPlainField(lon2)
    ensures ParseCSV("shape_id,shape_pt_lat,shape_pt_lon\n"
                     + (shapeId + "," + lat1 + "," + lon1) + "\n"
                     + (shapeId + "," + lat2 + "," + lon2)) == [p1, p2]
    ensures Field(p1, "shape_id") == Field(p2, "shape_id") == Some(shapeId)
    ensures KeyOf(p1) == shapeId
    ensures PointOf(p1) == Point(Some(lat1), Some(lon1)) && PointOf(p2) == Point(Some(lat2), Some(lon2))
  {
    ShapesColumns();
    ShapesHeaderText();
    ThreeColumnTwoRows("shape_id", "shape_pt_lat", "shape_pt_lon", shapeId, lat1, lon1, shapeId, lat2, lon2);
    p1 := ShapePoint(shapeId, lat1, lon1);
    p2 := ShapePoint(shapeId, lat2, lon2);
  }

  /** The header of `FeedTextToPolyline`'s `shapes.txt` is three distinct plain column names. */
  lemma ShapesColumns()
    ensures IsPlainField("shape_id") && IsPlainField("shape_pt_lat") && IsPlainField("shape_pt_lon")
    ensures "shape_id" != "shape_pt_lat" && "shape_id" != "shape_pt_lon" && "shape_pt_lat" != "shape_pt_lon"
    ensures "shape_id" != ProtoKey && "shape_pt_lat" != ProtoKey && "shape_pt_lon" != ProtoKey
  {
  }

  /** The same header, as the text of the file's first line. */
  lemma ShapesHeaderText()
    ensures "shape_id" + "," + "shape_pt_lat" + "," + "shape_pt_lon" + "\n" == "shape_id,shape_pt_lat,shape_pt_lon\n"
  {
  }

  /** One parsed `shapes.txt` row: its group key and its point. */
  lemma ShapePoint(shapeId: string, lat: string, lon: string) returns (p: Record)
    ensures p == map["shape_id" := Some(shapeId), "shape_pt_lat" := Some(lat), "shape_pt_lon" := Some(lon)]
    ensures Field(p, "shape_id") == Some(shapeId) && KeyOf(p) == shapeId
    ensures PointOf(p) == Point(Some(lat), Some(lon))
  {
    p := map["shape_id" := Some(shapeId), "shape_pt_lat" := Some(lat), "shape_pt_lon" := Some(lon)];
  }
}
