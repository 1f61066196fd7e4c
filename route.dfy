/** The table join of `fetchRouteData` (main.js:84-88): from the parsed `trips`,
    `shapes`, `stop_times` and `stops` tables, keep the shape points and the stops
    of one route. Every comparison is JavaScript `===` or `Array.prototype.includes`
    on values that are strings or `undefined`, which is equality of `Option`s. */
module RouteJoin {
  import opened Wrappers
  import opened Seqs
  import opened Csv

  /** `trip => trip.route_id === routeId`. */
  function OnRoute(routeId: string): Record -> bool
  {
    trip => Field(trip, "route_id") == Some(routeId)
  }

  /** `row => row[name]`. */
  function Column(name: string): Record -> Option<string>
  {
    row => Field(row, name)
  }

  /** `row => ids.includes(row[name])`. */
  function IdIn(ids: seq<Option<string>>, name: string): Record -> bool
  {
    row => Field(row, name) in ids
  }

  /** The intermediate id lists and the two filtered tables. */
  datatype RouteData = RouteData(
    tripIds: seq<Option<string>>,
    shapeIds: seq<Option<string>>,
    stopIds: seq<Option<string>>,
    shapes: seq<Record>,
    stops: seq<Record>)

  /** main.js:84-88. */
  function JoinRoute(routeId: string, trips: seq<Record>, shapes: seq<Record>,
                     stopTimes: seq<Record>, stops: seq<Record>): RouteData
  {
    var tripIds := Map(Filter(trips, OnRoute(routeId)), Column("trip_id"));
    var shapeIds := Map(Filter(trips, OnRoute(routeId)), Column("shape_id"));
    var filteredShapes := Filter(shapes, IdIn(shapeIds, "shape_id"));
    var stopIds := Map(Filter(stopTimes, IdIn(tripIds, "trip_id")), Column("stop_id"));
    var filteredStops := Filter(stops, IdIn(stopIds, "stop_id"));
    RouteData(tripIds, shapeIds, stopIds, filteredShapes, filteredStops)
  }

  /** Reference definition: some trip of the route runs along this shape row's
      shape. */
  function ShapeOfRoute(routeId: string, trips: seq<Record>): Record -> bool
  {
    shape => exists j | 0 <= j < |trips| ::
      OnRoute(routeId)(trips[j]) && Field(trips[j], "shape_id") == Field(shape, "shape_id")
  }

  /** Reference definition: some stop time of some trip of the route is at this
      stop. */
  function StopOfRoute(routeId: string, trips: seq<Record>, stopTimes: seq<Record>): Record -> bool
  {
    stop => exists i, j | 0 <= i < |stopTimes| && 0 <= j < |trips| ::
      && OnRoute(routeId)(trips[j])
      && Field(stopTimes[i], "trip_id") == Field(trips[j], "trip_id")
      && Field(stopTimes[i], "stop_id") == Field(stop, "stop_id")
  }

  /** `tripIds` and `shapeIds` come from the same trips: those on the route, in trip
      order. They have one entry per such trip and agree position by position. */
  lemma IdsCorrespond(routeId: string, trips: seq<Record>, shapes: seq<Record>,
                      stopTimes: seq<Record>, stops: seq<Record>) returns (idx: seq<int>)
    ensures var d := JoinRoute(routeId, trips, shapes, stopTimes, stops);
      && |d.tripIds| == |d.shapeIds| == |idx|
      && (forall k, l :: 0 <= k < l < |idx| ==> idx[k] < idx[l])
      && (forall k :: 0 <= k < |idx| ==>
            && 0 <= idx[k] < |trips| && Field(trips[idx[k]], "route_id") == Some(routeId)
            && d.tripIds[k] == Field(trips[idx[k]], "trip_id")
            && d.shapeIds[k] == Field(trips[idx[k]], "shape_id"))
      && (forall i :: 0 <= i < |trips| && Field(trips[i], "route_id") == Some(routeId) ==> i in idx)
  {
    var onRoute := Filter(trips, OnRoute(routeId));
    idx := FilterSelects(trips, OnRoute(routeId));
    assert forall k :: 0 <= k < |idx| ==> onRoute[k] == trips[idx[k]];
  }

  /** Every id collected from the route's trips is the `name` field of one of them. */
  lemma IdsFromRouteTrips(routeId: string, trips: seq<Record>, name: string, id: Option<string>)
    returns (j: int)
    requires id in Map(Filter(trips, OnRoute(routeId)), Column(name))
    ensures 0 <= j < |trips| && OnRoute(routeId)(trips[j]) && Field(trips[j], name) == id
  {
    var onRoute := Filter(trips, OnRoute(routeId));
    var ids := Map(onRoute, Column(name));
    var k :| 0 <= k < |ids| && ids[k] == id;
    assert onRoute[k] in trips && OnRoute(routeId)(onRoute[k]);
    j :| 0 <= j < |trips| && trips[j] == onRoute[k];
  }

  /** The trips of the route give their `name` fields to `ids`. */
  lemma RouteTripsGiveIds(routeId: string, trips: seq<Record>, name: string, j: int)
    requires 0 <= j < |trips| && OnRoute(routeId)(trips[j])
    ensures Field(trips[j], name) in Map(Filter(trips, OnRoute(routeId)), Column(name))
  {
    var onRoute := Filter(trips, OnRoute(routeId));
    FilterKeeps(trips, OnRoute(routeId), j);
    var k :| 0 <= k < |onRoute| && onRoute[k] == trips[j];
    assert Map(onRoute, Column(name))[k] == Field(trips[j], name);
  }

  /** The shape filter of main.js:86 is the reference definition. */
  lemma ShapeFilterIsShapeOfRoute(routeId: string, trips: seq<Record>, shape: Record)
    ensures IdIn(Map(Filter(trips, OnRoute(routeId)), Column("shape_id")), "shape_id")(shape)
        == ShapeOfRoute(routeId, trips)(shape)
  {
    var ids := Map(Filter(trips, OnRoute(routeId)), Column("shape_id"));
    if Field(shape, "shape_id") in ids {
      var j := IdsFromRouteTrips(routeId, trips, "shape_id", Field(shape, "shape_id"));
    }
    if ShapeOfRoute(routeId, trips)(shape) {
      var j :| 0 <= j < |trips| && OnRoute(routeId)(trips[j])
        && Field(trips[j], "shape_id") == Field(shape, "shape_id");
      RouteTripsGiveIds(routeId, trips, "shape_id", j);
    }
  }

  /** `filteredShapes` is the order-preserving subsequence of `shapes` made of the
      rows whose `shape_id` is the shape of some trip of the route; each row of
      `shapes` appears at most once however many trips share its shape. */
  lemma FilteredShapes(routeId: string, trips: seq<Record>, shapes: seq<Record>,
                       stopTimes: seq<Record>, stops: seq<Record>) returns (idx: seq<int>)
    ensures Selects(JoinRoute(routeId, trips, shapes, stopTimes, stops).shapes, shapes, idx,
                    ShapeOfRoute(routeId, trips))
  {
    var d := JoinRoute(routeId, trips, shapes, stopTimes, stops);
    idx := FilterSelects(shapes, IdIn(d.shapeIds, "shape_id"));
    forall i | 0 <= i < |shapes| {
      ShapeFilterIsShapeOfRoute(routeId, trips, shapes[i]);
    }
    SelectsSamePredicate(d.shapes, shapes, idx, IdIn(d.shapeIds, "shape_id"), ShapeOfRoute(routeId, trips));
  }

  /** A stop that passes the filter of main.js:87-88 is served, through some stop
      time, by some trip of the route. */
  lemma StopIdServed(routeId: string, trips: seq<Record>, stopTimes: seq<Record>, stop: Record)
    returns (i: int, j: int)
    requires var tripIds := Map(Filter(trips, OnRoute(routeId)), Column("trip_id"));
      Field(stop, "stop_id") in Map(Filter(stopTimes, IdIn(tripIds, "trip_id")), Column("stop_id"))
    ensures 0 <= i < |stopTimes| && 0 <= j < |trips| && OnRoute(routeId)(trips[j])
    ensures Field(stopTimes[i], "trip_id") == Field(trips[j], "trip_id")
    ensures Field(stopTimes[i], "stop_id") == Field(stop, "stop_id")
  {
    var tripIds := Map(Filter(trips, OnRoute(routeId)), Column("trip_id"));
    var served := Filter(stopTimes, IdIn(tripIds, "trip_id"));
    var stopIds := Map(served, Column("stop_id"));
    var k :| 0 <= k < |stopIds| && stopIds[k] == Field(stop, "stop_id");
    assert served[k] in stopTimes && IdIn(tripIds, "trip_id")(served[k]);
    i :| 0 <= i < |stopTimes| && stopTimes[i] == served[k];
    j := IdsFromRouteTrips(routeId, trips, "trip_id", Field(stopTimes[i], "trip_id"));
  }

  /** A stop served by a stop time of a trip of the route passes the filter. */
  lemma ServedStopId(routeId: string, trips: seq<Record>, stopTimes: seq<Record>, stop: Record,
                     i: int, j: int)
    requires 0 <= i < |stopTimes| && 0 <= j < |trips| && OnRoute(routeId)(trips[j])
    requires Field(stopTimes[i], "trip_id") == Field(trips[j], "trip_id")
    requires Field(stopTimes[i], "stop_id") == Field(stop, "stop_id")
    ensures var tripIds := Map(Filter(trips, OnRoute(routeId)), Column("trip_id"));
      Field(stop, "stop_id") in Map(Filter(stopTimes, IdIn(tripIds, "trip_id")), Column("stop_id"))
  {
    var tripIds := Map(Filter(trips, OnRoute(routeId)), Column("trip_id"));
    var served := Filter(stopTimes, IdIn(tripIds, "trip_id"));
    RouteTripsGiveIds(routeId, trips, "trip_id", j);
    assert IdIn(tripIds, "trip_id")(stopTimes[i]);
    FilterKeeps(stopTimes, IdIn(tripIds, "trip_id"), i);
    var k :| 0 <= k < |served| && served[k] == stopTimes[i];
    assert Map(served, Column("stop_id"))[k] == Field(stop, "stop_id");
  }

  /** The stop filter of main.js:87-88 is the reference definition. */
  lemma StopFilterIsStopOfRoute(routeId: string, trips: seq<Record>, stopTimes: seq<Record>,
                                stop: Record)
    ensures var tripIds := Map(Filter(trips, OnRoute(routeId)), Column("trip_id"));
      var stopIds := Map(Filter(stopTimes, IdIn(tripIds, "trip_id")), Column("stop_id"));
      IdIn(stopIds, "stop_id")(stop) == StopOfRoute(routeId, trips, stopTimes)(stop)
  {
    var tripIds := Map(Filter(trips, OnRoute(routeId)), Column("trip_id"));
    var stopIds := Map(Filter(stopTimes, IdIn(tripIds, "trip_id")), Column("stop_id"));
    if Field(stop, "stop_id") in stopIds {
      var i, j := StopIdServed(routeId, trips, stopTimes, stop);
      assert StopOfRoute(routeId, trips, stopTimes)(stop);
    } else if StopOfRoute(routeId, trips, stopTimes)(stop) {
      StopOfRouteServed(routeId, trips, stopTimes, stop);
    }
  }

  lemma StopOfRouteServed(routeId: string, trips: seq<Record>, stopTimes: seq<Record>, stop: Record)
    requires StopOfRoute(routeId, trips, stopTimes)(stop)
    ensures var tripIds := Map(Filter(trips, OnRoute(routeId)), Column("trip_id"));
      Field(stop, "stop_id") in Map(Filter(stopTimes, IdIn(tripIds, "trip_id")), Column("stop_id"))
  {
    var i, j :| 0 <= i < |stopTimes| && 0 <= j < |trips|
      && OnRoute(routeId)(trips[j])
      && Field(stopTimes[i], "trip_id") == Field(trips[j], "trip_id")
      && Field(stopTimes[i], "stop_id") == Field(stop, "stop_id");
    ServedStopId(routeId, trips, stopTimes, stop, i, j);
  }

  /** `filteredStops` is the order-preserving subsequence of `stops` made of the
      rows whose `stop_id` is served by some stop time of some trip of the route. */
  lemma FilteredStops(routeId: string, trips: seq<Record>, shapes: seq<Record>,
                      stopTimes: seq<Record>, stops: seq<Record>) returns (idx: seq<int>)
    ensures Selects(JoinRoute(routeId, trips, shapes, stopTimes, stops).stops, stops, idx,
                    StopOfRoute(routeId, trips, stopTimes))
  {
    var d := JoinRoute(routeId, trips, shapes, stopTimes, stops);
    idx := FilterSelects(stops, IdIn(d.stopIds, "stop_id"));
    forall i | 0 <= i < |stops| {
      StopFilterIsStopOfRoute(routeId, trips, stopTimes, stops[i]);
    }
    SelectsSamePredicate(d.stops, stops, idx, IdIn(d.stopIds, "stop_id"), StopOfRoute(routeId, trips, stopTimes));
  }

  /** A stop row occurs in `filteredStops` exactly as often as in `stops` when the
      route serves it and not at all otherwise, however many stop times (and so
      entries of `stopIds`) name it. */
  lemma StopsNotMultiplied(routeId: string, trips: seq<Record>, shapes: seq<Record>,
                           stopTimes: seq<Record>, stops: seq<Record>, stop: Record)
    ensures multiset(JoinRoute(routeId, trips, shapes, stopTimes, stops).stops)[stop]
         == if StopOfRoute(routeId, trips, stopTimes)(stop) then multiset(stops)[stop] else 0
  {
    var d := JoinRoute(routeId, trips, shapes, stopTimes, stops);
    FilterMultiplicity(stops, IdIn(d.stopIds, "stop_id"), stop);
    StopFilterIsStopOfRoute(routeId, trips, stopTimes, stop);
  }

  /** A route id that no trip has gives empty id lists and empty tables, and only
      such a route id gives no trip ids. */
  lemma UnknownRoute(routeId: string, trips: seq<Record>, shapes: seq<Record>,
                     stopTimes: seq<Record>, stops: seq<Record>)
    ensures var d := JoinRoute(routeId, trips, shapes, stopTimes, stops);
      d.tripIds == [] <==> forall j :: 0 <= j < |trips| ==> Field(trips[j], "route_id") != Some(routeId)
    ensures var d := JoinRoute(routeId, trips, shapes, stopTimes, stops);
      d.tripIds == [] ==> d.shapeIds == [] && d.stopIds == [] && d.shapes == [] && d.stops == []
  {
    var d := JoinRoute(routeId, trips, shapes, stopTimes, stops);
    var onRoute := Filter(trips, OnRoute(routeId));
    if d.tripIds == [] {
      forall j | 0 <= j < |trips| ensures Field(trips[j], "route_id") != Some(routeId) {
        if OnRoute(routeId)(trips[j]) {
          FilterKeeps(trips, OnRoute(routeId), j);
        }
      }
      FilterNone(stopTimes, IdIn(d.tripIds, "trip_id"));
      FilterNone(shapes, IdIn(d.shapeIds, "shape_id"));
      FilterNone(stops, IdIn(d.stopIds, "stop_id"));
    } else {
      assert onRoute[0] in trips && OnRoute(routeId)(onRoute[0]);
    }
  }
}
