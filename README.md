# Rapid bus KL tracker: the in-memory data pipeline

This project models the logic of `main.js` that does not touch the network, the
archive reader or the map widget. That logic is the code that turns the text of a
static transit feed into what the map draws for one bus route:

- **`parseCSV`** reads a comma-separated table. The text is split on LF and the
  first line supplies the column names. Lines that are blank after `trim()` are
  dropped. Every other line is split on commas and becomes a record that maps
  each column name to the field at the same position.
- **The route join in `fetchRouteData`** starts from a route id and the `trips`,
  `shapes`, `stop_times` and `stops` tables. It keeps the trips of the route and
  collects their `trip_id`s and `shape_id`s. It then keeps the shape points of
  those shapes, and the stops that some stop time of those trips visits.
- **The grouping loop in `displayBusRoutes`** buckets the kept shape points by
  `shape_id` into the object `routeLines`. Each bucket holds one polyline's points
  in file order.
- **`populateDropdown`** adds one option per route. The option's value is the
  `route_id` and its label is `short name - long name`.

Values are JavaScript strings or `undefined`. A record is a
`map<string, Option<string>>`, and `None` is `undefined`. `record.x` on a record
without the key `x` is also `None` (`Csv.Field`). JavaScript `===` on such values
is equality of `Option`s. `Array.prototype.includes` is membership in a
`seq<Option<string>>`, so `undefined` matches `undefined`, as `SameValueZero`
does. The ECMAScript String operations `trim` and `split` are written out in
`JsText`, and so is ToString of a property key or template value
(`JsText.ToJsString`: a string is itself and `undefined` is `"undefined"`).
`values[index]` past the end of the fields is `undefined` (`Csv.FieldAt`).
`IsWhiteSpace` is the full WhiteSpace and LineTerminator set that
`trim` removes. Coordinates stay the raw field strings.

Modules:

- `Wrappers`: `Option` and `Result`.
- `Seqs`: `Filter` and `Map`. `Selects` says that a result is the
  order-preserving subsequence picked out by a predicate.
- `JsText`: `trim`, `split`, `join`, and converting `undefined` to a string.
- `Csv`: `parseCSV`.
- `RouteJoin`: main.js:84-88.
- `ShapeGroups`: the grouping loop.
- `RouteCatalog`: the dropdown.
- `Pipeline`: lemmas that combine the join and the grouping.

The definitions that stand for the source, whose behaviour the lemmas in
"## Model" state:

- `Csv.Lines`, `Csv.Headers` and `Csv.DataLines`: main.js:105-107. These are the
  LF split, the column names from line 0, and the non-blank lines after it.
- `JsText.Trim`: `trim()` at main.js:107, which is `TrimEnd` after `TrimStart`.
- `Csv.Assigned` and `Csv.RecordOf`: the `forEach` at main.js:109-112, after `n`
  columns and after all of them.
- `Csv.ParseCSV`: `parseCSV`, main.js:104-115.
- `Seqs.Filter` and `Seqs.Map`: `.filter` and `.map` at main.js:84-88 and 107.
- `RouteJoin.JoinRoute`: the join at main.js:84-88. It holds `tripIds`,
  `shapeIds`, `stopIds`, `filteredShapes` and `filteredStops`.
- `ShapeGroups.KeyOf`: the property key `routeLines[shape.shape_id]` at
  main.js:126-127.
- `ShapeGroups.Groups`: the loop at main.js:123-131 as intended, with every
  property key (`KeyOf`) getting its own bucket.
- `ShapeGroups.GroupedAsWritten`: the same loop on `{}`, including the
  `TypeError`.
- `RouteCatalog.OptionFor`: the option built at main.js:51-53.

Points where `main.js` behaves differently from what one might expect, all
modelled as the code behaves:

- Stop ids are gathered into a list that may repeat an id, not into a set. Each
  stops row still appears at most once, because the filter tests membership
  (`RouteJoin.StopsNotMultiplied`).
- A line with fewer fields than columns gives a key whose value is `undefined`.
  The key itself is not missing.
- The key set of a record is the set of column names, except `__proto__`.
  JavaScript sends `obj["__proto__"] = v` to the `Object.prototype.__proto__`
  setter, which ignores a string or `undefined` value and creates no key.
- A CR before an LF is not removed. It stays at the end of the last column name
  and of the last field of each line (`Csv.CarriageReturnExample`).

## Model

| member | source | states |
|---|---|---|
| `JsText.TrimStart` | main.js:107 | the result is a suffix of the input, everything removed is white space, and the result is empty or starts with a non-white-space character |
| `JsText.TrimEnd` | main.js:107 | the result is a prefix of the input, everything removed is white space, and the result is empty or ends with a non-white-space character |
| `JsText.LeadingWhiteSpace` | main.js:107 | counts the white-space characters at the start of a line: all of them are white space, and the next character, if any, is not |
| `JsText.TrailingWhiteSpace` | main.js:107 | counts the white-space characters at the end of a line: all of them are white space, and the character before them, if any, is not |
| `JsText.TrimEmptyIffAllWhiteSpace` | main.js:107 | `line.trim() === ''` holds exactly when every character of the line is ECMAScript white space or a line terminator |
| `JsText.Split` | main.js:105-108 | `split` with a one-character separator returns at least one piece, and no piece contains the separator |
| `JsText.JoinSplit` | main.js:105-108 | joining the pieces of a split with the separator gives back the original text, so nothing is lost or added |
| `JsText.SplitJoin` | main.js:105-108 | splitting separator-free pieces joined by the separator gives back exactly those pieces |
| `JsText.SplitAtSeparator` | main.js:105 | splitting `a + sep + b` gives the pieces of `a` followed by the pieces of `b` |
| `JsText.SplitWithoutSeparator` | main.js:105-106 | text without the separator splits into the single piece that is the text itself |
| `Csv.BuildRecord` | main.js:109-112 | the `forEach` loop gives the record that the assignments in column order define |
| `Csv.AssignedKeys` | main.js:110-112 | after `n` iterations the keys are the first `n` column names, except `__proto__` |
| `Csv.RecordKeys` | main.js:106-112 | every record's key set is the set of column names, except `__proto__`, whatever the number of fields on the line |
| `Csv.AssignedValue` | main.js:110-112 | the value under a column name is the field of the last column with that name among those assigned so far |
| `Csv.RecordValue` | main.js:110-112 | the value for column `i` is field `i` (`None` when the line is shorter) unless a later column has the same name, in which case the later one wins |
| `Csv.RecordIgnoresExtraFields` | main.js:108-111 | fields beyond the number of columns do not change the record |
| `Csv.ParseCSV` | main.js:104-115 | there are exactly as many records as kept data lines |
| `Csv.ParseCSVLines` | main.js:105-114 | record `k` comes from line `lines[k]`, with `lines[k] >= 1`, strictly increasing positions, and every line after the header that is not all white space used; each record is built from that line's comma-split fields and has the column names other than `__proto__` as keys |
| `Csv.DataLinePositions` | main.js:107 | the lines kept by `slice(1).filter(...)` are, in order, exactly the lines after the header that have a non-white-space character |
| `Csv.ParseCSVAppendLine` | main.js:105-114 | appending an LF and one more line appends that line's record when it has a non-white-space character, and appends nothing when it is blank |
| `Csv.DataLinesAppendLine` | main.js:105-107 | appending a line leaves the header unchanged and filters the new line on its own |
| `Csv.ParseCSVHeaderOnly` | main.js:105-107 | text without an LF is only a header and gives no record |
| `Csv.TwoColumnRow` | main.js:104-115 | a two-column header and one data line parse to the one record that maps each column name to its field |
| `Csv.TwoColumnTable` | main.js:104-115 | a header, one data line and a trailing blank line parse to exactly one record |
| `Csv.CarriageReturnExample` | main.js:105-106 | for `"a,b\r\n1,2\r\n"` the record is `{a: "1", "b\r": "2\r"}`, and the empty text after the last LF gives no record |
| `RouteJoin.IdsCorrespond` | main.js:84-85 | `tripIds` and `shapeIds` have one entry per trip of the route, in trip order, and entry `k` of both comes from the same trip |
| `RouteJoin.IdsFromRouteTrips` | main.js:84-85 | every collected id is the field of some trip that has the route's `route_id` |
| `RouteJoin.RouteTripsGiveIds` | main.js:84-85 | every trip of the route contributes its field to the collected ids |
| `RouteJoin.ShapeFilterIsShapeOfRoute` | main.js:85-86 | a shape row passes `shapeIds.includes(shape.shape_id)` exactly when some trip of the route has its `shape_id` |
| `RouteJoin.FilteredShapes` | main.js:86 | `filteredShapes` is the order-preserving subsequence of `shapes` made of the rows of the route's shapes; each row appears at most once, however many trips share the shape |
| `RouteJoin.StopIdServed` | main.js:87-88 | a stop that passes the filter has a stop time whose trip is a trip of the route and whose `stop_id` is the stop's |
| `RouteJoin.ServedStopId` | main.js:87-88 | a stop visited by a stop time of a trip of the route passes the filter |
| `RouteJoin.StopOfRouteServed` | main.js:87-88 | a stop that the reference definition calls served has its `stop_id` among the collected `stopIds` |
| `RouteJoin.StopFilterIsStopOfRoute` | main.js:84-88 | a stop passes `stopIds.includes(stop.stop_id)` exactly when some stop time of some trip of the route has its `stop_id` |
| `RouteJoin.FilteredStops` | main.js:87-88 | `filteredStops` is the order-preserving subsequence of `stops` made of the rows that the route serves |
| `RouteJoin.StopsNotMultiplied` | main.js:87-88 | a stops row occurs in `filteredStops` as often as in `stops` when served and not at all otherwise, however often `stopIds` repeats its id |
| `RouteJoin.UnknownRoute` | main.js:84-88 | `tripIds` is empty exactly when no trip has the route id, and then `shapeIds`, `stopIds`, `filteredShapes` and `filteredStops` are all empty |
| `ShapeGroups.GroupsKeys` | main.js:125-129 | the keys of `routeLines` are exactly the keys of the rows, so there is one group per distinct property key (`KeyOf`); a row without `shape_id` and a row whose `shape_id` is `"undefined"` share one |
| `ShapeGroups.GroupsContents` | main.js:125-130 | the group of a key holds the points of exactly the rows with that key, in row order |
| `ShapeGroups.RowInItsGroup` | main.js:125-130 | each row's point is in the group of its own key, and every point of a group comes from a row with that key |
| `ShapeGroups.RowInOwnGroup` | main.js:126-130 | after the loop, the bucket of each row's key exists and holds that row's point |
| `ShapeGroups.GroupPointFromRow` | main.js:126-130 | every point in a bucket is the point of some row with that bucket's key |
| `ShapeGroups.TotalPointsWithout` | main.js:123-131 | the total point count of the groups does not depend on the order in which the keys are visited |
| `ShapeGroups.GroupsTotalPoints` | main.js:123-131 | the groups together hold exactly as many points as there are rows |
| `ShapeGroups.GroupShapes` | main.js:123-131 | the grouping loop, run over a dictionary that has only its own keys, builds the groups that `Groups` defines |
| `ShapeGroups.GroupShapesAsWritten` | main.js:123-131 | the loop exactly as written on `{}`: it either returns the groups or throws at a key that names an inherited property |
| `ShapeGroups.AsWrittenFailureStays` | main.js:125-131 | once a `push` has thrown, later rows do not change the outcome |
| `ShapeGroups.AsWrittenAgreesUnlessInherited` | main.js:123-131 | the loop as written succeeds exactly when no row's key is an `Object.prototype` property name, and then gives the intended groups; otherwise it throws on the first such row |
| `ShapeGroups.InheritedShapeIdThrows` | main.js:127-130 | a shape with id `toString` makes the loop as written throw, while the intended grouping gives it a polyline |
| `RouteCatalog.OptionForRoute` | main.js:50-54 | the option's value is the route id, and its label is the short name, then `" - "`, then the long name |
| `RouteCatalog.OptionForMissingFields` | main.js:52-53 | a route without `route_id` gets the value `"undefined"`; a missing short name makes the label start with `"undefined"` and a missing long name makes it end with `"undefined"` |
| `RouteCatalog.OptionValueSelectsRoute` | main.js:52 | for a route that has a `route_id`, joining on the value of its option selects exactly the trips whose `route_id` is that route's |
| `RouteCatalog.OptionValueWithoutId` | main.js:52-53 | for a route without a `route_id`, joining on the value of its option selects exactly the trips whose `route_id` is the text `"undefined"`, not the trips that lack a `route_id` |
| `RouteCatalog.RouteSelect.constructor` | main.js:49 | stands for the `bus-route-select` element; its initial options come from HTML outside this model and are assumed empty, and no other contract depends on that |
| `RouteCatalog.RouteSelect.Populate` | main.js:50-55 | one option per route is appended, in table order, with no sorting or de-duplication |
| `Pipeline.UnknownRouteDrawsNothing` | main.js:84-131 | a route id that no trip has gives no polyline and no stop, in the intended grouping and in the loop as written; neither the join nor the grouping raises an error |
| `Pipeline.SharedShapeOneLine` | main.js:84-131 | two trips of a route sharing a two-point shape give one polyline with both points in file order; the loop as written gives the same polyline when the shape id is not an `Object.prototype` property name and throws a `TypeError` naming it when it is |
| `Pipeline.SharedStopOnce` | main.js:84-88 | two trips of a route that both visit one stop give that stop once, although `stopIds` names it twice |
| `Pipeline.TwoPointsOneLine` | main.js:125-131 | two rows with the same key form one polyline with the points in row order; the loop as written agrees when the key is not an `Object.prototype` property name and throws at that key when it is |
| `Pipeline.FeedTextToPolyline` | main.js:79-131 | a `trips.txt` text with one trip of the route and a `shapes.txt` text with two points of its shape, parsed, joined and grouped, give exactly one polyline holding both points in file order; the loop as written gives the same map when the shape id is not an `Object.prototype` property name |
| `Csv.ParseCSVOneRow` | main.js:104-115 | a header line and one data line that is not all white space parse to exactly the one record built from their comma-split fields |
| `Csv.ParseCSVTwoRows` | main.js:104-115 | a header line and two such data lines parse to exactly two records, in line order |
| `Csv.ThreeColumnOneRow` | main.js:104-115 | a header of three distinct plain column names and one plain data line parse to exactly one record mapping each name to its field |
| `Csv.ThreeColumnTwoRows` | main.js:104-115 | the same header and two plain data lines parse to exactly two records, in line order |
| `Pipeline.UndefinedShapeIdSharesLine` | main.js:126-130 | a row with no `shape_id` and a row whose `shape_id` is the text `"undefined"` get the same property key and so share one polyline, also in the loop as written |
| `Seqs.Map` | main.js:84-87 | `.map` keeps the length, and element `k` of the result is the function applied to element `k` of the input |
| `Csv.Lines` | main.js:105-106 | `split('\n')` gives at least one line, even for empty text, so `lines[0]` always exists |
| `Seqs.Filter` | main.js:84-88 | every kept element comes from the input and satisfies the predicate, and there are at most as many as in the input |
| `Seqs.FilterSelects` | main.js:84-88 | `filter` keeps exactly the positions whose element satisfies the predicate, in increasing order |
| `Seqs.FilterMultiplicity` | main.js:86-88 | a kept element occurs as often as in the input, and a rejected one not at all |
| `Seqs.FilterKeeps` | main.js:84-88 | every element that satisfies the predicate is kept |

## Left out

- The archive fetch and decode (main.js:22-45, 59-78 and 96-100). The `axios`
  request, JSZip and the promise chains are network and archive I/O. Lines 79-82
  and 93 only hand the fetched text to `parseCSV` and the filtered shapes to
  `displayBusRoutes`, which are modelled; `Pipeline.FeedTextToPolyline` composes
  the three steps. Line 94 hands the filtered stops to the marker code, and lines
  60 and 95 toggle the loading screen; both are left out with the map below.
- The `console.log` output of the filtered tables and of errors (main.js:42,
  90-91, 98). It is logging only and changes no state.
- The map and the DOM (main.js:1-19, 118-121, 133-138, 141-181). This covers
  Leaflet layers, `fitBounds`, markers, popup HTML, the loading screen,
  `dropdown.add` and the click handler with its `alert`. These are calls into
  code outside this model. `RouteCatalog.RouteSelect` only records the options
  that would be added.
- `parseFloat` of coordinates (main.js:130, 148-149, 166). This is floating-point
  conversion, including `NaN`. Points keep the raw field strings.
- The order of polylines from `Object.values(routeLines)` (main.js:133).
  ECMAScript lists integer-like keys first, in numeric order, and then the other
  keys in insertion order. The groups are a `map`, and the model makes no claim
  about their order.
- The module-level layer variables `busRoutesLayer` and `busStopsLayer`, and
  overlapping queries where the last response wins. This is rendering state and
  concurrency.
- Lookups of the fixed column names (`route_id`, `trip_id`, `shape_id`, `stop_id`
  and the point and name columns) are modelled as own-key lookups. None of these
  names is an `Object.prototype` property, so this loses nothing.
- UTF-16 code units: a `string` here is a sequence of Unicode scalar values.
  `trim()` and `split(',')` only look at characters that are single code units,
  so the results are the same.

## Findings

| source | as written | input that shows it | evidently intended | confidence | as-written member | corrected member |
|---|---|---|---|---|---|---|
| main.js:123-130 | `routeLines` is a plain `{}`, so `!routeLines[shapeId]` reads inherited `Object.prototype` properties. For a `shape_id` such as `toString`, `constructor` or `__proto__` no bucket is created, and `routeLines[shapeId].push(...)` throws a `TypeError` that aborts the whole route display | a `shapes.txt` row with `shape_id` `toString` on the selected route | a new polyline for every `shape_id`, whatever its name | not executed | `ShapeGroups.InheritedShapeIdThrows` | `ShapeGroups.GroupShapes` |
