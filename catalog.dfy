/** `populateDropdown` (main.js:48-56): one `<option>` per row of the routes table,
    in table order, valued by `route_id` and labelled "short name - long name".
    No sorting and no de-duplication. */
module RouteCatalog {
  import opened Wrappers
  import opened Seqs
  import opened JsText
  import opened Csv
  import opened RouteJoin

  /** An `<option>` element: its `value` and its `text`. */
  datatype SelectOption = SelectOption(value: string, text: string)

  /** main.js:51-53. Assigning `undefined` to `option.value`, or placing it in the
      template literal, gives the string "undefined". */
  function OptionFor(route: Record): SelectOption
  {
    SelectOption(
      ToJsString(Field(route, "route_id")),
      ToJsString(Field(route, "route_short_name")) + " - " + ToJsString(Field(route, "route_long_name")))
  }

  /** The option's value is the route's id, and the label holds the short name, the
      separator and the long name, in that order. */
  lemma OptionForRoute(route: Record, id: string, short: string, long: string)
    requires Field(route, "route_id") == Some(id)
    requires Field(route, "route_short_name") == Some(short)
    requires Field(route, "route_long_name") == Some(long)
    ensures OptionFor(route).value == id
    ensures var text := OptionFor(route).text;
      && |text| == |short| + 3 + |long|
      && text[..|short|] == short && text[|short|..|short| + 3] == " - " && text[|short| + 3..] == long
  {
  }

  /** A missing field reaches the option as the text "undefined": a route without
      an id gets the value "undefined", and a missing short or long name shows as
      "undefined" on its side of the separator. */
  lemma OptionForMissingFields(route: Record)
    ensures Field(route, "route_id") == None ==> OptionFor(route).value == "undefined"
    ensures Field(route, "route_short_name") == None ==>
      OptionFor(route).text[..|"undefined"|] == "undefined"
    ensures Field(route, "route_long_name") == None ==>
      var text := OptionFor(route).text;
      |text| >= |"undefined"| && text[|text| - |"undefined"|..] == "undefined"
  {
    var short := ToJsString(Field(route, "route_short_name"));
    var long := ToJsString(Field(route, "route_long_name"));
    LabelParts(short, long, OptionFor(route).text);
  }

  lemma LabelParts(short: string, long: string, text: string)
    requires text == short + " - " + long
    ensures text[..|short|] == short
    ensures |text| >= |long| && text[|text| - |long|..] == long
  {
  }

  /** Picking the option of a route with an id and joining on its value selects
      exactly the trips of that route. */
  lemma OptionValueSelectsRoute(route: Record, trip: Record)
    requires Field(route, "route_id").Some?
    ensures OnRoute(OptionFor(route).value)(trip) <==> Field(trip, "route_id") == Field(route, "route_id")
  {
  }

  /** A route without an id gets the value "undefined", and joining on it selects
      the trips whose `route_id` is the text "undefined", not the trips that have
      no `route_id` either. */
  lemma OptionValueWithoutId(route: Record, trip: Record)
    requires Field(route, "route_id") == None
    ensures OnRoute(OptionFor(route).value)(trip) <==> Field(trip, "route_id") == Some("undefined")
  {
  }

  lemma OptionsStep(routes: seq<Record>, i: int)
    requires 0 <= i < |routes|
    ensures Map(routes[..i + 1], OptionFor) == Map(routes[..i], OptionFor) + [OptionFor(routes[i])]
  {
    assert routes[..i + 1] == routes[..i] + [routes[i]];
    MapSnoc(routes[..i], routes[i], OptionFor);
  }

  /** The `bus-route-select` dropdown. */
  class RouteSelect {
    var options: seq<SelectOption>

    /** The element's initial options come from the page's HTML, which is not part
        of this model; they are assumed to be empty here. `Populate` does not rely
        on this, since its contract is relative to the options it finds. */
    constructor ()
      ensures options == []
    {
      options := [];
    }

    /** `routes.forEach(route => dropdown.add(option))`: the options of the routes
        are appended, one per route, in table order. */
    method Populate(routes: seq<Record>)
      modifies this
      ensures options == old(options) + Map(routes, OptionFor)
    {
      ghost var before := options;
      for i := 0 to |routes|
        invariant options == before + Map(routes[..i], OptionFor)
      {
        OptionsStep(routes, i);
        options := options + [OptionFor(routes[i])];
      }
      assert routes[..|routes|] == routes;
    }
  }
}
