/** The opening view of a map: which pins can be plotted, the box around them and its centre. */
module MapView {
  import opened Wrappers

  /** None is a coordinate that is missing, not a number or not finite. */
  datatype Pin = Pin(id: string, lat: Option<real>, lng: Option<real>)
  datatype Coordinates = Coordinates(lat: real, lng: real)
  datatype Bounds = Bounds(west: real, south: real, east: real, north: real)
  datatype View = View(centre: Coordinates, zoom: real, bounds: Option<Bounds>)

  const DEFAULT_ZOOM := 11.0
  const SINGLE_PIN_ZOOM := 14.0

  predicate IsPlottable(p: Pin) {
    p.lat.Some? && p.lng.Some? && -90.0 <= p.lat.value <= 90.0 && -180.0 <= p.lng.value <= 180.0
  }

  predicate Plotted(pins: seq<Pin>) {
    forall i | 0 <= i < |pins| :: IsPlottable(pins[i])
  }

  function PlottablePins(pins: seq<Pin>): (plotted: seq<Pin>)
    ensures Plotted(plotted)
  {
    if pins == [] then []
    else PlottablePins(pins[..|pins| - 1]) + if IsPlottable(pins[|pins| - 1]) then [pins[|pins| - 1]] else []
  }

  predicate Contains(b: Bounds, p: Pin)
    requires IsPlottable(p)
  {
    b.west <= p.lng.value <= b.east && b.south <= p.lat.value <= b.north
  }

  predicate ContainsAll(b: Bounds, pins: seq<Pin>)
    requires Plotted(pins)
  {
    forall i | 0 <= i < |pins| :: Contains(b, pins[i])
  }

  /** Each side passes through a pin. */
  predicate Tight(b: Bounds, pins: seq<Pin>)
    requires Plotted(pins)
  {
    && (exists i :: 0 <= i < |pins| && pins[i].lng.value == b.west)
    && (exists i :: 0 <= i < |pins| && pins[i].lng.value == b.east)
    && (exists i :: 0 <= i < |pins| && pins[i].lat.value == b.south)
    && (exists i :: 0 <= i < |pins| && pins[i].lat.value == b.north)
  }

  method BoundsOf(pins: seq<Pin>) returns (bounds: Option<Bounds>)
    requires Plotted(pins)
    ensures bounds.None? <==> pins == []
    ensures bounds.Some? ==> ContainsAll(bounds.value, pins) && Tight(bounds.value, pins)
  {
    if pins == [] {
      return None;
    }
    var west, east := pins[0].lng.value, pins[0].lng.value;
    var south, north := pins[0].lat.value, pins[0].lat.value;
    ghost var w, e, s, n := 0, 0, 0, 0;
    for i := 0 to |pins|
      invariant 0 <= w < |pins| && pins[w].lng.value == west && 0 <= e < |pins| && pins[e].lng.value == east
      invariant 0 <= s < |pins| && pins[s].lat.value == south && 0 <= n < |pins| && pins[n].lat.value == north
      invariant forall k | 0 <= k < i :: Contains(Bounds(west, south, east, north), pins[k])
    {
      var lng, lat := pins[i].lng.value, pins[i].lat.value;
      if lng < west { west, w := lng, i; }
      if lng > east { east, e := lng, i; }
      if lat < south { south, s := lat, i; }
      if lat > north { north, n := lat, i; }
    }
    bounds := Some(Bounds(west, south, east, north));
  }

  /** The box is the least one: every box with all the pins in it has this one in it. */
  lemma BoundsAreLeast(b: Bounds, other: Bounds, pins: seq<Pin>)
    requires Plotted(pins) && Tight(b, pins) && ContainsAll(other, pins)
    ensures other.west <= b.west && b.east <= other.east && other.south <= b.south && b.north <= other.north
  {
    var w :| 0 <= w < |pins| && pins[w].lng.value == b.west;
    var e :| 0 <= e < |pins| && pins[e].lng.value == b.east;
    var s :| 0 <= s < |pins| && pins[s].lat.value == b.south;
    var n :| 0 <= n < |pins| && pins[n].lat.value == b.north;
    assert Contains(other, pins[w]) && Contains(other, pins[e]) && Contains(other, pins[s]) && Contains(other, pins[n]);
  }

  predicate InWorld(c: Coordinates) {
    -90.0 <= c.lat <= 90.0 && -180.0 <= c.lng <= 180.0
  }

  /** A derived view opens on a point of the world, inside the box of its pins; a given centre is taken as it is. */
  method ResolveView(pins: seq<Pin>, centre: Option<Coordinates>, zoom: Option<real>) returns (view: Option<View>)
    requires Plotted(pins)
    ensures view.None? <==> pins == []
    ensures view.Some? && centre.Some? ==> view.value.centre == centre.value && view.value.bounds.None?
    ensures view.Some? && centre.None? ==> InWorld(view.value.centre)
    ensures view.Some? && centre.None? && |pins| == 1 ==>
              view.value.centre == Coordinates(pins[0].lat.value, pins[0].lng.value) && view.value.bounds.None?
    ensures view.Some? && centre.None? && |pins| > 1 ==>
              && view.value.bounds.Some?
              && ContainsAll(view.value.bounds.value, pins) && Tight(view.value.bounds.value, pins)
              && view.value.centre.lat * 2.0 == view.value.bounds.value.south + view.value.bounds.value.north
              && view.value.centre.lng * 2.0 == view.value.bounds.value.west + view.value.bounds.value.east
    ensures view.Some? ==>
              view.value.zoom == if zoom.Some? then zoom.value
                                 else if centre.None? && |pins| == 1 then 14.0 else 11.0
  {
    if pins == [] {
      return None;
    }
    var defaultZoom := if zoom.Some? then zoom.value else DEFAULT_ZOOM;
    if centre.Some? {
      return Some(View(centre.value, defaultZoom, None));
    }
    if |pins| == 1 {
      var only := Coordinates(pins[0].lat.value, pins[0].lng.value);
      return Some(View(only, if zoom.Some? then zoom.value else SINGLE_PIN_ZOOM, None));
    }
    var bounds := BoundsOf(pins);
    BoundsAreLeast(bounds.value, Bounds(-180.0, -90.0, 180.0, 90.0), pins);
    assert Contains(bounds.value, pins[0]);
    var b := bounds.value;
    view := Some(View(Coordinates((b.south + b.north) / 2.0, (b.west + b.east) / 2.0), defaultZoom, bounds));
  }
}
