/** Reconciling the markers on the map with the features the visible tiles report. */
module MapMarkers {
  import opened Wrappers

  /** A property or coordinate; NotFinite is NaN or an infinity, Other is anything neither text nor number. */
  datatype Value = Text(text: string) | Number(number: real) | NotFinite | Other

  /** `properties` is None when the feature's are null or not an object. */
  datatype Feature = Feature(isPoint: bool, lng: Value, lat: Value, properties: Option<map<string, Value>>)

  /** c:<number> and p:<text>. */
  datatype Key = Cluster(number: real) | Pin(id: string)
  datatype Element = ClusterElement(count: real, expands: real) | PinElement(name: string, href: string)

  /** `serial` tells one marker object from another. */
  datatype Marker = Marker(serial: nat, element: Element, lng: Value, lat: Value)
  datatype Layer = Layer(markers: map<Key, Marker>, onMap: set<Marker>, next: nat)

  function Read(properties: Option<map<string, Value>>, key: string): Value {
    if properties.Some? && key in properties.value then properties.value[key] else Other
  }

  function ReadString(properties: Option<map<string, Value>>, key: string): Option<string> {
    match Read(properties, key)
    case Text(text) => Some(text)
    case _ => None
  }

  function ReadNumber(properties: Option<map<string, Value>>, key: string): Option<real> {
    match Read(properties, key)
    case Number(number) => Some(number)
    case _ => None
  }

  predicate IsNumber(v: Value) {
    v.Number? || v.NotFinite?
  }

  predicate Usable(f: Feature) {
    f.isPoint && IsNumber(f.lng) && IsNumber(f.lat)
  }

  function KeyOf(f: Feature): Key {
    match ReadNumber(f.properties, "cluster_id")
    case Some(id) => Cluster(id)
    case None =>
      var id := ReadString(f.properties, "id");
      Pin(if id.Some? then id.value else "")
  }

  /** None when a pin lacks its href or its name. */
  function ElementOf(f: Feature): Option<Element> {
    match ReadNumber(f.properties, "cluster_id")
    case Some(id) =>
      var count := ReadNumber(f.properties, "point_count");
      Some(ClusterElement(if count.Some? then count.value else 0.0, id))
    case None =>
      var href, name := ReadString(f.properties, "href"), ReadString(f.properties, "name");
      if href.None? || name.None? then None else Some(PinElement(name.value, href.value))
  }

  // ---- One pass over the features, then one over the markers -------------------------------------------------

  datatype Pass = Pass(layer: Layer, seen: set<Key>)

  function Visit(p: Pass, f: Feature): Pass {
    var key, l := KeyOf(f), p.layer;
    if !Usable(f) || key in p.seen then p
    else if key in l.markers || ElementOf(f).None? then p.(seen := p.seen + {key})
    else
      var marker := Marker(l.next, ElementOf(f).value, f.lng, f.lat);
      Pass(Layer(l.markers[key := marker], l.onMap + {marker}, l.next + 1), p.seen + {key})
  }

  function VisitAll(l: Layer, features: seq<Feature>): Pass {
    if features == [] then Pass(l, {})
    else Visit(VisitAll(l, features[..|features| - 1]), features[|features| - 1])
  }

  function Sweep(l: Layer, seen: set<Key>): Layer {
    var gone := set k | k in l.markers && k !in seen :: l.markers[k];
    l.(markers := map k | k in l.markers && k in seen :: l.markers[k], onMap := l.onMap - gone)
  }

  /** None is a query that throws. */
  function Sync(l: Layer, features: Option<seq<Feature>>): Layer {
    match features
    case None => l
    case Some(fs) => var p := VisitAll(l, fs); Sweep(p.layer, p.seen)
  }

  function SyncAll(l: Layer, queries: seq<Option<seq<Feature>>>): Layer {
    if queries == [] then l
    else Sync(SyncAll(l, queries[..|queries| - 1]), queries[|queries| - 1])
  }

  // ---- The live map ------------------------------------------------------------------------------------------

  class LiveMap {
    var markers: map<Key, Marker>
    var onMap: set<Marker>
    var next: nat

    function State(): Layer
      reads this
    {
      Layer(markers, onMap, next)
    }

    constructor ()
      ensures State() == Layer(map[], {}, 0)
    {
      markers, onMap, next := map[], {}, 0;
    }

    method AddMarker(key: Key, element: Element, lng: Value, lat: Value)
      modifies this
      ensures var marker := Marker(old(next), element, lng, lat);
              markers == old(markers)[key := marker] && onMap == old(onMap) + {marker} && next == old(next) + 1
    {
      var marker := Marker(next, element, lng, lat);
      next := next + 1;
      onMap := onMap + {marker};
      markers := markers[key := marker];
    }

    method AddMissing(features: seq<Feature>) returns (seen: set<Key>)
      modifies this
      ensures Pass(State(), seen) == VisitAll(old(State()), features)
    {
      seen := {};
      for i := 0 to |features|
        invariant Pass(State(), seen) == VisitAll(old(State()), features[..i])
      {
        assert features[..i + 1][..i] == features[..i];
        var f := features[i];
        if !Usable(f) {
          continue;
        }
        var key := KeyOf(f);
        if key in seen {
          continue;
        }
        seen := seen + {key};
        if key in markers {
          continue;
        }
        var element := ElementOf(f);
        if element.None? {
          continue;
        }
        AddMarker(key, element.value, f.lng, f.lat);
      }
      assert features[..|features|] == features;
    }

    method RemoveUnseen(seen: set<Key>)
      modifies this`markers, this`onMap
      ensures State() == Sweep(old(State()), seen)
    {
      var rest := markers.Keys;
      while rest != {}
        invariant rest <= markers.Keys <= old(markers).Keys
        invariant forall k | k in markers :: markers[k] == old(markers)[k]
        invariant forall k | k in old(markers) && k !in rest :: k in markers <==> k in seen
        invariant onMap == old(onMap) - set k | k in old(markers) && k !in rest && k !in seen :: old(markers)[k]
      {
        var key :| key in rest;
        var marker := markers[key];
        if key !in seen {
          onMap := onMap - {marker};
          markers := map k | k in markers && k != key :: markers[k];
        }
        rest := rest - {key};
      }
    }

    method SyncMarkers(features: Option<seq<Feature>>)
      modifies this
      ensures State() == Sync(old(State()), features)
    {
      if features.None? {
        return;
      }
      var seen := AddMissing(features.value);
      RemoveUnseen(seen);
    }
  }

  // ---- What one sync leaves ------------------------------------------------------------------------------------

  /** The first usable feature with the key, whose own properties decide whether it can be drawn. */
  function FirstWith(features: seq<Feature>, key: Key): Option<Feature> {
    if features == [] then None
    else
      var before := FirstWith(features[..|features| - 1], key);
      var last := features[|features| - 1];
      if before.Some? then before
      else if Usable(last) && KeyOf(last) == key then Some(last)
      else None
  }

  predicate Drawable(features: seq<Feature>, key: Key) {
    var first := FirstWith(features, key);
    first.Some? && ElementOf(first.value).Some?
  }

  predicate DrawnFrom(marker: Marker, f: Feature) {
    ElementOf(f) == Some(marker.element) && marker.lng == f.lng && marker.lat == f.lat
  }

  /** Every marker object on the map is some key's, and no two keys share one. */
  ghost predicate Tracked(l: Layer) {
    && l.onMap == l.markers.Values
    && (forall k | k in l.markers :: l.markers[k].serial < l.next)
    && forall j, k | j in l.markers && k in l.markers && j != k :: l.markers[j].serial != l.markers[k].serial
  }

  lemma VisitKeepsTracked(p: Pass, f: Feature)
    requires Tracked(p.layer)
    ensures Tracked(Visit(p, f).layer)
  {
    var l, l', key := p.layer, Visit(p, f).layer, KeyOf(f);
    if l' != l {
      var marker := l'.markers[key];
      forall m ensures m in l'.markers.Values <==> m in l.markers.Values || m == marker {
        if m in l.markers.Values {
          var k :| k in l.markers && l.markers[k] == m;
          assert l'.markers[k] == m;
        }
      }
      assert l'.onMap == l'.markers.Values;
    }
  }

  lemma {:induction false} VisitAllKeepsTracked(l: Layer, features: seq<Feature>)
    requires Tracked(l)
    ensures Tracked(VisitAll(l, features).layer)
  {
    if features != [] {
      VisitAllKeepsTracked(l, features[..|features| - 1]);
      VisitKeepsTracked(VisitAll(l, features[..|features| - 1]), features[|features| - 1]);
    }
  }

  lemma {:induction false} VisitAllIs(l: Layer, features: seq<Feature>, key: Key)
    ensures var p := VisitAll(l, features);
            && (key in p.seen <==> FirstWith(features, key).Some?)
            && (key in p.layer.markers <==> key in l.markers || Drawable(features, key))
            && (key in l.markers ==> p.layer.markers[key] == l.markers[key])
            && (key !in l.markers && Drawable(features, key) ==>
                  && DrawnFrom(p.layer.markers[key], FirstWith(features, key).value)
                  && p.layer.markers[key].serial >= l.next)
            && p.layer.next >= l.next
  {
    if features != [] {
      VisitAllIs(l, features[..|features| - 1], key);
    }
  }

  lemma SweepKeepsTracked(l: Layer, seen: set<Key>)
    requires Tracked(l)
    ensures Tracked(Sweep(l, seen))
  {
    var l' := Sweep(l, seen);
    forall m ensures m in l'.onMap <==> m in l'.markers.Values {
      if m in l'.markers.Values {
        var k :| k in l'.markers && l'.markers[k] == m;
        assert m in l.markers.Values;
      }
      if m in l'.onMap {
        var k :| k in l.markers && l.markers[k] == m;
        assert k in seen;
        assert k in l'.markers && l'.markers[k] == m;
      }
    }
  }

  /**
   After a sync the map holds exactly the keys the features name that either had a marker already or can be
   drawn from their first occurrence. A surviving marker is the same object in the same place; a new one is
   drawn from that first occurrence.
   */
  lemma SyncLeavesExactlyTheSeen(l: Layer, features: seq<Feature>, key: Key)
    requires Tracked(l)
    ensures var l' := Sync(l, Some(features));
            && Tracked(l')
            && (key in l'.markers <==>
                  FirstWith(features, key).Some? && (key in l.markers || Drawable(features, key)))
            && (key in l'.markers && key in l.markers ==> l'.markers[key] == l.markers[key])
            && (key in l'.markers && key !in l.markers ==>
                  DrawnFrom(l'.markers[key], FirstWith(features, key).value) && l'.markers[key].serial >= l.next)
  {
    VisitAllKeepsTracked(l, features);
    VisitAllIs(l, features, key);
    SweepKeepsTracked(VisitAll(l, features).layer, VisitAll(l, features).seen);
  }

  /** Whatever sequence of queries the map answers, no marker is ever left on it without an entry, nor the reverse. */
  lemma {:induction false} NoMarkerLeaks(queries: seq<Option<seq<Feature>>>)
    ensures Tracked(SyncAll(Layer(map[], {}, 0), queries))
  {
    if queries != [] {
      var front, last := queries[..|queries| - 1], queries[|queries| - 1];
      NoMarkerLeaks(front);
      var mid := SyncAll(Layer(map[], {}, 0), front);
      if last.Some? {
        SyncLeavesExactlyTheSeen(mid, last.value, Pin(""));
      }
    }
  }

  lemma {:induction false} NothingToAdd(l: Layer, features: seq<Feature>)
    requires forall key | Drawable(features, key) :: key in l.markers
    ensures VisitAll(l, features).layer == l
  {
    if features != [] {
      var front, f := features[..|features| - 1], features[|features| - 1];
      forall key | Drawable(front, key) ensures key in l.markers {
        assert FirstWith(features, key) == FirstWith(front, key);
        assert Drawable(features, key);
      }
      NothingToAdd(l, front);
      var p := VisitAll(l, front);
      if Usable(f) && KeyOf(f) !in p.seen && ElementOf(f).Some? {
        VisitAllIs(l, front, KeyOf(f));
        assert FirstWith(features, KeyOf(f)) == Some(f);
        assert Drawable(features, KeyOf(f));
      }
    }
  }

  /** The same features again change nothing. */
  lemma SyncIsIdempotent(l: Layer, features: seq<Feature>)
    requires Tracked(l)
    ensures Sync(Sync(l, Some(features)), Some(features)) == Sync(l, Some(features))
  {
    var l' := Sync(l, Some(features));
    forall key ensures Drawable(features, key) ==> key in l'.markers
               ensures key in l'.markers ==> FirstWith(features, key).Some? {
      SyncLeavesExactlyTheSeen(l, features, key);
    }
    NothingToAdd(l', features);
    var p := VisitAll(l', features);
    forall key ensures key in p.seen <==> FirstWith(features, key).Some? {
      VisitAllIs(l', features, key);
    }
    assert Sweep(l', p.seen).markers == l'.markers;
    assert Sweep(l', p.seen).onMap == l'.onMap;
  }

  // ---- In terms of the features' own properties ------------------------------------------------------------------

  predicate HasText(f: Feature, property: string, text: string) {
    f.properties.Some? && property in f.properties.value && f.properties.value[property] == Text(text)
  }

  predicate HasNumber(f: Feature, property: string, number: real) {
    f.properties.Some? && property in f.properties.value && f.properties.value[property] == Number(number)
  }

  predicate HasNoText(f: Feature, property: string) {
    f.properties.None? || property !in f.properties.value || !f.properties.value[property].Text?
  }

  predicate HasNoNumber(f: Feature, property: string) {
    f.properties.None? || property !in f.properties.value || !f.properties.value[property].Number?
  }

  /** A point whose two coordinates are of number type, finite or not. */
  predicate Placed(f: Feature) {
    f.isPoint && !f.lng.Text? && !f.lng.Other? && !f.lat.Text? && !f.lat.Other?
  }

  /** A listing's pin; a feature that says neither what cluster nor what listing it is has the empty id. */
  predicate PinOf(f: Feature, id: string) {
    Placed(f) && HasNoNumber(f, "cluster_id") && (HasText(f, "id", id) || (HasNoText(f, "id") && id == ""))
  }

  predicate ClusterOf(f: Feature, number: real) {
    Placed(f) && HasNumber(f, "cluster_id", number)
  }

  predicate Names(f: Feature, key: Key) {
    match key
    case Pin(id) => PinOf(f, id)
    case Cluster(number) => ClusterOf(f, number)
  }

  lemma NamesItsKey(f: Feature, key: Key)
    ensures Usable(f) && KeyOf(f) == key <==> Names(f, key)
  {
  }

  /** Feature i is the first to name the key. */
  ghost predicate FirstNames(features: seq<Feature>, i: nat, key: Key) {
    && i < |features| && Names(features[i], key)
    && forall j | 0 <= j < i :: !Names(features[j], key)
  }

  lemma {:induction false} FirstWithNames(features: seq<Feature>, key: Key)
    ensures match FirstWith(features, key)
            case None => forall j | 0 <= j < |features| :: !Names(features[j], key)
            case Some(f) => exists i: nat :: FirstNames(features, i, key) && features[i] == f
  {
    if features != [] {
      var n := |features| - 1;
      var front := features[..n];
      FirstWithNames(front, key);
      NamesItsKey(features[n], key);
      if FirstWith(front, key).Some? {
        var i: nat :| FirstNames(front, i, key) && front[i] == FirstWith(front, key).value;
        assert forall j | 0 <= j < i :: front[j] == features[j];
        assert FirstNames(features, i, key);
      } else {
        assert forall j | 0 <= j < n :: front[j] == features[j];
        assert FirstWith(features, key).Some? ==> FirstNames(features, n, key);
      }
    }
  }

  lemma FirstNamesIsUnique(features: seq<Feature>, i: nat, j: nat, key: Key)
    requires FirstNames(features, i, key) && FirstNames(features, j, key)
    ensures i == j
  {
  }

  lemma FirstIsFirstWith(features: seq<Feature>, i: nat, key: Key)
    requires FirstNames(features, i, key)
    ensures FirstWith(features, key) == Some(features[i])
  {
    FirstWithNames(features, key);
    if FirstWith(features, key).Some? {
      var j: nat :| FirstNames(features, j, key) && features[j] == FirstWith(features, key).value;
      FirstNamesIsUnique(features, i, j, key);
    }
  }

  /** What is drawn where a feature is: its own name and link. */
  predicate ShowsPin(marker: Marker, f: Feature) {
    && marker.element.PinElement? && HasText(f, "name", marker.element.name) && HasText(f, "href", marker.element.href)
    && marker.lng == f.lng && marker.lat == f.lat
  }

  /** Or its own number of points, none if it gives no number, and the cluster a click expands. */
  predicate ShowsCluster(marker: Marker, f: Feature, number: real) {
    && marker.element.ClusterElement? && marker.element.expands == number
    && (HasNumber(f, "point_count", marker.element.count)
        || (HasNoNumber(f, "point_count") && marker.element.count == 0.0))
    && marker.lng == f.lng && marker.lat == f.lat
  }

  /**
   A listing's pin after a sync: the first feature with its id decides. It is there if it was before or that
   feature has a name and a link; a new one shows that name and link at that place, an old one is as it was.
   */
  lemma PinAfterSync(l: Layer, features: seq<Feature>, i: nat, id: string)
    requires Tracked(l) && FirstNames(features, i, Pin(id))
    ensures var l', f := Sync(l, Some(features)), features[i];
            && (Pin(id) in l'.markers <==>
                  Pin(id) in l.markers || (!HasNoText(f, "name") && !HasNoText(f, "href")))
            && (Pin(id) in l.markers ==> l'.markers[Pin(id)] == l.markers[Pin(id)])
            && (Pin(id) in l'.markers && Pin(id) !in l.markers ==> ShowsPin(l'.markers[Pin(id)], f))
  {
    SyncLeavesExactlyTheSeen(l, features, Pin(id));
    FirstIsFirstWith(features, i, Pin(id));
  }

  /** A cluster always has its bubble, with the points its first feature gives. */
  lemma ClusterAfterSync(l: Layer, features: seq<Feature>, i: nat, number: real)
    requires Tracked(l) && FirstNames(features, i, Cluster(number))
    ensures var l' := Sync(l, Some(features));
            && Cluster(number) in l'.markers
            && (if Cluster(number) in l.markers then l'.markers[Cluster(number)] == l.markers[Cluster(number)]
                else ShowsCluster(l'.markers[Cluster(number)], features[i], number))
  {
    SyncLeavesExactlyTheSeen(l, features, Cluster(number));
    FirstIsFirstWith(features, i, Cluster(number));
  }

  /** What no feature names is gone. */
  lemma GoneAfterSync(l: Layer, features: seq<Feature>, key: Key)
    requires Tracked(l) && forall j | 0 <= j < |features| :: !Names(features[j], key)
    ensures key !in Sync(l, Some(features)).markers
  {
    SyncLeavesExactlyTheSeen(l, features, key);
    FirstWithNames(features, key);
  }

  /** Two listings have two markers, both on the map. */
  lemma TwoPinsTwoMarkers(l: Layer, features: seq<Feature>, a: string, b: string)
    requires Tracked(l) && a != b
    requires Pin(a) in Sync(l, Some(features)).markers && Pin(b) in Sync(l, Some(features)).markers
    ensures var l' := Sync(l, Some(features));
            && l'.markers[Pin(a)] != l'.markers[Pin(b)]
            && l'.markers[Pin(a)] in l'.onMap && l'.markers[Pin(b)] in l'.onMap
  {
    SyncLeavesExactlyTheSeen(l, features, Pin(a));
    var l' := Sync(l, Some(features));
    assert l'.markers[Pin(a)] in l'.markers.Values && l'.markers[Pin(b)] in l'.markers.Values;
  }
}
