/** The stats beacon's one loop: visible markers, without repeats, up to a cap. */
module Beacon {

  /** A marked node; `visible` is false when its parent reports no client rectangles. */
  datatype Node = Node(metric: string, listing: string, visible: bool)
  datatype Event = Event(listing: string, metric: string)

  const MAX_EVENTS := 100

  predicate Counts(n: Node) {
    n.metric != "" && n.listing != "" && n.visible
  }

  function EventOf(n: Node): Event {
    Event(n.listing, n.metric)
  }

  function KeyOf(n: Node): string {
    n.metric + "|" + n.listing
  }

  /** First occurrences in document order, nodes with the same joined key being the same. */
  function DistinctKeys(nodes: seq<Node>): seq<Event> {
    if nodes == [] then []
    else
      var front, last := nodes[..|nodes| - 1], nodes[|nodes| - 1];
      DistinctKeys(front) + if Counts(last) && !KeyCounted(front, KeyOf(last)) then [EventOf(last)] else []
  }

  predicate KeyCounted(nodes: seq<Node>, key: string) {
    exists i :: 0 <= i < |nodes| && Counts(nodes[i]) && KeyOf(nodes[i]) == key
  }

  /** First occurrences in document order, as they are meant: one per metric and listing. */
  function DistinctEvents(nodes: seq<Node>): seq<Event> {
    if nodes == [] then []
    else
      var front, last := nodes[..|nodes| - 1], nodes[|nodes| - 1];
      DistinctEvents(front) + if Counts(last) && !EventCounted(front, EventOf(last)) then [EventOf(last)] else []
  }

  predicate EventCounted(nodes: seq<Node>, e: Event) {
    exists i :: 0 <= i < |nodes| && Counts(nodes[i]) && EventOf(nodes[i]) == e
  }

  function Capped(events: seq<Event>): seq<Event> {
    if |events| <= MAX_EVENTS then events else events[..MAX_EVENTS]
  }

  lemma {:induction false} DistinctKeysGrow(nodes: seq<Node>, i: nat)
    requires i <= |nodes|
    ensures DistinctKeys(nodes[..i]) <= DistinctKeys(nodes)
  {
    if i < |nodes| {
      assert nodes[..|nodes| - 1][..i] == nodes[..i];
      DistinctKeysGrow(nodes[..|nodes| - 1], i);
    } else {
      assert nodes[..i] == nodes;
    }
  }

  /** Stopping at the cap loses nothing that would have been sent. */
  method Send(nodes: seq<Node>) returns (events: seq<Event>)
    ensures events == Capped(DistinctKeys(nodes))
  {
    events := [];
    var seen: set<string> := {};
    var i := 0;
    while i < |nodes| && |events| < MAX_EVENTS
      invariant 0 <= i <= |nodes| && |events| <= MAX_EVENTS
      invariant events == DistinctKeys(nodes[..i])
      invariant forall key :: key in seen <==> KeyCounted(nodes[..i], key)
    {
      var n := nodes[i];
      assert nodes[..i + 1][..i] == nodes[..i];
      OneMoreCounted(nodes, i);
      i := i + 1;
      if !Counts(n) || KeyOf(n) in seen {
        continue;
      }
      seen := seen + {KeyOf(n)};
      events := events + [EventOf(n)];
    }
    DistinctKeysGrow(nodes, i);
    assert i == |nodes| ==> nodes[..i] == nodes;
  }

  lemma OneMoreCounted(nodes: seq<Node>, i: nat)
    requires i < |nodes|
    ensures forall key :: KeyCounted(nodes[..i + 1], key) <==>
                            KeyCounted(nodes[..i], key) || (Counts(nodes[i]) && KeyOf(nodes[i]) == key)
  {
    forall key ensures KeyCounted(nodes[..i + 1], key) <==>
                         KeyCounted(nodes[..i], key) || (Counts(nodes[i]) && KeyOf(nodes[i]) == key) {
      if KeyCounted(nodes[..i], key) {
        var k :| 0 <= k < i && Counts(nodes[..i][k]) && KeyOf(nodes[..i][k]) == key;
        assert nodes[..i + 1][k] == nodes[..i][k];
      }
      if KeyCounted(nodes[..i + 1], key) {
        var k :| 0 <= k < i + 1 && Counts(nodes[..i + 1][k]) && KeyOf(nodes[..i + 1][k]) == key;
        assert k < i ==> nodes[..i][k] == nodes[..i + 1][k];
      }
      assert nodes[..i + 1][i] == nodes[i];
    }
  }

  // ---- What is sent --------------------------------------------------------------------------------------------

  /** A marker a visitor can see, with a metric and a listing. */
  ghost predicate VisibleMarker(nodes: seq<Node>, e: Event) {
    e.metric != "" && e.listing != "" && Node(e.metric, e.listing, true) in nodes
  }

  lemma {:induction false} DistinctEventsAreVisible(nodes: seq<Node>, e: Event)
    ensures e in DistinctEvents(nodes) <==> VisibleMarker(nodes, e)
  {
    if nodes != [] {
      var front, last := nodes[..|nodes| - 1], nodes[|nodes| - 1];
      DistinctEventsAreVisible(front, e);
      assert nodes == front + [last];
      assert EventCounted(front, e) ==> VisibleMarker(front, e);
    }
  }

  lemma {:induction false} DistinctKeysAreVisible(nodes: seq<Node>, e: Event)
    requires e in DistinctKeys(nodes)
    ensures VisibleMarker(nodes, e)
  {
    var front, last := nodes[..|nodes| - 1], nodes[|nodes| - 1];
    assert nodes == front + [last];
    if e in DistinctKeys(front) {
      DistinctKeysAreVisible(front, e);
    }
  }

  /** At most a hundred events go out, each of a marker that is visible and names a metric and a listing. */
  lemma SentAreVisibleMarkers(nodes: seq<Node>, e: Event)
    ensures |Capped(DistinctKeys(nodes))| <= 100
    ensures |Capped(DistinctKeys(nodes))| == 100 || Capped(DistinctKeys(nodes)) == DistinctKeys(nodes)
    ensures e in Capped(DistinctKeys(nodes)) ==> VisibleMarker(nodes, e)
  {
    if e in Capped(DistinctKeys(nodes)) {
      assert e in DistinctKeys(nodes);
      DistinctKeysAreVisible(nodes, e);
    }
  }

  // ---- When the joined key tells events apart ------------------------------------------------------------------

  /** Two nodes that count, for different metrics or listings, under one key. */
  predicate Clash(nodes: seq<Node>, i: int, j: int) {
    && 0 <= i < j < |nodes| && Counts(nodes[i]) && Counts(nodes[j])
    && KeyOf(nodes[i]) == KeyOf(nodes[j]) && EventOf(nodes[i]) != EventOf(nodes[j])
  }

  ghost predicate Clashes(nodes: seq<Node>) {
    exists i, j :: Clash(nodes, i, j)
  }

  lemma ClashesGrow(nodes: seq<Node>)
    requires nodes != [] && Clashes(nodes[..|nodes| - 1])
    ensures Clashes(nodes)
  {
    var i, j :| Clash(nodes[..|nodes| - 1], i, j);
    assert Clash(nodes, i, j);
  }

  lemma {:induction false} WithoutClashesTheyAgree(nodes: seq<Node>)
    requires !Clashes(nodes)
    ensures DistinctKeys(nodes) == DistinctEvents(nodes)
  {
    if nodes != [] {
      var n := |nodes| - 1;
      var front, last := nodes[..n], nodes[n];
      if Clashes(front) {
        ClashesGrow(nodes);
      }
      WithoutClashesTheyAgree(front);
      if KeyCounted(front, KeyOf(last)) && Counts(last) {
        var i :| 0 <= i < n && Counts(front[i]) && KeyOf(front[i]) == KeyOf(last);
        assert !Clash(nodes, i, n);
        assert EventOf(front[i]) == EventOf(last);
      }
      if EventCounted(front, EventOf(last)) {
        var i :| 0 <= i < n && Counts(front[i]) && EventOf(front[i]) == EventOf(last);
        assert KeyOf(front[i]) == KeyOf(last);
      }
    }
  }

  lemma {:induction false} DistinctEventsIsNoShorter(nodes: seq<Node>)
    ensures |DistinctKeys(nodes)| <= |DistinctEvents(nodes)|
    ensures Clashes(nodes) ==> |DistinctKeys(nodes)| < |DistinctEvents(nodes)|
  {
    if nodes != [] {
      var n := |nodes| - 1;
      var front, last := nodes[..n], nodes[n];
      DistinctEventsIsNoShorter(front);
      if EventCounted(front, EventOf(last)) {
        var i :| 0 <= i < n && Counts(front[i]) && EventOf(front[i]) == EventOf(last);
        assert KeyOf(front[i]) == KeyOf(last);
      }
      if Clashes(nodes) && !Clashes(front) {
        NewClashIsDropped(nodes);
      }
    }
  }

  lemma NewClashIsDropped(nodes: seq<Node>)
    requires nodes != [] && Clashes(nodes) && !Clashes(nodes[..|nodes| - 1])
    ensures var front, last := nodes[..|nodes| - 1], nodes[|nodes| - 1];
            Counts(last) && KeyCounted(front, KeyOf(last)) && !EventCounted(front, EventOf(last))
  {
    var n := |nodes| - 1;
    var front, last := nodes[..n], nodes[n];
    var i, j :| Clash(nodes, i, j);
    assert j < n ==> Clash(front, i, j);
    assert front[i] == nodes[i];
    if EventCounted(front, EventOf(last)) {
      var k :| 0 <= k < n && Counts(front[k]) && EventOf(front[k]) == EventOf(last);
      assert KeyOf(front[k]) == KeyOf(last);
      assert Clash(front, if i < k then i else k, if i < k then k else i);
    }
  }

  /**
   The joined key removes exactly the repeats of (metric, listing) if and only if no two different pairs join
   alike.
   */
  lemma KeysAgreeIff(nodes: seq<Node>)
    ensures DistinctKeys(nodes) == DistinctEvents(nodes) <==> !Clashes(nodes)
  {
    if !Clashes(nodes) {
      WithoutClashesTheyAgree(nodes);
    }
    DistinctEventsIsNoShorter(nodes);
  }

  // ---- What is sent ----------------------------------------------------------------------------------

  /** The shortest prefix that holds MAX_EVENTS distinct events, or all there is. */
  function FillPoint(nodes: seq<Node>): (k: nat)
    ensures k <= |nodes|
  {
    if nodes == [] then 0
    else
      var front := nodes[..|nodes| - 1];
      if |DistinctEvents(front)| >= MAX_EVENTS then FillPoint(front) else |nodes|
  }

  lemma {:induction false} DistinctEventsGrow(nodes: seq<Node>, i: nat)
    requires i <= |nodes|
    ensures DistinctEvents(nodes[..i]) <= DistinctEvents(nodes)
  {
    if i < |nodes| {
      assert nodes[..|nodes| - 1][..i] == nodes[..i];
      DistinctEventsGrow(nodes[..|nodes| - 1], i);
    } else {
      assert nodes[..i] == nodes;
    }
  }

  /** The prefix holds just what is meant to be sent. */
  lemma {:induction false} FillPointFills(nodes: seq<Node>)
    ensures var k := FillPoint(nodes);
            && DistinctEvents(nodes[..k]) == Capped(DistinctEvents(nodes))
            && (k < |nodes| ==> |DistinctEvents(nodes[..k])| == MAX_EVENTS)
  {
    var k := FillPoint(nodes);
    if nodes != [] {
      var front := nodes[..|nodes| - 1];
      if |DistinctEvents(front)| >= MAX_EVENTS {
        FillPointFills(front);
        assert nodes[..k] == front[..k];
        DistinctEventsGrow(nodes, |nodes| - 1);
        CappedPrefix(DistinctEvents(front), DistinctEvents(nodes));
        assert k == |front| ==> front[..k] == front;
      } else {
        assert nodes[..k] == nodes;
      }
    }
  }

  lemma CappedPrefix(a: seq<Event>, b: seq<Event>)
    requires a <= b && |a| >= MAX_EVENTS
    ensures Capped(a) == Capped(b) && |Capped(a)| == MAX_EVENTS
  {
  }

  function EventKey(e: Event): string {
    e.metric + "|" + e.listing
  }

  lemma {:induction false} DistinctKeyIsCounted(nodes: seq<Node>, e: Event)
    requires e in DistinctKeys(nodes)
    ensures KeyCounted(nodes, EventKey(e))
  {
    var front, last := nodes[..|nodes| - 1], nodes[|nodes| - 1];
    if e in DistinctKeys(front) {
      DistinctKeyIsCounted(front, e);
      var i :| 0 <= i < |front| && Counts(front[i]) && KeyOf(front[i]) == EventKey(e);
      assert nodes[i] == front[i];
    } else {
      assert nodes[|nodes| - 1] == last;
    }
  }

  /** No two events of the loop share a key. */
  lemma {:induction false} DistinctKeysDiffer(nodes: seq<Node>, a: Event, b: Event)
    requires a in DistinctKeys(nodes) && b in DistinctKeys(nodes) && EventKey(a) == EventKey(b)
    ensures a == b
  {
    var front := nodes[..|nodes| - 1];
    if a in DistinctKeys(front) {
      DistinctKeyIsCounted(front, a);
    }
    if b in DistinctKeys(front) {
      DistinctKeyIsCounted(front, b);
    }
    if a in DistinctKeys(front) && b in DistinctKeys(front) {
      DistinctKeysDiffer(front, a, b);
    }
  }

  lemma {:induction false} CountedEventIsThere(nodes: seq<Node>, e: Event)
    requires EventCounted(nodes, e)
    ensures e in DistinctEvents(nodes)
  {
    var n := |nodes| - 1;
    var front := nodes[..n];
    var i :| 0 <= i < |nodes| && Counts(nodes[i]) && EventOf(nodes[i]) == e;
    if i < n {
      assert front[i] == nodes[i];
    }
    if EventCounted(front, e) {
      CountedEventIsThere(front, e);
    }
  }

  /** Two nodes that clash are two events, and the loop can keep only one of them. */
  lemma ClashLosesOne(nodes: seq<Node>, i: int, j: int, sent: seq<Event>, all: seq<Node>)
    requires Clash(nodes, i, j) && forall e | e in sent :: e in DistinctKeys(all)
    ensures EventOf(nodes[i]) in DistinctEvents(nodes) && EventOf(nodes[j]) in DistinctEvents(nodes)
    ensures EventOf(nodes[i]) !in sent || EventOf(nodes[j]) !in sent
  {
    CountedEventIsThere(nodes, EventOf(nodes[i]));
    CountedEventIsThere(nodes, EventOf(nodes[j]));
    if EventOf(nodes[i]) in sent && EventOf(nodes[j]) in sent {
      DistinctKeysDiffer(all, EventOf(nodes[i]), EventOf(nodes[j]));
    }
  }

  lemma NoClashUpTo(nodes: seq<Node>, k: nat)
    requires k <= |nodes| && !Clashes(nodes[..k])
    requires k < |nodes| ==> |DistinctEvents(nodes[..k])| == MAX_EVENTS
    requires DistinctEvents(nodes[..k]) == Capped(DistinctEvents(nodes))
    ensures Capped(DistinctKeys(nodes)) == Capped(DistinctEvents(nodes))
  {
    WithoutClashesTheyAgree(nodes[..k]);
    DistinctKeysGrow(nodes, k);
    if k < |nodes| {
      CappedPrefix(DistinctKeys(nodes[..k]), DistinctKeys(nodes));
    } else {
      assert nodes[..k] == nodes;
    }
  }

  /**
   What the beacon sends is the first MAX_EVENTS distinct visible markers in document order if and only if no two
   different pairs join alike within the shortest prefix that holds so many.
   */
  lemma SendsTheFirstDistinctEventsIff(nodes: seq<Node>)
    ensures Capped(DistinctKeys(nodes)) == Capped(DistinctEvents(nodes)) <==> !Clashes(nodes[..FillPoint(nodes)])
  {
    var k, sent := FillPoint(nodes), Capped(DistinctKeys(nodes));
    FillPointFills(nodes);
    if Clashes(nodes[..k]) {
      var i, j :| Clash(nodes[..k], i, j);
      assert forall e | e in sent :: e in DistinctKeys(nodes);
      ClashLosesOne(nodes[..k], i, j, sent, nodes);
    } else {
      NoClashUpTo(nodes, k);
    }
  }

  lemma JoinTellsApart(a: Node, b: Node)
    requires '|' !in a.metric && '|' !in b.metric && KeyOf(a) == KeyOf(b)
    ensures EventOf(a) == EventOf(b)
  {
    var key := KeyOf(a);
    assert key[|a.metric|] == '|' && key[|b.metric|] == '|';
    assert forall k | 0 <= k < |a.metric| :: key[k] == a.metric[k] && key[k] in a.metric;
    assert forall k | 0 <= k < |b.metric| :: key[k] == b.metric[k] && key[k] in b.metric;
    assert a.metric == key[..|a.metric|] && b.metric == key[..|b.metric|];
    assert a.listing == key[|a.metric| + 1..] && b.listing == key[|b.metric| + 1..];
  }

  /** No clash as long as no metric contains the separator, whatever the listing ids hold. */
  lemma NoBarNoClash(nodes: seq<Node>)
    requires forall i | 0 <= i < |nodes| :: '|' !in nodes[i].metric
    ensures !Clashes(nodes)
  {
    forall i, j ensures !Clash(nodes, i, j) {
      if 0 <= i < j < |nodes| && KeyOf(nodes[i]) == KeyOf(nodes[j]) {
        JoinTellsApart(nodes[i], nodes[j]);
      }
    }
  }

  /** So it always is when no metric contains the separator. */
  lemma SendsTheFirstDistinctEvents(nodes: seq<Node>)
    requires forall i | 0 <= i < |nodes| :: '|' !in nodes[i].metric
    ensures Capped(DistinctKeys(nodes)) == Capped(DistinctEvents(nodes))
  {
    NoBarNoClash(nodes[..FillPoint(nodes)]);
    SendsTheFirstDistinctEventsIff(nodes);
  }

  function TwoMarkers(): seq<Node> {
    [Node("view", "x|y", true), Node("view|x", "y", true)]
  }

  /** Two markers to be sent; the second is not. */
  lemma ABarInAMetricLosesAnEvent()
    ensures Capped(DistinctKeys(TwoMarkers())) == [Event("x|y", "view")]
    ensures Capped(DistinctEvents(TwoMarkers())) == [Event("x|y", "view"), Event("y", "view|x")]
  {
    var nodes, first := TwoMarkers(), [TwoMarkers()[0]];
    assert nodes[..1] == first && first[..0] == [];
    assert KeyOf(nodes[0]) == KeyOf(nodes[1]) == "view|x|y";
    assert KeyCounted(first, "view|x|y") by { assert KeyOf(first[0]) == "view|x|y"; }
    assert EventOf(nodes[0]) != EventOf(nodes[1]);
  }
}
