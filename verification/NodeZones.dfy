/** The index from zones to node names, kept up to date by informer events. */
module NodeZones {
  import opened Options

  datatype Node = Node(name: string, labels: map<string, string>)

  const TOPOLOGY_ZONE := "topology.kubernetes.io/zone"
  const BETA_ZONE := "failure-domain.beta.kubernetes.io/zone"
  const EMPTY_ZONE := ""

  function GetZone(node: Node): string {
    if TOPOLOGY_ZONE in node.labels then node.labels[TOPOLOGY_ZONE]
    else if BETA_ZONE in node.labels then node.labels[BETA_ZONE]
    else EMPTY_ZONE
  }

  type Zones = map<string, set<string>>

  /** A missing entry and a nil entry both stand for no nodes. */
  function Entry(zones: Zones, z: string): set<string> {
    if z in zones then zones[z] else {}
  }

  function Without(zones: Zones, node: Node): Zones {
    var z := GetZone(node);
    if z == EMPTY_ZONE then zones else zones[z := Entry(zones, z) - {node.name}]
  }

  function With(zones: Zones, node: Node): Zones {
    var z := GetZone(node);
    if z == EMPTY_ZONE then zones else zones[z := Entry(zones, z) + {node.name}]
  }

  function Updated(zones: Zones, prev: Option<Node>, next: Option<Node>): Zones {
    var dropped := if prev.Some? then Without(zones, prev.value) else zones;
    if next.Some? then With(dropped, next.value) else dropped
  }

  datatype Event = Add(node: Node) | Update(prev: Node, next: Node) | Delete(last: Node)

  class ZoneIndex {
    var nodeZones: Zones

    constructor ()
      ensures nodeZones == map[]
    {
      nodeZones := map[];
    }

    method UpdateNodeZones(prev: Option<Node>, next: Option<Node>)
      modifies this
      ensures nodeZones == Updated(old(nodeZones), prev, next)
    {
      if prev.Some? {
        var z := GetZone(prev.value);
        if z != EMPTY_ZONE {
          // Deleting from a nil set does nothing; an emptied set becomes nil.
          var left := Entry(nodeZones, z) - {prev.value.name};
          nodeZones := nodeZones[z := left];
        }
      }
      if next.Some? {
        var z := GetZone(next.value);
        if z != EMPTY_ZONE {
          if Entry(nodeZones, z) == {} {
            nodeZones := nodeZones[z := {}];
          }
          nodeZones := nodeZones[z := nodeZones[z] + {next.value.name}];
        }
      }
    }

    /** The informer's handlers; updates within one zone are skipped. */
    method Handle(e: Event)
      modifies this
      ensures nodeZones == Handled(old(nodeZones), e)
    {
      match e {
        case Add(node) => UpdateNodeZones(None, Some(node));
        case Update(prev, next) =>
          if GetZone(next) == GetZone(prev) { return; }
          UpdateNodeZones(Some(prev), Some(next));
        case Delete(last) => UpdateNodeZones(Some(last), None);
      }
    }

    /** `GetAllCurrentZones` once the informer has synced. */
    method GetAllCurrentZones() returns (zones: set<string>)
      ensures zones == set z | z in nodeZones && nodeZones[z] != {}
    {
      zones := {};
      var left := nodeZones.Keys;
      while left != {}
        invariant left <= nodeZones.Keys
        invariant zones == set z | z in nodeZones && z !in left && nodeZones[z] != {}
        decreases left
      {
        var z :| z in left;
        if |nodeZones[z]| > 0 {
          zones := zones + {z};
        }
        left := left - {z};
      }
    }

    /** A whole run of events ends in an index that is exact. */
    method HandleAll(events: seq<Event>) returns (zones: set<string>)
      requires nodeZones == map[] && WellFormed(map[], events)
      modifies this
      ensures Exact(nodeZones, LiveAfter(map[], events))
      ensures forall z :: z in zones <==> z != EMPTY_ZONE && Index(LiveAfter(map[], events), z) != {}
      ensures forall n :: n in LiveAfter(map[], events) ==>
                var labels := LiveAfter(map[], events)[n].labels;
                && (TOPOLOGY_ZONE in labels && labels[TOPOLOGY_ZONE] != "" ==>
                      n in Entry(nodeZones, labels[TOPOLOGY_ZONE]) && labels[TOPOLOGY_ZONE] in zones)
                && (TOPOLOGY_ZONE !in labels && BETA_ZONE in labels && labels[BETA_ZONE] != "" ==>
                      n in Entry(nodeZones, labels[BETA_ZONE]) && labels[BETA_ZONE] in zones)
    {
      for i := 0 to |events|
        invariant nodeZones == HandledAll(map[], events[..i])
      {
        assert events[..i + 1][..i] == events[..i];
        Handle(events[i]);
      }
      assert events[..|events|] == events;
      StaysExact(map[], map[], events);
      zones := GetAllCurrentZones();
      var live := LiveAfter(map[], events);
      forall z
        ensures z in zones <==> z != EMPTY_ZONE && Index(live, z) != {}
      {
        assert Entry(nodeZones, z) == if z == EMPTY_ZONE then {} else Index(live, z);
      }
    }
  }

  function Handled(zones: Zones, e: Event): Zones {
    match e
    case Add(node) => Updated(zones, None, Some(node))
    case Update(prev, next) => if GetZone(next) == GetZone(prev) then zones else Updated(zones, Some(prev), Some(next))
    case Delete(last) => Updated(zones, Some(last), None)
  }

  function HandledAll(zones: Zones, events: seq<Event>): Zones {
    if events == [] then zones else Handled(HandledAll(zones, events[..|events| - 1]), events[|events| - 1])
  }

  // ---- what the events say about the cluster ----

  type Live = map<string, Node>

  /** An event that tells the truth: a new name, or the node as it last was. */
  ghost predicate Truthful(live: Live, e: Event) {
    match e
    case Add(node) => node.name !in live
    case Update(prev, next) => prev.name in live && live[prev.name] == prev && next.name == prev.name
    case Delete(last) => last.name in live && live[last.name] == last
  }

  function After(live: Live, e: Event): Live {
    match e
    case Add(node) => live[node.name := node]
    case Update(prev, next) => live[next.name := next]
    case Delete(last) => live - {last.name}
  }

  function LiveAfter(live: Live, events: seq<Event>): Live {
    if events == [] then live else After(LiveAfter(live, events[..|events| - 1]), events[|events| - 1])
  }

  ghost predicate WellFormed(live: Live, events: seq<Event>) {
    events == [] ||
    (WellFormed(live, events[..|events| - 1]) &&
      Truthful(LiveAfter(live, events[..|events| - 1]), events[|events| - 1]))
  }

  /** Live nodes sit under their own name. */
  ghost predicate Keyed(live: Live) {
    forall n :: n in live ==> live[n].name == n
  }

  ghost function Index(live: Live, z: string): set<string> {
    set n | n in live && GetZone(live[n]) == z
  }

  /** Each zone's entry is exactly the names of the live nodes labelled with it. */
  ghost predicate Exact(zones: Zones, live: Live) {
    forall z :: Entry(zones, z) == if z == EMPTY_ZONE then {} else Index(live, z)
  }

  lemma IndexPut(live: Live, node: Node, z: string)
    ensures Index(live[node.name := node], z) ==
            (Index(live, z) - {node.name}) + (if GetZone(node) == z then {node.name} else {})
    ensures Index(live - {node.name}, z) == Index(live, z) - {node.name}
  {
    hide GetZone;
  }

  lemma EventKeepsExact(zones: Zones, live: Live, e: Event)
    requires Exact(zones, live) && Keyed(live) && Truthful(live, e)
    ensures Exact(Handled(zones, e), After(live, e)) && Keyed(After(live, e))
  {
    forall z
      ensures Entry(Handled(zones, e), z) == if z == EMPTY_ZONE then {} else Index(After(live, e), z)
    {
      EntryExact(zones, live, e, z);
    }
  }

  lemma EntryExact(zones: Zones, live: Live, e: Event, z: string)
    requires Exact(zones, live) && Truthful(live, e)
    ensures Entry(Handled(zones, e), z) == if z == EMPTY_ZONE then {} else Index(After(live, e), z)
  {
    hide GetZone, Index;
    assert Entry(zones, z) == if z == EMPTY_ZONE then {} else Index(live, z);
    match e {
      case Add(node) => IndexPut(live, node, z); NotIndexed(live, node.name, z);
      case Update(prev, next) => IndexPut(live, next, z); IndexedOnce(live, prev.name, z);
      case Delete(last) => IndexPut(live, last, z); IndexedOnce(live, last.name, z);
    }
  }

  lemma NotIndexed(live: Live, n: string, z: string)
    requires n !in live
    ensures n !in Index(live, z)
  {
  }

  lemma IndexedOnce(live: Live, n: string, z: string)
    requires n in live
    ensures n in Index(live, z) <==> GetZone(live[n]) == z
  {
  }

  /** After any well-formed sequence of events the index is exact. */
  lemma {:induction false} StaysExact(zones: Zones, live: Live, events: seq<Event>)
    requires Exact(zones, live) && Keyed(live) && WellFormed(live, events)
    ensures Exact(HandledAll(zones, events), LiveAfter(live, events)) && Keyed(LiveAfter(live, events))
  {
    if events != [] {
      var init := events[..|events| - 1];
      StaysExact(zones, live, init);
      EventKeepsExact(HandledAll(zones, init), LiveAfter(live, init), events[|events| - 1]);
    }
  }

  /**
   * A delete event may carry a stale node (a tombstone). The index stays exact exactly when the stale node
   * names the zone the live one was in, or the live one was in none.
   */
  lemma StaleDelete(zones: Zones, live: Live, stale: Node)
    requires Exact(zones, live) && Keyed(live) && stale.name in live
    ensures Exact(Handled(zones, Delete(stale)), After(live, Delete(stale)))
       <==> GetZone(stale) == GetZone(live[stale.name]) || GetZone(live[stale.name]) == EMPTY_ZONE
  {
    var zones', live' := Handled(zones, Delete(stale)), After(live, Delete(stale));
    var z0 := GetZone(live[stale.name]);
    assert Entry(zones, z0) == if z0 == EMPTY_ZONE then {} else Index(live, z0);
    assert stale.name in Index(live, z0) && stale.name !in Index(live', z0);
    if GetZone(stale) == z0 || z0 == EMPTY_ZONE {
      forall z
        ensures Entry(zones', z) == if z == EMPTY_ZONE then {} else Index(live', z)
      {
        assert Entry(zones, z) == if z == EMPTY_ZONE then {} else Index(live, z);
      }
    } else {
      assert stale.name in Entry(zones', z0);
    }
  }
}
