/**
 The guarantees of a rebuild on a deployed topology: the result is again certified, everything that
 survives is unchanged, and rebuilding what is deployed changes nothing.
 */
module Rebuilds {
  import opened Wrappers
  import opened Sequences
  import opened Ranges
  import opened Decimal
  import opened Fabric
  import opened Script
  import opened ScriptFacts
  import opened Build
  import opened BuildInvariant
  import opened Certification
  import opened RestoreFacts
  import opened RackNumbers

  /** A replayed base: the recovered assignment, ready to build on. */
  ghost predicate Replayed(r: Restored, s: Shape, h: Holds) {
    && Inv(r.st, []) && r.st.pins == h.held && r.st.basePorts == h.ports
    && r.st.records == []
    && SlotsReady(r.rackSlots, r.maxRack)
    && (forall pod, x: nat :: (pod, x) in r.rackSeen <==> HasNode(s, LeafAName(pod, x)))
    && (forall pod, x :: x in Slots(r.rackSlots, pod) <==> (pod, x) in r.rackSeen)
  }

  lemma RenderedIfCertified(t: Topo, s: Shape, h: Holds)
    requires Certified(t, s, h)
    ensures Rendered(t.nodes, h.held)
  {
    hide LinksCertified, DistinctPods, Exclusive, PortsExclusive, NodeOf;
    forall node | node in t.nodes
      ensures NodeOwners(node.name) <= h.held.Keys
    {
      assert node.name in NodeNames(t.nodes) by {
        var i :| 0 <= i < |t.nodes| && t.nodes[i] == node;
        assert NodeNames(t.nodes)[i] == node.name;
      }
      OwnersNeeded(s, node.name);
      forall o | o in NodeOwners(node.name) ensures o in h.held { assert Needs(s, o); }
    }
  }

  lemma OwnersNeeded(s: Shape, n: Name)
    requires HasNode(s, n)
    ensures forall o :: o in NodeOwners(n) ==> Needs(s, o)
  {
  }

  /** Leaves come in pairs. */
  lemma LeavesPaired(s: Shape, pod: string, rack: nat)
    ensures HasNode(s, LeafAName(pod, rack)) <==> HasNode(s, LeafBName(pod, rack))
  {
  }

  lemma RacksOfNames(t: Topo, s: Shape, h: Holds, pod: string, rack: nat)
    requires Certified(t, s, h)
    ensures (pod, rack) in RacksIn(NodeNames(t.nodes)) <==> HasNode(s, LeafAName(pod, rack))
  {
    hide LinksCertified, HoldsFit, DistinctPods, NodeOf;
    PinnedByAre(NodeNames(t.nodes), LeafAName(pod, rack), pod, rack);
    LeavesPaired(s, pod, rack);
  }

  lemma RackHasOnePod(s: Shape, pod: string, pod': string, rack: nat)
    requires DistinctPods(s) && HasNode(s, LeafAName(pod, rack)) && HasNode(s, LeafAName(pod', rack))
    ensures pod == pod'
  {
  }

  lemma LinksFit(t: Topo, s: Shape, h: Holds, st0: St)
    requires Certified(t, s, h)
    requires forall o :: o in st0.pins ==> !o.P2POf?
    ensures Distinct(LinkNames(t.links))
    ensures forall link :: link in t.links ==>
              && link == LinkOf(link.name, h.held, h.ports) && link.name in h.ports
              && (KindOf(link.name).Fabric? ==> P2POf(link.name) in h.held && P2POf(link.name) !in st0.pins)
  {
    hide NodesCertified, DistinctPods, Exclusive, PortsExclusive, LinkOf;
    forall link | link in t.links
      ensures HasLink(s, link.name)
    {
      var i :| 0 <= i < |t.links| && t.links[i] == link;
      assert LinkNames(t.links)[i] == link.name;
    }
  }

  lemma PinComplete(t: Topo, s: Shape, h: Holds, o: Owner)
    requires Certified(t, s, h) && o in h.held
    ensures o in PinnedBy(NodeNames(t.nodes)) || (o.P2POf? && o.ln in LinkNames(t.links) && KindOf(o.ln).Fabric?)
  {
    hide Exclusive, PortsExclusive, DistinctPods, NodeOf, LinkOf, PinnedBy, HasNode, HasLink;
    assert Needs(s, o);
    match o
    case AsnOf(n) => PinnedByAre(NodeNames(t.nodes), n, "", 0);
    case LoopbackOf(n) => PinnedByAre(NodeNames(t.nodes), n, "", 0);
    case VlanOf(pod, rack) => PinnedByAre(NodeNames(t.nodes), LeafAName(pod, rack), pod, rack);
    case P2POf(ln) =>
    case RackAsnOf(_, _) =>
  }

  /** Every pinned number of a certified topology is recovered, and nothing else. */
  lemma PinsComplete(t: Topo, s: Shape, h: Holds, st0: St, st: St)
    requires Certified(t, s, h)
    requires st0.pins.Keys == PinnedBy(NodeNames(t.nodes))
    requires LinksReplayed(st, st0, LinkNames(t.links), h)
    ensures st.pins == h.held && st.basePorts == h.ports
  {
    hide Books, Exclusive, PortsExclusive, DistinctPods, NodeOf, LinkOf, PinnedBy, HasNode, HasLink;
    forall o | o in h.held
      ensures o in st.pins
    {
      PinComplete(t, s, h, o);
    }
    forall ln ensures ln in st.basePorts <==> ln in h.ports {
      assert ln in LinkNames(t.links) <==> HasLink(s, ln);
    }
  }

  lemma NothingBuilt(st: St)
    requires Books(st.ranges, st.pins) && st.held == map[] && st.ports == map[] && st.nodes == [] && st.links == []
    requires PortsExclusive(st.basePorts) && PortsBelow(st.basePorts, st.ifIndex)
    ensures Inv(st, [])
  {
    assert st.pins + st.held == st.pins && st.basePorts + st.ports == st.basePorts;
  }

  lemma SlotsSorted(r: Restored, s: Shape)
    requires SlotsFit(r) && DistinctPods(s)
    requires forall pod, x: nat :: (pod, x) in r.rackSeen <==> HasNode(s, LeafAName(pod, x))
    ensures SlotsReady(SortedSlots(r.rackSlots), r.maxRack)
    ensures forall pod, x :: x in Slots(SortedSlots(r.rackSlots), pod) <==> (pod, x) in r.rackSeen
  {
    var slots := SortedSlots(r.rackSlots);
    forall pod
      ensures Slots(slots, pod) == SortInts(Slots(r.rackSlots, pod))
      ensures Ascending(Slots(slots, pod)) && forall x :: x in Slots(slots, pod) <==> (pod, x) in r.rackSeen
    {
      assert Distinct(Slots(r.rackSlots, pod));
      SortAscends(Slots(r.rackSlots, pod));
      forall x ensures x in Slots(r.rackSlots, pod) <==> (pod, x) in r.rackSeen {
      }
    }
    forall pod, pod', x | x in Slots(slots, pod) && x in Slots(slots, pod')
      ensures pod == pod'
    {
      assert (pod, x) in r.rackSeen && (pod', x) in r.rackSeen;
      RackHasOnePod(s, pod, pod', x);
    }
  }

  lemma SlotsReplayed(t: Topo, s: Shape, h: Holds, r: Restored)
    requires Certified(t, s, h) && SlotsFit(r) && r.rackSeen == RacksIn(NodeNames(t.nodes))
    ensures var slots := SortedSlots(r.rackSlots);
            && SlotsReady(slots, r.maxRack)
            && (forall pod, x: nat :: (pod, x) in r.rackSeen <==> HasNode(s, LeafAName(pod, x)))
            && (forall pod, x :: x in Slots(slots, pod) <==> (pod, x) in r.rackSeen)
  {
    hide SlotsFit, SlotsReady, Certified, HasNode, RacksIn;
    forall pod, x: nat ensures (pod, x) in r.rackSeen <==> HasNode(s, LeafAName(pod, x)) {
      RacksOfNames(t, s, h, pod, x);
    }
    FitParts(t, s, h);
    SlotsSorted(r, s);
  }

  /** Replaying a certified topology succeeds and recovers its assignment. */
  lemma ReplayCertified(t: Topo, s: Shape, h: Holds)
    requires Certified(t, s, h)
    ensures RestoreBase(t).Some? && Replayed(RestoreBase(t).value, s, h)
  {
    hide Certified, NodesReplayed, LinksReplayed, Rendered, SlotsFit, SlotsReady, Inv, Exclusive, PortsExclusive,
      HasNode, Distinct, SortedSlots, Slots, Books, Sub, PinnedBy, RacksIn, PortsBelow;
    FitParts(t, s, h);
    RenderedIfCertified(t, s, h);
    ReplayNodes(t.nodes, h.held);
    var r := RestoreNodes(Restored(Empty(), {}, map[], 0), t.nodes).value;
    ReplayedParts(r, NodeNames(t.nodes), h.held);
    LinksFit(t, s, h, r.st);
    ReplayLinks(r.st, t.links, h);
    var st := RestoreLinks(r.st, t.links).value;
    PinsComplete(t, s, h, r.st, st);
    PortsReplayed(t, s, h, r.st, st);
    NothingBuilt(st);
    SlotsReplayed(t, s, h, r);
  }

  lemma FitParts(t: Topo, s: Shape, h: Holds)
    requires Certified(t, s, h)
    ensures Exclusive(h.held) && PortsExclusive(h.ports) && DistinctPods(s)
  {
  }

  lemma ReplayedParts(r: Restored, ns: seq<Name>, held: map<Owner, nat>)
    requires NodesReplayed(r, ns, held)
    ensures Books(r.st.ranges, r.st.pins) && Sub(r.st.pins, held) && r.st.pins.Keys == PinnedBy(ns)
    ensures r.st == Empty().(ranges := r.st.ranges, pins := r.st.pins)
    ensures r.rackSeen == RacksIn(ns) && SlotsFit(r)
    ensures forall o :: o in r.st.pins ==> !o.P2POf?
  {
    PinnedByAre(ns, ExternalName(0), "", 0);
  }

  lemma PortsReplayed(t: Topo, s: Shape, h: Holds, st0: St, st: St)
    requires Certified(t, s, h) && LinksReplayed(st, st0, LinkNames(t.links), h) && st.basePorts == h.ports
    requires st0 == Empty().(ranges := st0.ranges, pins := st0.pins)
    ensures PortsBelow(st.basePorts, st.ifIndex) && Books(st.ranges, st.pins)
    ensures st.held == map[] && st.ports == map[] && st.nodes == [] && st.links == [] && st.records == []
  {
  }
}
