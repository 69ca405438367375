/**
 What it means for a topology to be one a build could have left: its devices and links are exactly those
 of a shape, and every number and interface on them comes from one consistent assignment. The order of
 the records does not matter; the store returns them sorted by name.
 */
module Certification {
  import opened Wrappers
  import opened Sequences
  import opened Ranges
  import opened Fabric
  import opened Script
  import opened ScriptFacts
  import opened Build
  import opened BuildInvariant

  datatype Holds = Holds(held: map<Owner, nat>, ports: map<LinkName, (nat, nat)>)

  function NodeNames(nodes: seq<Node>): seq<Name> {
    seq(|nodes|, i requires 0 <= i < |nodes| => nodes[i].name)
  }

  function LinkNames(links: seq<Link>): seq<LinkName> {
    seq(|links|, i requires 0 <= i < |links| => links[i].name)
  }

  predicate Needs(s: Shape, o: Owner) {
    match o
    case AsnOf(n) => IsRouter(n) && HasNode(s, n)
    case LoopbackOf(n) => !n.ServerName? && HasNode(s, n)
    case P2POf(ln) => KindOf(ln).Fabric? && HasLink(s, ln)
    case VlanOf(pod, rack) => HasNode(s, LeafAName(pod, rack))
    case RackAsnOf(_, _) => false
  }

  ghost predicate NodesCertified(nodes: seq<Node>, s: Shape, held: map<Owner, nat>) {
    && Distinct(NodeNames(nodes))
    && (forall n :: n in NodeNames(nodes) <==> HasNode(s, n))
    && (forall node :: node in nodes ==> node == NodeOf(node.name, held))
  }

  ghost predicate LinksCertified(links: seq<Link>, s: Shape, h: Holds) {
    && Distinct(LinkNames(links))
    && (forall ln :: ln in LinkNames(links) <==> HasLink(s, ln))
    && (forall link :: link in links ==> link == LinkOf(link.name, h.held, h.ports))
  }

  ghost predicate HoldsFit(s: Shape, h: Holds) {
    && (forall o :: o in h.held <==> Needs(s, o))
    && (forall ln :: ln in h.ports <==> HasLink(s, ln))
    && Exclusive(h.held)
    && PortsExclusive(h.ports)
    && (forall l, e :: l in h.ports ==> 1 <= PortAt(h.ports, l, e))
  }

  ghost predicate Certified(t: Topo, s: Shape, h: Holds) {
    && DistinctPods(s)
    && NodesCertified(t.nodes, s, h.held)
    && LinksCertified(t.links, s, h)
    && HoldsFit(s, h)
  }

  lemma EmptyIsCertified()
    ensures Certified(Topo([], []), Shape(0, 0, 0, []), Holds(map[], map[]))
  {
  }

  // ---------- a finished build is certified ----------

  lemma NamesOfItems(s: Shape, n: Name)
    requires DistinctPods(s)
    ensures n in NamesOf(Items(s)) <==> HasNode(s, n)
  {
    hide Items;
    ItemsAreWellFormed(s);
    MembersOf(Items(s), AsnOf(n), n, LinkName(n, n));
    if n in NamesOf(Items(s)) {
      var x :| x in Items(s) && n in NamesIn(x);
      ItemsAre(s, x);
      if x.RackItem? { NamesAre(x.servers, x.pod, x.rack, n); }
    }
    if HasNode(s, n) {
      var x := ItemFor(s, n);
      ItemsAre(s, x);
    }
  }

  lemma ItemsAreWellFormed(s: Shape)
    requires DistinctPods(s)
    ensures AllWellFormed(Items(s))
  {
    hide Items;
    forall x | x in Items(s) ensures WellFormedItem(x) { ItemsAre(s, x); }
  }

  lemma ItemFor(s: Shape, n: Name) returns (x: Item)
    requires HasNode(s, n)
    ensures HasItem(s, x) && n in NamesIn(x) && WellFormedItem(x)
  {
    if IsRouter(n) {
      x := RouterItem(n);
    } else {
      var p :| p in s.pods && Hosts(p, n);
      x := RackItem(p.name, n.rack, p.servers);
      NamesAre(p.servers, p.name, n.rack, n);
    }
  }

  lemma ItemNeeds(s: Shape, x: Item, o: Owner)
    requires HasItem(s, x) && o in OwnersIn(x)
    ensures Needs(s, o)
  {
  }

  lemma ItemForOwner(s: Shape, o: Owner) returns (x: Item)
    requires Needs(s, o)
    ensures HasItem(s, x) && o in OwnersIn(x)
  {
    hide HasNode;
    match o
    case AsnOf(n) => x := RouterItem(n);
    case P2POf(ln) => x := WireItem(ln);
    case LoopbackOf(n) =>
      x := ItemFor(s, n);
      NamesInAre(x, n);
    case VlanOf(pod, rack) =>
      x := ItemFor(s, LeafAName(pod, rack));
      NamesInAre(x, LeafAName(pod, rack));
  }

  lemma OwnersOfItems(s: Shape, o: Owner)
    requires DistinctPods(s)
    ensures o in OwnersOf(Items(s)) <==> Needs(s, o)
  {
    hide Items, HasItem, Needs, OwnersIn, DistinctPods;
    var n := ExternalName(0);
    ItemsAreWellFormed(s);
    MembersOf(Items(s), o, n, LinkName(n, n));
    if o in OwnersOf(Items(s)) {
      var x :| x in Items(s) && o in OwnersIn(x);
      ItemsAre(s, x);
      ItemNeeds(s, x, o);
    }
    if Needs(s, o) {
      var x := ItemForOwner(s, o);
      ItemsAre(s, x);
    }
  }

  lemma {:induction false} NamesDistinct(xs: seq<Item>)
    requires OneEach(xs) && AllWellFormed(xs)
    ensures Distinct(NamesOf(xs)) && Distinct(WiresOf(xs))
  {
    if xs != [] {
      var init, last := xs[..|xs| - 1], xs[|xs| - 1];
      LastIsFresh(xs);
      NamesDistinct(init);
      forall n | n in NamesOf(init) && n in NamesIn(last)
        ensures false
      {
        MembersOf(init, AsnOf(n), n, LinkName(n, n));
        var y :| y in init && n in NamesIn(y);
        NamesInAre(y, n);
        NamesInAre(last, n);
      }
      forall ln | ln in WiresOf(init) && ln in WiresIn(last)
        ensures false
      {
        MembersOf(init, AsnOf(ln.a), ln.a, ln);
      }
      if last.RackItem? { LeavesThenServersDistinct(last.pod, last.rack, last.servers); }
      DistinctConcat(NamesOf(init), NamesIn(last));
      DistinctConcat(WiresOf(init), WiresIn(last));
    }
  }

  lemma LeavesThenServersDistinct(pod: string, rack: nat, n: nat)
    ensures Distinct([LeafAName(pod, rack), LeafBName(pod, rack)] + Servers(pod, rack, n))
  {
    PodNamesDiffer(n, pod, rack);
    forall x { NamesAre(n, pod, rack, x); }
    forall i | 0 <= i < |Servers(pod, rack, n)| ensures Servers(pod, rack, n)[i].ServerName? {
      assert Servers(pod, rack, n)[i] in Servers(pod, rack, n);
    }
  }

  /** The invariant at the end of a build says the result is certified for the shape it was built from. */
  lemma BuiltIsCertified(st: St, s: Shape)
    requires DistinctPods(s) && Inv(st, Items(s))
    ensures Certified(TopoOf(st), s, Holds(st.held, st.ports))
  {
    hide Items;
    ItemsAreWellFormed(s);
    ItemsDiffer(s);
    NamesDistinct(Items(s));
    BuiltNodes(st, s);
    BuiltLinks(st, s);
    BuiltHolds(st, s);
  }

  lemma BuiltNodes(st: St, s: Shape)
    requires DistinctPods(s) && Distinct(NamesOf(Items(s)))
    requires st.nodes == NodesOf(NamesOf(Items(s)), st.held)
    ensures NodesCertified(st.nodes, s, st.held)
  {
    hide Items;
    assert NodeNames(st.nodes) == NamesOf(Items(s));
    forall n { NamesOfItems(s, n); }
  }

  lemma BuiltLinks(st: St, s: Shape)
    requires DistinctPods(s) && Distinct(WiresOf(Items(s)))
    requires st.links == LinksOf(WiresOf(Items(s)), st.held, st.ports)
    ensures LinksCertified(st.links, s, Holds(st.held, st.ports))
  {
    hide Items;
    assert LinkNames(st.links) == WiresOf(Items(s));
    forall ln ensures ln in WiresOf(Items(s)) <==> HasLink(s, ln) { WiresOfItems(s, ln); }
  }

  lemma WiresOfItems(s: Shape, ln: LinkName)
    requires DistinctPods(s)
    ensures ln in WiresOf(Items(s)) <==> HasLink(s, ln)
  {
    hide Items;
    ItemsAreWellFormed(s);
    MembersOf(Items(s), AsnOf(ln.a), ln.a, ln);
    ItemsAre(s, WireItem(ln));
  }

  lemma BuiltHolds(st: St, s: Shape)
    requires DistinctPods(s) && Inv(st, Items(s))
    ensures HoldsFit(s, Holds(st.held, st.ports))
  {
    hide Items, NodesOf, LinksOf;
    forall o { OwnersOfItems(s, o); }
    forall ln ensures ln in st.ports <==> HasLink(s, ln) { WiresOfItems(s, ln); }
    BookedIsExclusive(st.ranges, st.pins + st.held);
    HeldIsExclusive(st.pins, st.held);
    PortsOfPart(st.basePorts, st.ports, st.ifIndex);
  }

  lemma HeldIsExclusive(pins: map<Owner, nat>, held: map<Owner, nat>)
    requires Exclusive(pins + held)
    ensures Exclusive(held)
  {
    forall o | o in held ensures o in pins + held && (pins + held)[o] == held[o] {
    }
  }

  lemma PortsOfPart(basePorts: map<LinkName, (nat, nat)>, ports: map<LinkName, (nat, nat)>, ifIndex: map<Name, nat>)
    requires PortsExclusive(basePorts + ports) && PortsBelow(basePorts + ports, ifIndex)
    ensures PortsExclusive(ports) && (forall l, e :: l in ports ==> 1 <= PortAt(ports, l, e))
  {
  }
}
