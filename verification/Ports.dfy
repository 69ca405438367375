/**
 Which interface a link lands on. A build numbers the links new to a device on, one by one and in build order, from
 the highest interface its deployed links use; on a new device the order of the build fixes every number.
 */
module Ports {
  import opened Wrappers
  import opened Fabric
  import opened Script
  import opened ScriptFacts
  import opened BuildOrder
  import opened Build
  import opened BuildInvariant
  import opened Certification
  import opened RackNumbers
  import opened Rebuilds
  import opened RebuildTheorems
  import opened Growth

  // ---------- what a build does to the interfaces ----------

  /** The interfaces new links get: one after the other from where each device stood, in the order of the items. */
  ghost predicate LandsOn(st: St, st': St, xs: seq<Item>) {
    && st'.basePorts == st.basePorts
    && (forall n :: Index(st'.ifIndex, n) == Index(st.ifIndex, n) + Count(xs, st.basePorts.Keys, n))
    && (forall k :: 0 <= k < |xs| && xs[k].WireItem? && xs[k].ln !in st.basePorts ==> xs[k].ln in st'.ports)
    && forall k, e :: 0 <= k < |xs| && xs[k].WireItem? && xs[k].ln !in st.basePorts ==>
         PortAt(st'.ports, xs[k].ln, e)
         == Index(st.ifIndex, NodeAt(xs[k].ln, e)) + Count(xs[..k + 1], st.basePorts.Keys, NodeAt(xs[k].ln, e))
  }

  lemma WireStepLands(st: St, ln: LinkName)
    requires ln.a != ln.z
    ensures var st' := AddPorts(st, ln);
            && (forall n :: Index(st'.ifIndex, n) == Index(st.ifIndex, n) + EndsAt(WireItem(ln), st.basePorts.Keys, n))
            && (ln !in st.basePorts ==>
                  && ln in st'.ports
                  && forall e :: PortAt(st'.ports, ln, e) == Index(st.ifIndex, NodeAt(ln, e)) + 1)
  {
  }

  lemma StepLands(st: St, x: Item)
    requires Step(st, x).Some? && WellFormedItem(x)
    ensures var st' := Step(st, x).value;
            && (forall n :: Index(st'.ifIndex, n) == Index(st.ifIndex, n) + EndsAt(x, st.basePorts.Keys, n))
            && (x.WireItem? && x.ln !in st.basePorts ==>
                  && x.ln in st'.ports
                  && forall e :: PortAt(st'.ports, x.ln, e) == Index(st.ifIndex, NodeAt(x.ln, e)) + 1)
  {
    hide RouterNode, LeafNode, LinkWith, ServerNodes, Take, AddPorts;
    match x
    case RouterItem(n) =>
      TakeInterfaces(st, AsnOf(n));
      TakeInterfaces(Take(st, AsnOf(n)).value, LoopbackOf(n));
    case RackItem(pod, rack, _) =>
      var a, b := LoopbackOf(LeafAName(pod, rack)), LoopbackOf(LeafBName(pod, rack));
      TakeInterfaces(st, VlanOf(pod, rack));
      var s1 := Take(st, VlanOf(pod, rack)).value;
      TakeInterfaces(s1, a);
      TakeInterfaces(Take(s1, a).value, b);
    case WireItem(ln) =>
      var s1 := if KindOf(ln).Fabric? then Take(st, P2POf(ln)).value else st;
      if KindOf(ln).Fabric? { TakeInterfaces(st, P2POf(ln)); }
      WireStepLands(s1, ln);
  }

  lemma LandsNext(st: St, s1: St, init: seq<Item>, x: Item)
    requires LandsOn(st, s1, init) && Step(s1, x).Some? && WellFormedItem(x) && x !in init
    ensures LandsOn(st, Step(s1, x).value, init + [x])
  {
    hide Step, Count, EndsAt, WellFormedItem, Index;
    var st', xs := Step(s1, x).value, init + [x];
    StepLands(s1, x);
    StepLandsPast(s1, x);
    forall n ensures Index(st'.ifIndex, n) == Index(st.ifIndex, n) + Count(xs, st.basePorts.Keys, n) {
      CountNext(init, x, st.basePorts.Keys, n);
    }
    forall k | 0 <= k < |init| && init[k].WireItem? && init[k].ln !in st.basePorts
      ensures init[k].ln in s1.ports && init[k].ln in st'.ports && st'.ports[init[k].ln] == s1.ports[init[k].ln]
    {
      assert init[k] in init && init[k].ln !in WiresIn(x);
    }
    forall k, e | 0 <= k < |xs| && xs[k].WireItem? && xs[k].ln !in st.basePorts
      ensures xs[k].ln in st'.ports
      ensures PortAt(st'.ports, xs[k].ln, e)
              == Index(st.ifIndex, NodeAt(xs[k].ln, e)) + Count(xs[..k + 1], st.basePorts.Keys, NodeAt(xs[k].ln, e))
    {
      if k < |init| {
        assert xs[k] == init[k] && xs[..k + 1] == init[..k + 1];
        assert PortAt(s1.ports, init[k].ln, e) == PortAt(st'.ports, init[k].ln, e);
      } else {
        assert xs[..k + 1] == xs;
        NewEnd(x, st.basePorts.Keys, e);
        CountNext(init, x, st.basePorts.Keys, NodeAt(x.ln, e));
      }
    }
  }

  lemma NewEnd(x: Item, deployed: set<LinkName>, e: bool)
    requires x.WireItem? && WellFormedItem(x) && x.ln !in deployed
    ensures EndsAt(x, deployed, NodeAt(x.ln, e)) == 1
  {
  }

  lemma {:induction false} RunLandsOn(st: St, xs: seq<Item>)
    requires Run(st, xs).Some? && OneEach(xs) && AllWellFormed(xs)
    ensures LandsOn(st, Run(st, xs).value, xs)
  {
    hide Step, LandsOn;
    if xs == [] {
      NothingLandsOn(st);
    } else {
      var init, last := xs[..|xs| - 1], xs[|xs| - 1];
      assert xs == init + [last];
      FrontIsDistinct(init, [last]);
      RunLandsOn(st, init);
      assert last in xs && forall i :: 0 <= i < |init| ==> Key(xs[i]) != Key(last);
      LandsNext(st, Run(st, init).value, init, last);
    }
  }

  lemma NothingLandsOn(st: St)
    ensures LandsOn(st, st, [])
  {
  }

  // ---------- where the deployed links leave off ----------

  ghost predicate UsesAt(link: Link, n: Name, eth: nat) {
    (link.a.node == n && link.a.eth == eth) || (link.z.node == n && link.z.eth == eth)
  }

  /** The highest interface of the device that the links use, zero if they use none. */
  ghost predicate Topmost(links: seq<Link>, n: Name, top: nat) {
    && (top != 0 ==> exists link :: link in links && UsesAt(link, n, top))
    && forall link, eth: nat :: link in links && UsesAt(link, n, eth) ==> eth <= top
  }

  lemma TopmostNext(init: seq<Link>, link: Link, m: map<Name, nat>, n: Name)
    requires Topmost(init, n, Index(m, n))
    ensures Topmost(init + [link], n, Index(Raise(Raise(m, link.a), link.z), n))
  {
    var top, top', links := Index(m, n), Index(Raise(Raise(m, link.a), link.z), n), init + [link];
    assert forall l :: l in links <==> l in init || l == link;
    assert top' >= top;
    if top' != 0 && top' == top {
      var l :| l in init && UsesAt(l, n, top);
      assert l in links;
    } else if top' != top {
      assert UsesAt(link, n, top') && link in links;
    }
  }

  lemma PinInterfaces(st: St, o: Owner, number: Option<nat>)
    requires Pin(st, o, number).Some?
    ensures Pin(st, o, number).value.ifIndex == st.ifIndex
  {
  }

  lemma {:induction false} RestoredTop(st: St, links: seq<Link>, n: Name)
    requires st.ifIndex == map[] && RestoreLinks(st, links).Some?
    ensures Topmost(links, n, Index(RestoreLinks(st, links).value.ifIndex, n))
  {
    if links != [] {
      hide Topmost, Pin, Raise, P2PNumber;
      var init, link := links[..|links| - 1], links[|links| - 1];
      assert links == init + [link];
      RestoredTop(st, init, n);
      var s1 := RestoreLinks(st, init).value;
      var based := s1.(basePorts := s1.basePorts[link.name := (link.a.eth, link.z.eth)]);
      if link.kind.Fabric? {
        PinInterfaces(based, P2POf(link.name), if link.a.address.Some? then P2PNumber(link.a.address.value) else None);
      }
      TopmostNext(init, link, s1.ifIndex, n);
    }
  }

  lemma {:induction false} NodesRaiseNothing(r: Restored, nodes: seq<Node>)
    requires RestoreNodes(r, nodes).Some?
    ensures RestoreNodes(r, nodes).value.st.ifIndex == r.st.ifIndex
  {
    hide LoopbackNumber, VlanNumber;
    if nodes != [] { NodesRaiseNothing(r, nodes[..|nodes| - 1]); }
  }

  lemma BaseTop(base: Topo, n: Name)
    requires RestoreBase(base).Some?
    ensures Topmost(base.links, n, Index(RestoreBase(base).value.st.ifIndex, n))
  {
    hide RestoreNodes, RestoreLinks, Topmost, SortedSlots;
    var start := Restored(Empty(), {}, map[], 0);
    NodesRaiseNothing(start, base.nodes);
    RestoredTop(RestoreNodes(start, base.nodes).value.st, base.links, n);
  }

  lemma OneTop(links: seq<Link>, n: Name, top: nat, top': nat)
    requires Topmost(links, n, top) && Topmost(links, n, top')
    ensures top == top'
  {
  }

  /**
   In a rebuild each new link lands, at either end, on the interface that follows the highest one the device's
   deployed links use by as many as new links have been wired there, this one included.
   */
  lemma NewLinksLandInOrder(spec: TopologySpec, base: Topo, s: Shape, h: Holds, k: nat, e: bool, top: nat)
    requires Certified(base, s, h) && DistinctIds(spec.pods) && Rebuild(spec, base).Some?
    requires k < |Items(NewShape(spec, base))| && Items(NewShape(spec, base))[k].WireItem?
    requires Items(NewShape(spec, base))[k].ln !in h.ports
    requires Topmost(base.links, NodeAt(Items(NewShape(spec, base))[k].ln, e), top)
    ensures var xs, ports := Items(NewShape(spec, base)), Rebuild(spec, base).value.ports;
            var ln := xs[k].ln;
            ln in ports && PortAt(ports, ln, e) == top + Count(xs[..k + 1], h.ports.Keys, NodeAt(ln, e))
  {
    hide Certified, Items, SlotsReady, DistinctPods, PodsNumbered, HeldInv, BuiltInv, PortsExclusive, OneEach, AllWellFormed,
      Topmost, Count, PortsBelow;
    ReplayCertified(base, s, h);
    var r := RestoreBase(base).value;
    ShapeIsDistinct(r, spec);
    ItemsDiffer(ShapeFor(r, spec));
    ItemsAreWellFormed(ShapeFor(r, spec));
    RunLandsOn(r.st, Items(ShapeFor(r, spec)));
    var n := NodeAt(Items(NewShape(spec, base))[k].ln, e);
    BaseTop(base, n);
    OneTop(base.links, n, top, Index(r.st.ifIndex, n));
  }

  /** In a rebuild, the `c`th link of a device none of whose links is deployed is on its interface `c`. */
  lemma NewDeviceInterfaces(spec: TopologySpec, base: Topo, s: Shape, h: Holds, ln: LinkName, e: bool, c: nat)
    requires Certified(base, s, h) && DistinctIds(spec.pods) && Rebuild(spec, base).Some?
    requires Nth(Items(NewShape(spec, base)), ln, NodeAt(ln, e), c) && Bare(h.ports.Keys, NodeAt(ln, e))
    ensures ln in Rebuild(spec, base).value.ports && PortAt(Rebuild(spec, base).value.ports, ln, e) == c
  {
    hide Certified, Items, Rebuild, Count, Topmost, DistinctIds;
    var n := NodeAt(ln, e);
    var xs := Items(NewShape(spec, base));
    var k: nat :| k < |xs| && NthAt(xs, ln, n, c, k);
    BareCount(xs[..k + 1], h.ports.Keys, n);
    BareBase(base, s, h, n);
    NewLinksLandInOrder(spec, base, s, h, k, e, 0);
  }

  lemma BareBase(base: Topo, s: Shape, h: Holds, n: Name)
    requires Certified(base, s, h) && Bare(h.ports.Keys, n)
    ensures Topmost(base.links, n, 0)
  {
    hide Certified, HasNode, HasLink;
    forall link | link in base.links ensures link.a.node != n && link.z.node != n {
      LinkHeld(base, s, h, link);
    }
  }

  lemma LinkHeld(base: Topo, s: Shape, h: Holds, link: Link)
    requires Certified(base, s, h) && link in base.links
    ensures link.name in h.ports && link.a.node == link.name.a && link.z.node == link.name.z
  {
    hide HasLink, NodesCertified, DistinctPods, Exclusive, PortsExclusive;
    var i :| 0 <= i < |base.links| && base.links[i] == link;
    assert LinkNames(base.links)[i] == link.name;
  }
}
