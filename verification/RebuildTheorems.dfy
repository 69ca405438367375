/**
 The promises of a rebuild, for every certified base and every spec with distinct pod names: the result is
 certified again, survivors keep everything they had, a link can only go with one of its ends, and
 rebuilding what is deployed reproduces it without a single new allocation.
 */
module RebuildTheorems {
  import opened Wrappers
  import opened Sequences
  import opened Ranges
  import opened Decimal
  import opened Fabric
  import opened Script
  import opened ScriptFacts
  import opened Build
  import opened BuildInvariant
  import opened Certification
  import opened RackNumbers
  import opened Rebuilds

  ghost predicate Agree(h: Holds, h': Holds) {
    && (forall o :: o in h.held && o in h'.held ==> h.held[o] == h'.held[o])
    && (forall ln :: ln in h.ports && ln in h'.ports ==> h.ports[ln] == h'.ports[ln])
  }

  function NewShape(spec: TopologySpec, base: Topo): Shape {
    match RestoreBase(base)
    case Some(r) => ShapeFor(r, spec)
    case None => Shape(0, 0, 0, [])
  }

  lemma ShapeIsDistinct(r: Restored, spec: TopologySpec)
    requires SlotsReady(r.rackSlots, r.maxRack) && DistinctIds(spec.pods)
    ensures DistinctPods(ShapeFor(r, spec))
    ensures PodsNumbered(r.rackSlots, r.maxRack, spec.pods, NumberPods(r.rackSlots, r.maxRack, spec.pods))
  {
    NumberingIsDistinct(r.rackSlots, r.maxRack, spec.pods);
  }

  /** A rebuild leaves a certified topology whose assignment agrees with the deployed one. */
  lemma RebuildIsCertified(spec: TopologySpec, base: Topo, s: Shape, h: Holds)
    requires Certified(base, s, h) && DistinctIds(spec.pods)
    requires Rebuild(spec, base).Some?
    ensures var st := Rebuild(spec, base).value;
            && Certified(TopoOf(st), NewShape(spec, base), Holds(st.held, st.ports))
            && Agree(h, Holds(st.held, st.ports))
  {
    hide Certified, Inv, Items, SlotsReady, DistinctPods, PodsNumbered, OneEach, Agree;
    ReplayCertified(base, s, h);
    var r := RestoreBase(base).value;
    ShapeIsDistinct(r, spec);
    var s' := ShapeFor(r, spec);
    ItemsDiffer(s');
    ItemsAreWellFormed(s');
    RunKeepsInv(r.st, Items(s'));
    var st := Run(r.st, Items(s')).value;
    BuiltIsCertified(st, s');
    PinsAgree(st, Items(s'), h);
  }

  lemma PinsAgree(st: St, done: seq<Item>, h: Holds)
    requires Inv(st, done) && st.pins == h.held && st.basePorts == h.ports
    ensures Agree(h, Holds(st.held, st.ports))
  {
  }

  // ---------- stability ----------

  lemma NodesAgree(n: Name, s: Shape, h: Holds, s': Shape, h': Holds)
    requires HoldsFit(s, h) && HoldsFit(s', h') && Agree(h, h') && HasNode(s, n) && HasNode(s', n)
    ensures NodeOf(n, h.held) == NodeOf(n, h'.held)
  {
    hide Exclusive, PortsExclusive;
    OwnersNeeded(s, n);
    OwnersNeeded(s', n);
    forall o | o in NodeOwners(n)
      ensures o in h.held && o in h'.held
    {
      assert Needs(s, o) && Needs(s', o);
    }
  }

  lemma NamesOfNode(t: Topo, s: Shape, h: Holds, node: Node)
    requires Certified(t, s, h) && node in t.nodes
    ensures HasNode(s, node.name) && node == NodeOf(node.name, h.held)
  {
    hide LinksCertified, HoldsFit, DistinctPods, NodeOf;
    var i :| 0 <= i < |t.nodes| && t.nodes[i] == node;
    assert NodeNames(t.nodes)[i] == node.name;
  }

  lemma NamesOfLink(t: Topo, s: Shape, h: Holds, link: Link)
    requires Certified(t, s, h) && link in t.links
    ensures HasLink(s, link.name) && link == LinkOf(link.name, h.held, h.ports)
  {
    hide NodesCertified, HoldsFit, DistinctPods, LinkOf;
    var i :| 0 <= i < |t.links| && t.links[i] == link;
    assert LinkNames(t.links)[i] == link.name;
  }

  /** Two certified topologies whose assignments agree have the same spec on every common name. */
  lemma SurvivorsUnchanged(t: Topo, s: Shape, h: Holds, t': Topo, s': Shape, h': Holds)
    requires Certified(t, s, h) && Certified(t', s', h') && Agree(h, h')
    ensures forall node, node' :: node in t.nodes && node' in t'.nodes && node.name == node'.name ==> node == node'
    ensures forall link, link' :: link in t.links && link' in t'.links && link.name == link'.name ==> link == link'
  {
    hide Certified, NodeOf, LinkOf;
    forall node, node' | node in t.nodes && node' in t'.nodes && node.name == node'.name
      ensures node == node'
    {
      NamesOfNode(t, s, h, node);
      NamesOfNode(t', s', h', node');
      HoldsOf(t, s, h);
      HoldsOf(t', s', h');
      NodesAgree(node.name, s, h, s', h');
    }
    forall link, link' | link in t.links && link' in t'.links && link.name == link'.name
      ensures link == link'
    {
      NamesOfLink(t, s, h, link);
      NamesOfLink(t', s', h', link');
      HoldsOf(t, s, h);
      HoldsOf(t', s', h');
      LinksAgree(link.name, s, h, s', h');
    }
  }

  lemma HoldsOf(t: Topo, s: Shape, h: Holds)
    requires Certified(t, s, h)
    ensures HoldsFit(s, h)
  {
  }

  lemma LinksAgree(ln: LinkName, s: Shape, h: Holds, s': Shape, h': Holds)
    requires HoldsFit(s, h) && HoldsFit(s', h') && Agree(h, h') && HasLink(s, ln) && HasLink(s', ln)
    ensures LinkOf(ln, h.held, h.ports) == LinkOf(ln, h'.held, h'.ports)
  {
    hide Exclusive, PortsExclusive;
    assert ln in h.ports && ln in h'.ports;
    if KindOf(ln).Fabric? {
      assert Needs(s, P2POf(ln)) && Needs(s', P2POf(ln));
    }
  }

  /** Stability: whatever the new spec asks for, a device or link present before and after is identical. */
  lemma RebuildKeepsSurvivors(spec: TopologySpec, base: Topo, s: Shape, h: Holds)
    requires Certified(base, s, h) && DistinctIds(spec.pods) && Rebuild(spec, base).Some?
    ensures var t := TopoOf(Rebuild(spec, base).value);
            && (forall node, node' :: node in base.nodes && node' in t.nodes && node.name == node'.name ==> node == node')
            && (forall link, link' :: link in base.links && link' in t.links && link.name == link'.name ==> link == link')
  {
    hide Certified, Agree, Rebuild;
    var st := Rebuild(spec, base).value;
    RebuildIsCertified(spec, base, s, h);
    SurvivorsUnchanged(base, s, h, TopoOf(st), NewShape(spec, base), Holds(st.held, st.ports));
  }

  /** A link of one certified topology is missing from another only if one of its ends is. */
  lemma LinkGoesWithAnEnd(t: Topo, s: Shape, h: Holds, t': Topo, s': Shape, h': Holds, ln: LinkName)
    requires Certified(t, s, h) && Certified(t', s', h')
    requires ln in LinkNames(t.links) && ln.a in NodeNames(t'.nodes) && ln.z in NodeNames(t'.nodes)
    ensures ln in LinkNames(t'.links)
  {
    hide HoldsFit, DistinctPods, NodeOf, LinkOf;
    assert HasLink(s, ln) && HasLink(s', ln);
  }

  // ---------- fixpoint ----------

  /** The spec a shape was built from, up to pods whose blank name stands for the default one. */
  predicate Matches(spec: TopologySpec, s: Shape) {
    && spec.externals == s.externals && spec.edges == s.edges && spec.supers == s.supers
    && |spec.pods| == |s.pods|
    && forall k :: 0 <= k < |s.pods| ==>
         && PodId(spec.pods[k].name, k + 1) == s.pods[k].name && spec.pods[k].spines == s.pods[k].spines
         && spec.pods[k].racks == |s.pods[k].racks| && spec.pods[k].servers == s.pods[k].servers
  }

  lemma TakePinned(st: St, o: Owner)
    requires o in st.pins
    ensures Take(st, o) == Some(st.(held := st.held[o := st.pins[o]]))
  {
  }

  ghost predicate OnlyRecords(st: St, st': St, x: Item) {
    && st'.pins == st.pins
    && forall rec :: rec in st'.records && rec !in st.records ==>
         rec.owner in OwnersIn(x) || (x.RackItem? && rec.owner == RackAsnOf(x.pod, x.rack))
  }

  lemma RouterPinned(st: St, n: Name)
    requires OwnersIn(RouterItem(n)) <= st.pins.Keys
    ensures AddRouter(st, n).Some? && OnlyRecords(st, AddRouter(st, n).value, RouterItem(n))
  {
  }

  lemma RackPinned(st: St, pod: string, rack: nat, servers: nat)
    requires OwnersIn(RackItem(pod, rack, servers)) <= st.pins.Keys
    ensures AddRack(st, pod, rack, servers).Some?
    ensures OnlyRecords(st, AddRack(st, pod, rack, servers).value, RackItem(pod, rack, servers))
  {
    hide Take;
    var a, b := LoopbackOf(LeafAName(pod, rack)), LoopbackOf(LeafBName(pod, rack));
    TakePinned(st, VlanOf(pod, rack));
    var s1 := Take(st, VlanOf(pod, rack)).value;
    TakePinned(s1, a);
    TakePinned(Take(s1, a).value, b);
  }

  lemma WirePinned(st: St, ln: LinkName)
    requires OwnersIn(WireItem(ln)) <= st.pins.Keys
    ensures AddLink(st, ln).Some? && OnlyRecords(st, AddLink(st, ln).value, WireItem(ln))
  {
    hide Take;
    if KindOf(ln).Fabric? { TakePinned(st, P2POf(ln)); }
  }

  lemma StepPinned(st: St, x: Item)
    requires OwnersIn(x) <= st.pins.Keys
    ensures Step(st, x).Some? && OnlyRecords(st, Step(st, x).value, x)
  {
    hide AddRouter, AddRack, AddLink, OnlyRecords;
    match x
    case RouterItem(n) => RouterPinned(st, n);
    case RackItem(pod, rack, servers) => RackPinned(st, pod, rack, servers);
    case WireItem(ln) => WirePinned(st, ln);
  }

  /** When every number is pinned nothing can run out, and no record names a new owner. */
  lemma {:induction false} RunPinned(st: St, xs: seq<Item>)
    requires OwnersOf(xs) <= st.pins.Keys && st.records == []
    ensures Run(st, xs).Some? && Run(st, xs).value.pins == st.pins
    ensures forall rec :: rec in Run(st, xs).value.records ==>
              rec.owner in OwnersOf(xs) || exists x :: x in xs && x.RackItem? && rec.owner == RackAsnOf(x.pod, x.rack)
  {
    if xs != [] {
      hide Step;
      var init, last := xs[..|xs| - 1], xs[|xs| - 1];
      assert xs == init + [last];
      RunPinned(st, init);
      StepPinned(Run(st, init).value, last);
      forall rec | rec in Run(st, xs).value.records
        ensures rec.owner in OwnersOf(xs) || exists x :: x in xs && x.RackItem? && rec.owner == RackAsnOf(x.pod, x.rack)
      {
        if rec in Run(st, init).value.records && rec.owner !in OwnersOf(init) {
          var x :| x in init && x.RackItem? && rec.owner == RackAsnOf(x.pod, x.rack);
          assert x in xs;
        } else {
          assert last in xs;
        }
      }
    }
  }

  lemma SlotsAreRacks(r: Restored, s: Shape, h: Holds, k: nat)
    requires Replayed(r, s, h) && DistinctPods(s) && k < |s.pods|
    ensures Slots(r.rackSlots, s.pods[k].name) == s.pods[k].racks
  {
    hide Inv;
    var p := s.pods[k];
    forall x ensures x in Slots(r.rackSlots, p.name) <==> x in p.racks {
      if HasNode(s, LeafAName(p.name, x)) {
        var q :| q in s.pods && Hosts(q, LeafAName(p.name, x));
        var l :| 0 <= l < |s.pods| && s.pods[l] == q;
        assert l == k;
      }
      assert p in s.pods && (x in p.racks ==> Hosts(p, LeafAName(p.name, x)));
    }
    AscendingUnique(Slots(r.rackSlots, p.name), p.racks);
  }

  /** Rebuilding the deployed spec settles on the very same rack numbers. */
  lemma {:induction false} NumberingIsStable(r: Restored, s: Shape, h: Holds, spec: TopologySpec, k: nat)
    requires Replayed(r, s, h) && DistinctPods(s) && Matches(spec, s) && k <= |s.pods|
    ensures NumberPods(r.rackSlots, r.maxRack, spec.pods[..k]) == Numbered(s.pods[..k], r.maxRack)
  {
    hide Replayed, DistinctPods;
    if k > 0 {
      NumberingIsStable(r, s, h, spec, k - 1);
      SlotsAreRacks(r, s, h, k - 1);
      assert spec.pods[..k][..k - 1] == spec.pods[..k - 1];
      assert s.pods[..k] == s.pods[..k - 1] + [s.pods[k - 1]];
      assert s.pods[k - 1].racks[..|s.pods[k - 1].racks|] == s.pods[k - 1].racks;
    }
  }

  lemma ShapeIsStable(r: Restored, s: Shape, h: Holds, spec: TopologySpec)
    requires Replayed(r, s, h) && DistinctPods(s) && Matches(spec, s)
    ensures ShapeFor(r, spec) == s && DistinctIds(spec.pods)
  {
    NumberingIsStable(r, s, h, spec, |s.pods|);
    assert spec.pods[..|s.pods|] == spec.pods && s.pods[..|s.pods|] == s.pods;
  }

  ghost predicate SameRecords(t: Topo, t': Topo) {
    && (forall node :: node in t.nodes <==> node in t'.nodes)
    && (forall link :: link in t.links <==> link in t'.links)
  }

  /** Fixpoint: rebuilding the deployed spec on what it deployed reproduces every device and link. */
  lemma RebuildReproduces(spec: TopologySpec, base: Topo, s: Shape, h: Holds)
    requires Certified(base, s, h) && Matches(spec, s)
    ensures Rebuild(spec, base).Some?
    ensures SameRecords(base, TopoOf(Rebuild(spec, base).value))
    ensures forall rec :: rec in Rebuild(spec, base).value.records ==> !IsNew(RestoreBase(base).value, rec)
  {
    hide Certified, Items, Inv, Agree, SlotsReady;
    ReplayCertified(base, s, h);
    FitParts(base, s, h);
    var r := RestoreBase(base).value;
    ShapeIsStable(r, s, h, spec);
    HoldsOf(base, s, h);
    forall o | o in OwnersOf(Items(s)) ensures o in r.st.pins {
      OwnersOfItems(s, o);
    }
    RunPinned(r.st, Items(s));
    RebuildIsCertified(spec, base, s, h);
    var st := Rebuild(spec, base).value;
    NothingIsNew(r, s, h, st.records);
    SameNames(base, s, h, TopoOf(st), Holds(st.held, st.ports));
  }

  lemma NothingIsNew(r: Restored, s: Shape, h: Holds, records: seq<Record>)
    requires Replayed(r, s, h) && DistinctPods(s)
    requires forall o :: o in OwnersOf(Items(s)) ==> o in r.st.pins
    requires forall rec :: rec in records ==>
               rec.owner in OwnersOf(Items(s)) || exists x :: x in Items(s) && x.RackItem? && rec.owner == RackAsnOf(x.pod, x.rack)
    ensures forall rec :: rec in records ==> !IsNew(r, rec)
  {
    hide Items, Inv, SlotsReady;
    forall rec | rec in records
      ensures !IsNew(r, rec)
    {
      if rec.owner in OwnersOf(Items(s)) {
        OwnersOfItems(s, rec.owner);
      } else {
        var x :| x in Items(s) && x.RackItem? && rec.owner == RackAsnOf(x.pod, x.rack);
        ItemsAre(s, x);
        var p :| p in s.pods && p.name == x.pod && x.rack in p.racks;
        assert Hosts(p, LeafAName(x.pod, x.rack));
      }
    }
  }

  lemma SameNames(t: Topo, s: Shape, h: Holds, t': Topo, h': Holds)
    requires Certified(t, s, h) && Certified(t', s, h') && Agree(h, h')
    ensures SameRecords(t, t')
  {
    hide Agree, HoldsFit, DistinctPods, NodeOf, LinkOf, HasNode, HasLink;
    SurvivorsUnchanged(t, s, h, t', s, h');
    forall node ensures node in t.nodes <==> node in t'.nodes {
      if node in t.nodes { NamesOfNode(t, s, h, node); var other := NodeNamed(t'.nodes, node.name); }
      if node in t'.nodes { NamesOfNode(t', s, h', node); var other := NodeNamed(t.nodes, node.name); }
    }
    forall link ensures link in t.links <==> link in t'.links {
      if link in t.links { NamesOfLink(t, s, h, link); var other := LinkNamed(t'.links, link.name); }
      if link in t'.links { NamesOfLink(t', s, h', link); var other := LinkNamed(t.links, link.name); }
    }
  }

  lemma NodeNamed(nodes: seq<Node>, n: Name) returns (node: Node)
    requires n in NodeNames(nodes)
    ensures node in nodes && node.name == n
  {
    var i :| 0 <= i < |nodes| && NodeNames(nodes)[i] == n;
    node := nodes[i];
  }

  lemma LinkNamed(links: seq<Link>, ln: LinkName) returns (link: Link)
    requires ln in LinkNames(links)
    ensures link in links && link.name == ln
  {
    var i :| 0 <= i < |links| && LinkNames(links)[i] == ln;
    link := links[i];
  }
}
