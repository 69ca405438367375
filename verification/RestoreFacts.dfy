/**
 Replaying a certified topology never fails, whatever order its records come in, and recovers exactly
 the assignment the topology was built with.
 */
module RestoreFacts {
  import opened Wrappers
  import opened Sequences
  import opened Ranges
  import opened Fabric
  import opened Script
  import opened ScriptFacts
  import opened Build
  import opened BuildInvariant
  import opened Certification

  // ---------- one pin ----------

  /** An address read back from a node or link names the subnet it was made from. */
  lemma NumbersReadBack(k: nat, host: nat)
    ensures k <= Last(Loopback) ==> LoopbackNumber(LoopbackAt(k)) == Some(k)
    ensures k <= Last(FabricP2P) && host < 2 ==> P2PNumber(P2PAt(k, host)) == Some(k)
    ensures k <= Last(ServerVlan) && host < 256 ==> VlanNumber(Prefix(VlanHost(k, host), 24)) == Some(k)
  {
  }

  ghost predicate Sub(pins: map<Owner, nat>, held: map<Owner, nat>) {
    forall o :: o in pins ==> o in held && held[o] == pins[o]
  }

  lemma RestoreIsSound(r: Range<Owner>, x: nat, o: Owner)
    requires Sound(r) && r.released == [] && r.end < WORD - 1 && r.start <= x <= r.end && x !in r.held
    ensures Restore(r, x, o).Some?
    ensures var r' := Restore(r, x, o).value; Sound(r') && r' == r.(next := r'.next, held := r.held[x := o])
  {
  }

  lemma Unheld(ranges: map<Pool, Range<Owner>>, pins: map<Owner, nat>, o: Owner, held: map<Owner, nat>)
    requires Books(ranges, pins) && Sub(pins, held) && Exclusive(held) && o in held && o !in pins
    ensures InPool(o, held[o]) && PoolOf(o) in ranges && held[o] !in ranges[PoolOf(o)].held
  {
  }

  lemma PinSucceeds(st: St, o: Owner, held: map<Owner, nat>)
    requires Books(st.ranges, st.pins) && Sub(st.pins, held) && Exclusive(held)
    requires o in held && o !in st.pins
    ensures Pin(st, o, Some(held[o])).Some?
    ensures var st' := Pin(st, o, Some(held[o])).value;
            && Books(st'.ranges, st'.pins) && Sub(st'.pins, held)
            && st' == st.(ranges := st'.ranges, pins := st.pins[o := held[o]])
  {
    hide Books, Exclusive, InPool, Ranges.Restore;
    Unheld(st.ranges, st.pins, o, held);
    PinGrows(st.ranges, st.pins, o, held[o]);
  }

  lemma PinGrows(ranges: map<Pool, Range<Owner>>, m: map<Owner, nat>, o: Owner, v: nat)
    requires Books(ranges, m) && o !in m && InPool(o, v) && v !in ranges[PoolOf(o)].held
    ensures Restore(ranges[PoolOf(o)], v, o).Some?
    ensures Books(ranges[PoolOf(o) := Restore(ranges[PoolOf(o)], v, o).value], m[o := v])
  {
    var p := PoolOf(o);
    var r := ranges[p];
    assert Sound(r) && r.released == [] && r.end < WORD - 1;
    RestoreIsSound(r, v, o);
    RangesStaySound(ranges, p, Restore(r, v, o).value);
    BooksGrow(ranges, m, o, v, Restore(r, v, o).value);
  }

  lemma FreshBooks()
    ensures Books(FreshRanges(), map[])
  {
    forall p | HasRange(p) ensures p in FreshRanges() {
      if p.AsnPool? {
        assert p.role.External? || p.role.DCEdge? || p.role.SuperSpine? || p.role.Spine?;
      }
    }
  }

  // ---------- nodes ----------

  function Pinned(n: Name): set<Owner> {
    if n.ServerName? then {} else NodeOwners(n)
  }

  function PinnedBy(ns: seq<Name>): set<Owner> {
    if ns == [] then {} else PinnedBy(ns[..|ns| - 1]) + Pinned(ns[|ns| - 1])
  }

  /** The racks whose leaves are among the given devices. */
  function RacksIn(ns: seq<Name>): set<(string, nat)> {
    if ns == [] then {}
    else
      var n := ns[|ns| - 1];
      RacksIn(ns[..|ns| - 1]) + if IsLeaf(n) then {RackKey(n)} else {}
  }

  lemma {:induction false} PinnedByAre(ns: seq<Name>, n: Name, pod: string, rack: nat)
    ensures AsnOf(n) in PinnedBy(ns) ==> n in ns
    ensures LoopbackOf(n) in PinnedBy(ns) ==> n in ns
    ensures VlanOf(pod, rack) in PinnedBy(ns) <==> (pod, rack) in RacksIn(ns)
    ensures (pod, rack) in RacksIn(ns) <==> LeafAName(pod, rack) in ns || LeafBName(pod, rack) in ns
    ensures n in ns ==> Pinned(n) <= PinnedBy(ns)
    ensures forall o :: o in PinnedBy(ns) ==> !o.P2POf? && !o.RackAsnOf?
  {
    if ns != [] {
      PinnedByAre(ns[..|ns| - 1], n, pod, rack);
      assert ns == ns[..|ns| - 1] + [ns[|ns| - 1]];
    }
  }

  lemma PinnedByAppend(ns: seq<Name>, n: Name)
    ensures PinnedBy(ns + [n]) == PinnedBy(ns) + Pinned(n)
    ensures RacksIn(ns + [n]) == RacksIn(ns) + if IsLeaf(n) then {RackKey(n)} else {}
  {
  }

  function RackKey(n: Name): (string, nat)
    requires IsLeaf(n)
  {
    (n.pod, n.rack)
  }

  ghost predicate SlotsFit(r: Restored) {
    && (forall pod, x :: x in Slots(r.rackSlots, pod) <==> (pod, x) in r.rackSeen)
    && (forall pod :: Distinct(Slots(r.rackSlots, pod)))
    && (forall pod, x :: (pod, x) in r.rackSeen ==> x <= r.maxRack)
  }

  ghost predicate NodesReplayed(r: Restored, ns: seq<Name>, held: map<Owner, nat>) {
    && Books(r.st.ranges, r.st.pins) && Sub(r.st.pins, held) && r.st.pins.Keys == PinnedBy(ns)
    && r.st == Empty().(ranges := r.st.ranges, pins := r.st.pins)
    && r.rackSeen == RacksIn(ns)
    && SlotsFit(r)
  }

  lemma ReplayRouter(r: Restored, ns: seq<Name>, n: Name, held: map<Owner, nat>)
    requires NodesReplayed(r, ns, held) && n !in ns && IsRouter(n)
    requires Exclusive(held) && NodeOwners(n) <= held.Keys
    ensures RestoreNode(r, NodeOf(n, held)).Some?
    ensures NodesReplayed(RestoreNode(r, NodeOf(n, held)).value, ns + [n], held)
  {
    hide Pin, Books, Sub, SlotsFit, Exclusive, LoopbackNumber, LoopbackAt, PinnedBy, RacksIn;
    PinnedByAre(ns, n, "", 0);
    PoolBound(held, LoopbackOf(n));
    NumbersReadBack(held[LoopbackOf(n)], 0);
    PinSucceeds(r.st, LoopbackOf(n), held);
    PinSucceeds(Pin(r.st, LoopbackOf(n), Some(held[LoopbackOf(n)])).value, AsnOf(n), held);
    PinnedByAppend(ns, n);
    SlotsSame(r, RestoreNode(r, NodeOf(n, held)).value);
  }

  lemma PoolBound(held: map<Owner, nat>, o: Owner)
    requires Exclusive(held) && o in held
    ensures held[o] <= Last(PoolOf(o))
  {
  }

  lemma SlotsSame(r: Restored, r': Restored)
    requires SlotsFit(r) && r'.rackSeen == r.rackSeen && r'.rackSlots == r.rackSlots && r'.maxRack == r.maxRack
    ensures SlotsFit(r')
  {
  }

  lemma SlotsGrow(r: Restored, r': Restored, pod: string, rack: nat)
    requires SlotsFit(r) && (pod, rack) !in r.rackSeen
    requires r'.rackSeen == r.rackSeen + {(pod, rack)}
    requires r'.rackSlots == r.rackSlots[pod := Slots(r.rackSlots, pod) + [rack]]
    requires r'.maxRack == if rack > r.maxRack then rack else r.maxRack
    ensures SlotsFit(r')
  {
    forall q
      ensures Slots(r'.rackSlots, q) == if q == pod then Slots(r.rackSlots, q) + [rack] else Slots(r.rackSlots, q)
    {
    }
    forall q ensures Distinct(Slots(r'.rackSlots, q)) {
      assert Distinct(Slots(r.rackSlots, q));
      assert rack !in Slots(r.rackSlots, pod);
    }
    forall q, x ensures x in Slots(r'.rackSlots, q) <==> (q, x) in r'.rackSeen {
      assert x in Slots(r.rackSlots, q) <==> (q, x) in r.rackSeen;
    }
  }

  lemma LeafNumbers(n: Name, held: map<Owner, nat>)
    requires IsLeaf(n) && Exclusive(held) && NodeOwners(n) <= held.Keys
    ensures var spec := NodeOf(n, held).spec;
            && LoopbackNumber(spec.loopback) == Some(held[LoopbackOf(n)])
            && VlanNumber(spec.vlanIP) == Some(held[VlanOf(n.pod, n.rack)])
  {
  }

  /** The second leaf of a rack adds its loopback only. */
  lemma ReplaySecondLeaf(r: Restored, ns: seq<Name>, n: Name, held: map<Owner, nat>)
    requires NodesReplayed(r, ns, held) && n !in ns && IsLeaf(n) && RackKey(n) in r.rackSeen
    requires Exclusive(held) && NodeOwners(n) <= held.Keys
    ensures RestoreNode(r, NodeOf(n, held)).Some?
    ensures NodesReplayed(RestoreNode(r, NodeOf(n, held)).value, ns + [n], held)
  {
    hide Pin, Books, Sub, SlotsFit, Exclusive, LoopbackNumber, VlanNumber, LoopbackAt, PinnedBy, RacksIn;
    PinnedByAre(ns, n, n.pod, n.rack);
    LeafNumbers(n, held);
    PinSucceeds(r.st, LoopbackOf(n), held);
    PinnedByAppend(ns, n);
    SlotsSame(r, RestoreNode(r, NodeOf(n, held)).value);
  }

  /** The first leaf of a rack also brings back the rack's subnet and number. */
  lemma ReplayFirstLeaf(r: Restored, ns: seq<Name>, n: Name, held: map<Owner, nat>)
    requires NodesReplayed(r, ns, held) && n !in ns && IsLeaf(n) && RackKey(n) !in r.rackSeen
    requires Exclusive(held) && NodeOwners(n) <= held.Keys
    ensures RestoreNode(r, NodeOf(n, held)).Some?
    ensures NodesReplayed(RestoreNode(r, NodeOf(n, held)).value, ns + [n], held)
  {
    hide Pin, Books, Sub, SlotsFit, Exclusive, LoopbackNumber, VlanNumber, LoopbackAt, PinnedBy, RacksIn;
    var loop, vlan := LoopbackOf(n), VlanOf(n.pod, n.rack);
    PinnedByAre(ns, n, n.pod, n.rack);
    LeafNumbers(n, held);
    PinSucceeds(r.st, loop, held);
    PinSucceeds(Pin(r.st, loop, Some(held[loop])).value, vlan, held);
    PinnedByAppend(ns, n);
    SlotsGrow(r, RestoreNode(r, NodeOf(n, held)).value, n.pod, n.rack);
  }

  lemma NothingReplayed(held: map<Owner, nat>)
    ensures NodesReplayed(Restored(Empty(), {}, map[], 0), [], held)
  {
    FreshBooks();
  }

  lemma ReplayNode(r: Restored, ns: seq<Name>, n: Name, held: map<Owner, nat>)
    requires NodesReplayed(r, ns, held) && n !in ns
    requires Exclusive(held) && NodeOwners(n) <= held.Keys
    ensures RestoreNode(r, NodeOf(n, held)).Some?
    ensures NodesReplayed(RestoreNode(r, NodeOf(n, held)).value, ns + [n], held)
  {
    hide NodesReplayed, Exclusive, RestoreNode, NodeOf, NodeOwners;
    if IsRouter(n) {
      ReplayRouter(r, ns, n, held);
    } else if n.ServerName? {
      ReplayServer(r, ns, n, held);
    } else if RackKey(n) in r.rackSeen {
      ReplaySecondLeaf(r, ns, n, held);
    } else {
      ReplayFirstLeaf(r, ns, n, held);
    }
  }

  ghost predicate Rendered(nodes: seq<Node>, held: map<Owner, nat>) {
    && Distinct(NodeNames(nodes))
    && forall node :: node in nodes ==> node == NodeOf(node.name, held) && NodeOwners(node.name) <= held.Keys
  }

  lemma RenderedPrefix(nodes: seq<Node>, held: map<Owner, nat>)
    requires nodes != [] && Rendered(nodes, held)
    ensures var init, last := nodes[..|nodes| - 1], nodes[|nodes| - 1];
            && Rendered(init, held) && last.name !in NodeNames(init)
            && last == NodeOf(last.name, held) && NodeOwners(last.name) <= held.Keys
            && NodeNames(nodes) == NodeNames(init) + [last.name]
  {
    var init, last := nodes[..|nodes| - 1], nodes[|nodes| - 1];
    assert NodeNames(nodes) == NodeNames(init) + [last.name];
    DistinctAppend(NodeNames(init), last.name);
    assert last in nodes && forall node :: node in init ==> node in nodes;
  }

  lemma {:induction false} ReplayNodes(nodes: seq<Node>, held: map<Owner, nat>)
    requires Exclusive(held) && Rendered(nodes, held)
    ensures RestoreNodes(Restored(Empty(), {}, map[], 0), nodes).Some?
    ensures NodesReplayed(RestoreNodes(Restored(Empty(), {}, map[], 0), nodes).value, NodeNames(nodes), held)
  {
    hide NodesReplayed, Exclusive, Rendered, RestoreNode, Empty, NodeOf, NodeOwners;
    if nodes == [] {
      NothingReplayed(held);
      assert NodeNames(nodes) == [];
    } else {
      var init, last := nodes[..|nodes| - 1], nodes[|nodes| - 1];
      RenderedPrefix(nodes, held);
      ReplayNodes(init, held);
      ReplayNode(RestoreNodes(Restored(Empty(), {}, map[], 0), init).value, NodeNames(init), last.name, held);
    }
  }

  lemma ReplayServer(r: Restored, ns: seq<Name>, n: Name, held: map<Owner, nat>)
    requires NodesReplayed(r, ns, held) && n.ServerName?
    ensures RestoreNode(r, NodeOf(n, held)) == Some(r) && NodesReplayed(r, ns + [n], held)
  {
  }

  // ---------- links ----------

  ghost predicate LinksReplayed(st: St, st0: St, ls: seq<LinkName>, h: Holds) {
    && Books(st.ranges, st.pins) && Sub(st.pins, h.held)
    && (forall o :: o in st.pins <==> o in st0.pins || (o.P2POf? && o.ln in ls && KindOf(o.ln).Fabric?))
    && (forall ln :: ln in st.basePorts <==> ln in ls)
    && (forall ln :: ln in st.basePorts ==> ln in h.ports && st.basePorts[ln] == h.ports[ln])
    && (forall l, e :: l in st.basePorts ==> PortAt(st.basePorts, l, e) <= Index(st.ifIndex, NodeAt(l, e)))
    && st == st0.(ranges := st.ranges, pins := st.pins, basePorts := st.basePorts, ifIndex := st.ifIndex)
  }

  lemma RaiseKeeps(m: map<Name, nat>, ep: Endpoint, n: Name)
    ensures Index(m, n) <= Index(Raise(m, ep), n) && ep.eth <= Index(Raise(m, ep), ep.node)
  {
  }

  lemma ReplayLink(st: St, st0: St, ls: seq<LinkName>, ln: LinkName, h: Holds)
    requires LinksReplayed(st, st0, ls, h) && ln !in ls && ln in h.ports && Exclusive(h.held)
    requires KindOf(ln).Fabric? ==> P2POf(ln) in h.held && P2POf(ln) !in st0.pins
    ensures RestoreLink(st, LinkOf(ln, h.held, h.ports)).Some?
    ensures LinksReplayed(RestoreLink(st, LinkOf(ln, h.held, h.ports)).value, st0, ls + [ln], h)
  {
    hide Pin, Books, Sub, Exclusive, P2PNumber, P2PAt, Raise;
    var link := LinkOf(ln, h.held, h.ports);
    var s1 := st.(basePorts := st.basePorts[ln := h.ports[ln]]);
    if KindOf(ln).Fabric? {
      PoolBound(h.held, P2POf(ln));
      NumbersReadBack(h.held[P2POf(ln)], 0);
      PinSucceeds(s1, P2POf(ln), h.held);
    }
    var st' := RestoreLink(st, link).value;
    var mid := Raise(st.ifIndex, link.a);
    forall l, e | l in st'.basePorts
      ensures PortAt(st'.basePorts, l, e) <= Index(st'.ifIndex, NodeAt(l, e))
    {
      RaiseKeeps(st.ifIndex, link.a, NodeAt(l, e));
      RaiseKeeps(mid, link.z, NodeAt(l, e));
      RaiseKeeps(mid, link.z, ln.a);
      if l != ln { assert PortAt(st'.basePorts, l, e) == PortAt(st.basePorts, l, e); }
    }
  }

  lemma {:induction false} ReplayLinks(st0: St, links: seq<Link>, h: Holds)
    requires Books(st0.ranges, st0.pins) && Sub(st0.pins, h.held) && st0.basePorts == map[]
    requires Exclusive(h.held) && Distinct(LinkNames(links))
    requires forall link :: link in links ==>
               && link == LinkOf(link.name, h.held, h.ports) && link.name in h.ports
               && (KindOf(link.name).Fabric? ==> P2POf(link.name) in h.held && P2POf(link.name) !in st0.pins)
    ensures RestoreLinks(st0, links).Some?
    ensures LinksReplayed(RestoreLinks(st0, links).value, st0, LinkNames(links), h)
  {
    if links != [] {
      hide LinksReplayed, Exclusive, RestoreLink, Books, Sub, LinkOf, KindOf;
      var init, last := links[..|links| - 1], links[|links| - 1];
      assert LinkNames(links) == LinkNames(init) + [last.name];
      assert last in links && forall link :: link in init ==> link in links;
      DistinctAppend(LinkNames(init), last.name);
      ReplayLinks(st0, init, h);
      ReplayLink(RestoreLinks(st0, init).value, st0, LinkNames(init), last.name, h);
    }
  }
}
