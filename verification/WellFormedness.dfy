/**
 Well-formedness of a topology in plain terms, with no reference to how it was built, and the proof that
 every certified topology has it.
 */
module WellFormedness {
  import opened Wrappers
  import opened Sequences
  import opened Ranges
  import opened Fabric
  import opened Script
  import opened ScriptFacts
  import opened Build
  import opened BuildInvariant
  import opened Certification
  import opened Rebuilds
  import opened RebuildTheorems

  /** A place an IPv4 address can sit in a lab. */
  datatype Spot = LoopbackSpot(n: Name) | LinkSpot(ln: LinkName, end: bool) | VlanSpot(n: Name) | GatewaySpot(rack: nat)

  function EndOf(link: Link, end: bool): Endpoint {
    if end then link.z else link.a
  }

  ghost predicate AddressOnNode(node: Node, spot: Spot, addr: nat) {
    match node.spec
    case RouterSpec(_, _, _, loopback) => spot == LoopbackSpot(node.name) && addr == loopback.addr
    case LeafSpec(_, rack, _, loopback, _, _, vlanIP, gateway, _, _, _) =>
      || (spot == LoopbackSpot(node.name) && addr == loopback.addr)
      || (spot == VlanSpot(node.name) && addr == vlanIP.addr)
      || (spot == GatewaySpot(rack) && addr == gateway)
    case ServerSpec(_, rack, _, address, gateway, _) =>
      || (spot == VlanSpot(node.name) && addr == address.addr)
      || (spot == GatewaySpot(rack) && addr == gateway)
  }

  ghost predicate AddressOnLink(link: Link, spot: Spot, addr: nat) {
    && spot.LinkSpot? && spot.ln == link.name
    && EndOf(link, spot.end).address.Some? && EndOf(link, spot.end).address.value.addr == addr
  }

  ghost predicate HasAddress(t: Topo, spot: Spot, addr: nat) {
    || (exists node :: node in t.nodes && AddressOnNode(node, spot, addr))
    || (exists link :: link in t.links && AddressOnLink(link, spot, addr))
  }

  /** No address is used in two places, across loopbacks, link ends, VLAN interfaces and gateways. */
  ghost predicate AddressesUnique(t: Topo) {
    forall spot, spot', addr :: HasAddress(t, spot, addr) && HasAddress(t, spot', addr) ==> spot == spot'
  }

  ghost predicate EndsExist(t: Topo) {
    forall link :: link in t.links ==>
      && link.a.node in NodeNames(t.nodes) && link.z.node in NodeNames(t.nodes)
      && link.name == LinkName(link.a.node, link.z.node)
  }

  ghost predicate InterfacesUnique(t: Topo) {
    forall l, e, l', e' ::
      (l in t.links && l' in t.links && EndOf(l, e).node == EndOf(l', e').node && EndOf(l, e).eth == EndOf(l', e').eth)
      ==> l == l' && e == e'
  }

  ghost predicate RacksGlobal(t: Topo) {
    forall node, node' ::
      (node in t.nodes && node' in t.nodes && !node.spec.RouterSpec? && !node'.spec.RouterSpec?)
      ==> node.spec.rack == node'.spec.rack ==> node.spec.pod == node'.spec.pod
  }

  /** Router ASNs differ within a role; leaves share one exactly when their rack numbers agree in 32 bits. */
  ghost predicate AsnsUnique(t: Topo) {
    && (forall node, node' ::
          (node in t.nodes && node' in t.nodes && node.spec.RouterSpec? && node'.spec.RouterSpec?)
          ==> node.spec.role == node'.spec.role && node.spec.asn == node'.spec.asn ==> node == node')
    && (forall node, node' :: node in t.nodes && node' in t.nodes && node.spec.LeafSpec? && node'.spec.LeafSpec? ==>
          (node.spec.asn == node'.spec.asn <==> node.spec.rack % WORD == node'.spec.rack % WORD))
  }

  /** The two leaves of a rack and its servers live in one /24, with the same virtual gateway. */
  ghost predicate RackSubnets(t: Topo) {
    forall node, node' :: node in t.nodes && node' in t.nodes && !node.spec.RouterSpec? && !node'.spec.RouterSpec? ==>
      && VlanPrefix(node.spec).bits == 24
      && VlanPrefix(node.spec).addr / 256 == node.spec.gateway / 256
      && (node.spec.rack == node'.spec.rack <==> node.spec.gateway == node'.spec.gateway)
      && (node.spec.rack != node'.spec.rack ==> VlanPrefix(node.spec).addr / 256 != VlanPrefix(node'.spec).addr / 256)
  }

  /**
   Every rack is complete: both leaves are there, each other's MLAG peer, with one VRRP group and the a side
   preferred, and a server peers with the two physical leaf addresses behind the same gateway.
   */
  ghost predicate RacksComplete(t: Topo) {
    && (forall node :: node in t.nodes && !node.spec.RouterSpec? ==>
          && LeafAName(node.spec.pod, node.spec.rack) in NodeNames(t.nodes)
          && LeafBName(node.spec.pod, node.spec.rack) in NodeNames(t.nodes))
    && (forall a, b :: a in t.nodes && b in t.nodes && a.name.LeafAName? && b.name == LeafBName(a.name.pod, a.name.rack) ==>
          && a.spec.LeafSpec? && b.spec.LeafSpec?
          && a.spec.mlagPeer == b.name && b.spec.mlagPeer == a.name && a.spec.asn == b.spec.asn
          && a.spec.vrrpGroup == b.spec.vrrpGroup && a.spec.vrrpPriority > b.spec.vrrpPriority)
    && (forall s, a, b ::
          (s in t.nodes && a in t.nodes && b in t.nodes && s.name.ServerName?
           && a.name == LeafAName(s.name.pod, s.name.rack) && b.name == LeafBName(s.name.pod, s.name.rack))
          ==> s.spec.ServerSpec? && a.spec.LeafSpec? && b.spec.LeafSpec?
              && s.spec.bgpPeers == [a.spec.vlanIP.addr, b.spec.vlanIP.addr])
  }

  /** Fabric links carry the two addresses of one /31, other links none. */
  ghost predicate LinksAddressed(t: Topo) {
    forall link :: link in t.links ==>
      if link.kind.Fabric? then
        && link.a.address.Some? && link.z.address.Some?
        && link.a.address.value.bits == 31 && link.z.address.value.bits == 31
        && link.a.address.value.addr % 2 == 0 && link.z.address.value.addr == link.a.address.value.addr + 1
        && 0x0A00_0000 <= link.a.address.value.addr < 0x0A01_0000
      else link.a.address.None? && link.z.address.None?
  }

  /** Devices of neighbouring tiers face each other: within a pod below the spines, within a rack below the leaves. */
  ghost predicate Facing(a: Name, z: Name) {
    || (RoleOf(a) == External && RoleOf(z) == DCEdge)
    || (RoleOf(a) == DCEdge && RoleOf(z) == SuperSpine)
    || (RoleOf(a) == SuperSpine && RoleOf(z) == Spine)
    || (RoleOf(a) == Spine && RoleOf(z) == Leaf && a.pod == z.pod)
    || (RoleOf(a) == Leaf && RoleOf(z) == Server && a.pod == z.pod && a.rack == z.rack)
    || (a.LeafAName? && z == LeafBName(a.pod, a.rack))
  }

  /** Exactly the devices that face each other are linked: every server to both leaves of its rack, and so on up. */
  ghost predicate Meshed(t: Topo) {
    forall a, z :: LinkName(a, z) in LinkNames(t.links) <==> a in NodeNames(t.nodes) && z in NodeNames(t.nodes) && Facing(a, z)
  }

  /** What a link is follows from its two ends; links of a rack trunk its VLAN. */
  ghost predicate LinksPlain(t: Topo) {
    forall link :: link in t.links ==>
      && (link.kind == ServerAccess <==> link.z.node.ServerName?)
      && (link.kind == MLAGPeer <==>
            link.a.node.LeafAName? && link.z.node == LeafBName(link.a.node.pod, link.a.node.rack))
      && (link.kind == LinkKind.Fabric <==>
            !link.z.node.ServerName? && !(link.a.node.LeafAName? && link.z.node.LeafBName?))
      && link.vlanId == (if link.kind == LinkKind.Fabric then 0 else 1000) && link.mtu == 9100
  }

  /** The ASNs of a tier. */
  ghost predicate TierAsn(n: Name, asn: nat) {
    match n
    case ExternalName(_) => 64500 <= asn <= 64599
    case EdgeName(_) => 64600 <= asn <= 64699
    case SuperName(_) => 65100 <= asn <= 65199
    case SpineName(_, _) => 65200 <= asn <= 65999
    case _ => true
  }

  /**
   What a device carries, in numbers: routers an ASN of their tier and a loopback in 10.1.0.0/16; leaves the rack's
   ASN, VLAN 1000, the .2 or .3 of their rack's subnet, its .1 as gateway, and the rack's VRRP group with priority
   200 or 100; servers ASN 65000 and an address counted from .11.
   */
  ghost predicate NodesPlain(t: Topo) {
    forall node :: node in t.nodes ==>
      match node.spec
      case RouterSpec(role, pod, asn, loopback) =>
        && role == (match node.name
                    case ExternalName(_) => External
                    case EdgeName(_) => DCEdge
                    case SuperName(_) => SuperSpine
                    case _ => Spine)
        && IsRouter(node.name) && pod == (if node.name.SpineName? then node.name.pod else "")
        && TierAsn(node.name, asn) && loopback.bits == 32 && 0x0A01_0000 <= loopback.addr < 0x0A02_0000
      case LeafSpec(pod, rack, asn, loopback, _, vlanId, vlanIP, gateway, gatewayMAC, vrrpGroup, vrrpPriority) =>
        && (node.name == LeafAName(pod, rack) || node.name == LeafBName(pod, rack))
        && asn == (4200080000 + rack) % 0x1_0000_0000
        && loopback.bits == 32 && 0x0A01_0000 <= loopback.addr < 0x0A02_0000
        && vlanId == 1000 && 0x0A64_0000 <= gateway < 0x0A65_0000 && gateway % 256 == 1
        && vlanIP == Prefix(gateway + (if node.name.LeafAName? then 1 else 2), 24)
        && gatewayMAC == vrrpGroup && (rack >= 1 ==> vrrpGroup == (rack - 1) % 255 + 1)
        && vrrpPriority == (if node.name.LeafAName? then 200 else 100)
      case ServerSpec(pod, rack, asn, address, gateway, _) =>
        && node.name.ServerName? && node.name == ServerName(pod, rack, node.name.i)
        && asn == 65000 && 0x0A64_0000 <= gateway < 0x0A65_0000 && gateway % 256 == 1
        && address == Prefix(gateway + 9 + node.name.i, 24)
  }

  function VlanPrefix(spec: NodeSpec): Prefix
    requires !spec.RouterSpec?
  {
    if spec.LeafSpec? then spec.vlanIP else spec.address
  }

  ghost predicate WellFormed(t: Topo) {
    && Distinct(NodeNames(t.nodes)) && Distinct(LinkNames(t.links))
    && EndsExist(t) && InterfacesUnique(t) && AddressesUnique(t)
    && RacksGlobal(t) && AsnsUnique(t) && RackSubnets(t) && RacksComplete(t) && LinksAddressed(t)
    && LinksPlain(t) && NodesPlain(t) && Meshed(t)
  }

  /** Server addresses stay inside their rack's /24 exactly up to the 245th server. */
  predicate ServersFit(s: Shape) {
    forall p :: p in s.pods ==> p.servers <= 245
  }

  lemma ServerInsideSubnet(n: Name, subnet: nat)
    requires n.ServerName?
    ensures ServerNode(n, subnet).spec.address.addr / 256 == ServerNode(n, subnet).spec.gateway / 256 <==> n.i <= 245
  {
  }

  /** The assignment decides every address, and different spots decide differently. */
  ghost function SpotAddress(spot: Spot, h: Holds): nat {
    match spot
    case LoopbackSpot(n) => LOOPBACK_BASE + Value(h.held, LoopbackOf(n))
    case LinkSpot(ln, end) => FABRIC_BASE + 2 * Value(h.held, P2POf(ln)) + if end then 1 else 0
    case VlanSpot(n) =>
      (match n
       case LeafAName(pod, rack) => VlanHost(Value(h.held, VlanOf(pod, rack)), 2)
       case LeafBName(pod, rack) => VlanHost(Value(h.held, VlanOf(pod, rack)), 3)
       case ServerName(pod, rack, i) => VlanHost(Value(h.held, VlanOf(pod, rack)), 10 + i)
       case _ => 0)
    case GatewaySpot(_) => 0
  }

  ghost predicate SpotExists(s: Shape, spot: Spot) {
    match spot
    case LoopbackSpot(n) => !n.ServerName? && HasNode(s, n)
    case LinkSpot(ln, _) => KindOf(ln).Fabric? && HasLink(s, ln)
    case VlanSpot(n) => (IsLeaf(n) || n.ServerName?) && HasNode(s, n)
    case GatewaySpot(_) => false
  }

  /** An address of a certified topology: where it is and which held number gives it. */
  ghost predicate Placed(s: Shape, h: Holds, spot: Spot, addr: nat) {
    if spot.GatewaySpot? then
      exists pod :: HasNode(s, LeafAName(pod, spot.rack)) && addr == VlanHost(Value(h.held, VlanOf(pod, spot.rack)), 1)
    else SpotExists(s, spot) && addr == SpotAddress(spot, h)
  }

  lemma RackOfNode(s: Shape, n: Name)
    requires HasNode(s, n) && !IsRouter(n)
    ensures HasNode(s, LeafAName(n.pod, n.rack))
    ensures n.ServerName? && ServersFit(s) ==> 1 <= n.i <= 245
  {
  }

  lemma AddressIsPlaced(t: Topo, s: Shape, h: Holds, spot: Spot, addr: nat)
    requires Certified(t, s, h) && HasAddress(t, spot, addr)
    ensures Placed(s, h, spot, addr)
  {
    hide Certified, HasNode;
    if node :| node in t.nodes && AddressOnNode(node, spot, addr) {
      NamesOfNode(t, s, h, node);
      if !IsRouter(node.name) { RackOfNode(s, node.name); }
    } else {
      var link :| link in t.links && AddressOnLink(link, spot, addr);
      NamesOfLink(t, s, h, link);
    }
  }

  /** The pool and subnet number an address is taken from. */
  ghost predicate From(h: Holds, addr: nat, o: Owner, host: nat) {
    && o in h.held
    && match PoolOf(o)
       case Loopback => host == 0 && addr == LOOPBACK_BASE + h.held[o]
       case FabricP2P => host < 2 && addr == FABRIC_BASE + 2 * h.held[o] + host
       case ServerVlan => host < 256 && addr == VlanHost(h.held[o], host)
       case AsnPool(_) => false
  }

  /** Two owners never give the same address: the pools are apart and each number has one holder. */
  lemma OneSource(h: Holds, addr: nat, o: Owner, host: nat, o': Owner, host': nat)
    requires Exclusive(h.held) && From(h, addr, o, host) && From(h, addr, o', host')
    ensures o == o' && host == host'
  {
  }

  function SpotOwner(spot: Spot): Owner {
    match spot
    case LoopbackSpot(n) => LoopbackOf(n)
    case LinkSpot(ln, _) => P2POf(ln)
    case VlanSpot(n) => VlanOf(PodOf(n), if IsRouter(n) then 0 else n.rack)
    case GatewaySpot(rack) => VlanOf("", rack)
  }

  function SpotHost(spot: Spot): nat {
    match spot
    case LoopbackSpot(_) => 0
    case LinkSpot(_, end) => if end then 1 else 0
    case VlanSpot(n) => if n.LeafAName? then 2 else if n.LeafBName? then 3 else if n.ServerName? then 10 + n.i else 0
    case GatewaySpot(_) => 1
  }

  lemma PlacedFrom(s: Shape, h: Holds, spot: Spot, addr: nat) returns (o: Owner)
    requires HoldsFit(s, h) && ServersFit(s) && Placed(s, h, spot, addr)
    ensures From(h, addr, o, SpotHost(spot))
    ensures !spot.GatewaySpot? ==> o == SpotOwner(spot)
    ensures spot.GatewaySpot? ==> o.VlanOf? && o.rack == spot.rack && HasNode(s, LeafAName(o.pod, o.rack))
  {
    hide Exclusive, PortsExclusive, ServersFit;
    if spot.GatewaySpot? {
      var pod :| HasNode(s, LeafAName(pod, spot.rack)) && addr == VlanHost(Value(h.held, VlanOf(pod, spot.rack)), 1);
      o := VlanOf(pod, spot.rack);
      assert Needs(s, o);
    } else {
      o := SpotOwner(spot);
      if spot.VlanSpot? { RackOfNode(s, spot.n); }
      assert Needs(s, o);
    }
  }

  lemma SameSpot(s: Shape, spot: Spot, spot': Spot, o: Owner)
    requires DistinctPods(s) && SpotHost(spot) == SpotHost(spot')
    requires if spot.GatewaySpot? then o.VlanOf? && o.rack == spot.rack else SpotExists(s, spot) && o == SpotOwner(spot)
    requires if spot'.GatewaySpot? then o.VlanOf? && o.rack == spot'.rack else SpotExists(s, spot') && o == SpotOwner(spot')
    ensures spot == spot'
  {
  }

  lemma CertifiedAddresses(t: Topo, s: Shape, h: Holds)
    requires Certified(t, s, h) && ServersFit(s)
    ensures AddressesUnique(t)
  {
    hide Certified, ServersFit, HasAddress, Placed, HasNode, From, Exclusive, DistinctPods, PortsExclusive;
    FitParts(t, s, h);
    HoldsOf(t, s, h);
    forall spot, spot', addr | HasAddress(t, spot, addr) && HasAddress(t, spot', addr)
      ensures spot == spot'
    {
      AddressIsPlaced(t, s, h, spot, addr);
      AddressIsPlaced(t, s, h, spot', addr);
      var o := PlacedFrom(s, h, spot, addr);
      var o' := PlacedFrom(s, h, spot', addr);
      OneSource(h, addr, o, SpotHost(spot), o', SpotHost(spot'));
      PlacedExists(s, h, spot, addr);
      PlacedExists(s, h, spot', addr);
      SameSpot(s, spot, spot', o);
    }
  }

  lemma PlacedExists(s: Shape, h: Holds, spot: Spot, addr: nat)
    requires Placed(s, h, spot, addr)
    ensures spot.GatewaySpot? || SpotExists(s, spot)
  {
  }

  lemma CertifiedLinks(t: Topo, s: Shape, h: Holds)
    requires Certified(t, s, h)
    ensures EndsExist(t) && InterfacesUnique(t)
  {
    hide Certified, HasNode, DistinctPods;
    HoldsOf(t, s, h);
    forall link | link in t.links
      ensures link.a.node in NodeNames(t.nodes) && link.z.node in NodeNames(t.nodes)
      ensures link.name == LinkName(link.a.node, link.z.node) && link.name in h.ports
      ensures link.a.eth == h.ports[link.name].0 && link.z.eth == h.ports[link.name].1
    {
      NamesOfLink(t, s, h, link);
      NameListed(t, s, h, link.name.a);
      NameListed(t, s, h, link.name.z);
    }
    forall l, e, l', e' | l in t.links && l' in t.links && EndOf(l, e).node == EndOf(l', e').node
                          && EndOf(l, e).eth == EndOf(l', e').eth
      ensures l == l' && e == e'
    {
      assert NodeAt(l.name, e) == NodeAt(l'.name, e') && PortAt(h.ports, l.name, e) == PortAt(h.ports, l'.name, e');
      NamesOfLink(t, s, h, l);
      NamesOfLink(t, s, h, l');
    }
  }

  lemma NameListed(t: Topo, s: Shape, h: Holds, n: Name)
    requires Certified(t, s, h) && HasNode(s, n)
    ensures n in NodeNames(t.nodes)
  {
    hide LinksCertified, HoldsFit, DistinctPods;
  }

  lemma CertifiedAsns(t: Topo, s: Shape, h: Holds)
    requires Certified(t, s, h)
    ensures AsnsUnique(t)
  {
    hide Certified, HasNode, PortsExclusive;
    HoldsOf(t, s, h);
    forall node, node' | node in t.nodes && node' in t.nodes && node.spec.RouterSpec? && node'.spec.RouterSpec?
                         && node.spec.role == node'.spec.role && node.spec.asn == node'.spec.asn
      ensures node == node'
    {
      NamesOfNode(t, s, h, node);
      NamesOfNode(t, s, h, node');
      assert Needs(s, AsnOf(node.name)) && Needs(s, AsnOf(node'.name));
      assert PoolOf(AsnOf(node.name)) == PoolOf(AsnOf(node'.name));
    }
    forall node, node' | node in t.nodes && node' in t.nodes && node.spec.LeafSpec? && node'.spec.LeafSpec?
      ensures node.spec.asn == node'.spec.asn <==> node.spec.rack % WORD == node'.spec.rack % WORD
    {
      NamesOfNode(t, s, h, node);
      NamesOfNode(t, s, h, node');
      RackAsnInjective(node.spec.rack, node'.spec.rack);
    }
  }

  lemma RackMember(t: Topo, s: Shape, h: Holds, node: Node)
    requires Certified(t, s, h) && ServersFit(s) && node in t.nodes && !node.spec.RouterSpec?
    ensures HasNode(s, LeafAName(node.spec.pod, node.spec.rack))
    ensures var o := VlanOf(node.spec.pod, node.spec.rack);
            && o in h.held && node.spec.gateway == VlanHost(h.held[o], 1)
            && VlanPrefix(node.spec).bits == 24
            && VlanPrefix(node.spec).addr / 256 == 0x0A6400 + h.held[o] && node.spec.gateway / 256 == 0x0A6400 + h.held[o]
  {
    hide Certified, ServersFit, HasNode;
    NamesOfNode(t, s, h, node);
    RackOfNode(s, node.name);
    HoldsOf(t, s, h);
    assert Needs(s, VlanOf(node.spec.pod, node.spec.rack));
    var k := h.held[VlanOf(node.spec.pod, node.spec.rack)];
    assert VLAN_BASE == 256 * 0x0A6400;
  }

  lemma CertifiedRacks(t: Topo, s: Shape, h: Holds)
    requires Certified(t, s, h) && ServersFit(s)
    ensures RacksGlobal(t) && RackSubnets(t)
  {
    hide Certified, ServersFit, HasNode, PortsExclusive, DistinctPods, HoldsFit;
    FitParts(t, s, h);
    forall node, node' | node in t.nodes && node' in t.nodes && !node.spec.RouterSpec? && !node'.spec.RouterSpec?
      ensures node.spec.rack == node'.spec.rack ==> node.spec.pod == node'.spec.pod
      ensures VlanPrefix(node.spec).bits == 24 && VlanPrefix(node.spec).addr / 256 == node.spec.gateway / 256
      ensures node.spec.rack == node'.spec.rack <==> node.spec.gateway == node'.spec.gateway
      ensures node.spec.rack != node'.spec.rack ==>
                VlanPrefix(node.spec).addr / 256 != VlanPrefix(node'.spec).addr / 256
    {
      RackMember(t, s, h, node);
      RackMember(t, s, h, node');
      if node.spec.rack == node'.spec.rack {
        RackHasOnePod(s, node.spec.pod, node'.spec.pod, node.spec.rack);
      }
      var o, o' := VlanOf(node.spec.pod, node.spec.rack), VlanOf(node'.spec.pod, node'.spec.rack);
      assert h.held[o] == h.held[o'] ==> o == o';
    }
  }

  lemma CertifiedPeers(t: Topo, s: Shape, h: Holds)
    requires Certified(t, s, h)
    ensures RacksComplete(t)
  {
    hide Certified, HasNode;
    forall node | node in t.nodes && !node.spec.RouterSpec?
      ensures LeafAName(node.spec.pod, node.spec.rack) in NodeNames(t.nodes)
      ensures LeafBName(node.spec.pod, node.spec.rack) in NodeNames(t.nodes)
    {
      NamesOfNode(t, s, h, node);
      RackOfNode(s, node.name);
      LeavesPaired(s, node.spec.pod, node.spec.rack);
      NameListed(t, s, h, LeafAName(node.spec.pod, node.spec.rack));
      NameListed(t, s, h, LeafBName(node.spec.pod, node.spec.rack));
    }
    forall node | node in t.nodes ensures node == NodeOf(node.name, h.held) {
      NamesOfNode(t, s, h, node);
    }
  }

  lemma CertifiedLinkAddresses(t: Topo, s: Shape, h: Holds)
    requires Certified(t, s, h)
    ensures LinksAddressed(t)
  {
    hide Certified, HasNode, PortsExclusive;
    HoldsOf(t, s, h);
    forall link | link in t.links
      ensures link == LinkOf(link.name, h.held, h.ports)
      ensures KindOf(link.name).Fabric? ==> Value(h.held, P2POf(link.name)) <= 32767
    {
      NamesOfLink(t, s, h, link);
      if KindOf(link.name).Fabric? { assert Needs(s, P2POf(link.name)); }
    }
  }

  lemma CertifiedLinksPlain(t: Topo, s: Shape, h: Holds)
    requires Certified(t, s, h)
    ensures LinksPlain(t)
  {
    hide Certified, HasNode;
    forall link | link in t.links ensures link == LinkOf(link.name, h.held, h.ports) && Adjacent(link.name) {
      NamesOfLink(t, s, h, link);
    }
  }

  lemma AdjacentIsFacing(ln: LinkName)
    ensures Adjacent(ln) <==> Facing(ln.a, ln.z)
  {
  }

  lemma CertifiedMesh(t: Topo, s: Shape, h: Holds)
    requires Certified(t, s, h)
    ensures Meshed(t)
  {
    hide HasNode, Adjacent, Facing, NodeOf, LinkOf, HoldsFit, DistinctPods;
    forall a, z
      ensures LinkName(a, z) in LinkNames(t.links) <==> a in NodeNames(t.nodes) && z in NodeNames(t.nodes) && Facing(a, z)
    {
      AdjacentIsFacing(LinkName(a, z));
    }
  }

  lemma NodePlain(s: Shape, h: Holds, n: Name)
    requires HoldsFit(s, h) && HasNode(s, n)
    ensures NodesPlain(Topo([NodeOf(n, h.held)], []))
  {
    hide HasNode, PortsExclusive;
    if !IsRouter(n) {
      RackOfNode(s, n);
      assert Needs(s, VlanOf(n.pod, n.rack));
    } else {
      assert Needs(s, AsnOf(n));
    }
    if !n.ServerName? { assert Needs(s, LoopbackOf(n)); }
  }

  lemma CertifiedNodesPlain(t: Topo, s: Shape, h: Holds)
    requires Certified(t, s, h)
    ensures NodesPlain(t)
  {
    hide Certified, HasNode, HoldsFit, NodeOf;
    HoldsOf(t, s, h);
    forall node | node in t.nodes ensures NodesPlain(Topo([node], [])) && node in Topo([node], []).nodes {
      NamesOfNode(t, s, h, node);
      NodePlain(s, h, node.name);
    }
  }

  /** Every certified topology whose racks hold at most 245 servers is well-formed. */
  lemma CertifiedIsWellFormed(t: Topo, s: Shape, h: Holds)
    requires Certified(t, s, h) && ServersFit(s)
    ensures WellFormed(t)
  {
    CertifiedAddresses(t, s, h);
    CertifiedLinks(t, s, h);
    CertifiedAsns(t, s, h);
    CertifiedRacks(t, s, h);
    CertifiedPeers(t, s, h);
    CertifiedLinkAddresses(t, s, h);
    CertifiedLinksPlain(t, s, h);
    CertifiedNodesPlain(t, s, h);
    CertifiedMesh(t, s, h);
  }
}
