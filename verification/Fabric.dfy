/**
 The resource model of one lab: device and link names as structured values, the owners of numbered
 resources, and the specs the builder writes onto nodes and links.
 */
module Fabric {
  import opened Wrappers
  import opened Ranges

  datatype Role = External | DCEdge | SuperSpine | Spine | Leaf | Server

  /** Device names. Racks carry their global number; pods carry their name. */
  datatype Name =
    | ExternalName(i: nat)
    | EdgeName(i: nat)
    | SuperName(i: nat)
    | SpineName(pod: string, i: nat)
    | LeafAName(pod: string, rack: nat)
    | LeafBName(pod: string, rack: nat)
    | ServerName(pod: string, rack: nat, i: nat)

  /** A link is named after its two ends, upper tier first. */
  datatype LinkName = LinkName(a: Name, z: Name)

  function RoleOf(n: Name): Role {
    match n
    case ExternalName(_) => External
    case EdgeName(_) => DCEdge
    case SuperName(_) => SuperSpine
    case SpineName(_, _) => Spine
    case LeafAName(_, _) => Leaf
    case LeafBName(_, _) => Leaf
    case ServerName(_, _, _) => Server
  }

  predicate IsLeaf(n: Name) {
    n.LeafAName? || n.LeafBName?
  }

  predicate IsRouter(n: Name) {
    !IsLeaf(n) && !n.ServerName?
  }

  datatype Pool = AsnPool(role: Role) | Loopback | FabricP2P | ServerVlan

  /** Who holds a numbered resource. A rack's leaf ASN is computed, not taken from a range. */
  datatype Owner =
    | AsnOf(n: Name)
    | LoopbackOf(n: Name)
    | P2POf(ln: LinkName)
    | VlanOf(pod: string, rack: nat)
    | RackAsnOf(pod: string, rack: nat)

  function PoolOf(o: Owner): Pool {
    match o
    case AsnOf(n) => AsnPool(RoleOf(n))
    case LoopbackOf(_) => Loopback
    case P2POf(_) => FabricP2P
    case VlanOf(_, _) => ServerVlan
    case RackAsnOf(_, _) => AsnPool(Leaf)
  }

  // The address pools and ASN plan every lab is created with. Addresses are 32-bit words.
  const FABRIC_BASE := 0x0A00_0000
  const LOOPBACK_BASE := 0x0A01_0000
  const VLAN_BASE := 0x0A64_0000
  const SERVER_ASN := 65000
  const LEAF_RACK_ASN_BASE := 4200080000
  const SERVER_VLAN_ID := 1000
  const LINK_MTU := 9100

  datatype Prefix = Prefix(addr: nat, bits: nat)

  /** Leaf ASNs are computed and servers share one, so neither role has a range. */
  predicate HasRange(p: Pool) {
    p != AsnPool(Leaf) && p != AsnPool(Server)
  }

  function First(p: Pool): nat {
    match p
    case AsnPool(External) => 64500
    case AsnPool(DCEdge) => 64600
    case AsnPool(SuperSpine) => 65100
    case AsnPool(Spine) => 65200
    case _ => 0
  }

  function Last(p: Pool): nat {
    match p
    case AsnPool(External) => 64599
    case AsnPool(DCEdge) => 64699
    case AsnPool(SuperSpine) => 65199
    case AsnPool(Spine) => 65999
    case AsnPool(_) => 0
    case Loopback => 65535
    case FabricP2P => 32767
    case ServerVlan => 255
  }

  function FreshRanges(): map<Pool, Range<Owner>> {
    map p | p in {AsnPool(External), AsnPool(DCEdge), AsnPool(SuperSpine), AsnPool(Spine), Loopback, FabricP2P, ServerVlan}
      :: Fresh(First(p), Last(p))
  }

  /** The address a host has inside the subnet with the given number. */
  function LoopbackAt(k: nat): Prefix {
    Prefix(LOOPBACK_BASE + k, 32)
  }

  function P2PAt(k: nat, host: nat): Prefix {
    Prefix(FABRIC_BASE + 2 * k + host, 31)
  }

  function VlanHost(k: nat, host: nat): nat {
    VLAN_BASE + 256 * k + host
  }

  /** The number of the subnet an address belongs to: mask it and look it up in the pool. */
  function LoopbackNumber(p: Prefix): Option<nat> {
    if p.bits == 32 && LOOPBACK_BASE <= p.addr < LOOPBACK_BASE + 65536 then Some(p.addr - LOOPBACK_BASE) else None
  }

  function P2PNumber(p: Prefix): Option<nat> {
    if p.bits == 31 && FABRIC_BASE <= p.addr < FABRIC_BASE + 65536 then Some((p.addr - FABRIC_BASE) / 2) else None
  }

  function VlanNumber(p: Prefix): Option<nat> {
    if p.bits == 24 && VLAN_BASE <= p.addr < VLAN_BASE + 65536 then Some((p.addr - VLAN_BASE) / 256) else None
  }

  /** `LeafRackASNBase + uint32(rackNum)`. */
  function RackAsn(rack: nat): nat {
    (LEAF_RACK_ASN_BASE + rack) % WORD
  }

  /** Two racks share an ASN only if their numbers agree modulo 2^32. */
  lemma RackAsnInjective(r1: nat, r2: nat)
    ensures RackAsn(r1) == RackAsn(r2) <==> r1 % WORD == r2 % WORD
  {
    assert (LEAF_RACK_ASN_BASE + r1) % WORD == (LEAF_RACK_ASN_BASE + r1 % WORD) % WORD;
    assert (LEAF_RACK_ASN_BASE + r2) % WORD == (LEAF_RACK_ASN_BASE + r2 % WORD) % WORD;
  }

  /** The VRRP group of a rack; its virtual MAC ends in the same byte. */
  function VrrpGroup(rack: nat): nat {
    if rack == 0 then 0 else (rack - 1) % 255 + 1
  }

  datatype NodeSpec =
    | RouterSpec(role: Role, pod: string, asn: nat, loopback: Prefix)
    | LeafSpec(pod: string, rack: nat, asn: nat, loopback: Prefix, mlagPeer: Name, vlanId: nat,
               vlanIP: Prefix, gateway: nat, gatewayMAC: nat, vrrpGroup: nat, vrrpPriority: nat)
    | ServerSpec(pod: string, rack: nat, asn: nat, address: Prefix, gateway: nat, bgpPeers: seq<nat>)

  datatype Node = Node(name: Name, spec: NodeSpec)

  datatype LinkKind = Fabric | ServerAccess | MLAGPeer

  datatype Endpoint = Endpoint(node: Name, eth: nat, address: Option<Prefix>)

  datatype Link = Link(name: LinkName, kind: LinkKind, vlanId: nat, a: Endpoint, z: Endpoint, mtu: nat)

  datatype Topo = Topo(nodes: seq<Node>, links: seq<Link>)

  function KindOf(ln: LinkName): LinkKind {
    if ln.z.ServerName? then ServerAccess
    else if ln.a.LeafAName? && ln.z.LeafBName? then MLAGPeer
    else Fabric
  }

  function PodOf(n: Name): string {
    match n
    case SpineName(pod, _) => pod
    case LeafAName(pod, _) => pod
    case LeafBName(pod, _) => pod
    case ServerName(pod, _, _) => pod
    case _ => ""
  }

  function RouterNode(n: Name, asn: nat, loopback: nat): Node {
    Node(n, RouterSpec(RoleOf(n), PodOf(n), asn, LoopbackAt(loopback)))
  }

  /** One member of a rack's MLAG pair: host 2 or 3 of the rack subnet, virtual gateway host 1. */
  function LeafNode(n: Name, loopback: nat, subnet: nat): Node
    requires IsLeaf(n)
  {
    var peer := if n.LeafAName? then LeafBName(n.pod, n.rack) else LeafAName(n.pod, n.rack);
    Node(n, LeafSpec(
      n.pod, n.rack, RackAsn(n.rack), LoopbackAt(loopback), peer, SERVER_VLAN_ID,
      Prefix(VlanHost(subnet, if n.LeafAName? then 2 else 3), 24), VlanHost(subnet, 1),
      VrrpGroup(n.rack), VrrpGroup(n.rack), if n.LeafAName? then 200 else 100))
  }

  /** A dual-homed server: host 10+i, peering with the two physical leaf addresses. */
  function ServerNode(n: Name, subnet: nat): Node
    requires n.ServerName?
  {
    Node(n, ServerSpec(n.pod, n.rack, SERVER_ASN, Prefix(VlanHost(subnet, 10 + n.i), 24),
                       VlanHost(subnet, 1), [VlanHost(subnet, 2), VlanHost(subnet, 3)]))
  }

  /** A link with its ends on the given interfaces; only fabric links carry a /31. */
  function LinkWith(ln: LinkName, subnet: nat, ethA: nat, ethZ: nat): Link {
    if KindOf(ln).Fabric? then
      Link(ln, KindOf(ln), 0, Endpoint(ln.a, ethA, Some(P2PAt(subnet, 0))),
           Endpoint(ln.z, ethZ, Some(P2PAt(subnet, 1))), LINK_MTU)
    else
      Link(ln, KindOf(ln), SERVER_VLAN_ID, Endpoint(ln.a, ethA, None), Endpoint(ln.z, ethZ, None), LINK_MTU)
  }

  function Value(held: map<Owner, nat>, o: Owner): nat {
    if o in held then held[o] else 0
  }

  /** Everything on a node follows from its name and the numbers it, or its rack, holds. */
  function NodeOf(n: Name, held: map<Owner, nat>): Node {
    if IsLeaf(n) then LeafNode(n, Value(held, LoopbackOf(n)), Value(held, VlanOf(n.pod, n.rack)))
    else if n.ServerName? then ServerNode(n, Value(held, VlanOf(n.pod, n.rack)))
    else RouterNode(n, Value(held, AsnOf(n)), Value(held, LoopbackOf(n)))
  }

  function LinkOf(ln: LinkName, held: map<Owner, nat>, eth: map<LinkName, (nat, nat)>): Link {
    var ports := if ln in eth then eth[ln] else (0, 0);
    LinkWith(ln, Value(held, P2POf(ln)), ports.0, ports.1)
  }

  /** The tier adjacency of the fabric. */
  predicate Adjacent(ln: LinkName) {
    match (ln.a, ln.z)
    case (ExternalName(_), EdgeName(_)) => true
    case (EdgeName(_), SuperName(_)) => true
    case (SuperName(_), SpineName(_, _)) => true
    case (SpineName(p, _), LeafAName(q, _)) => p == q
    case (SpineName(p, _), LeafBName(q, _)) => p == q
    case (LeafAName(p, r), LeafBName(q, s)) => p == q && r == s
    case (LeafAName(p, r), ServerName(q, s, _)) => p == q && r == s
    case (LeafBName(p, r), ServerName(q, s, _)) => p == q && r == s
    case _ => false
  }
}
