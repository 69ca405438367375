/**
 What a rebuild computes: the deployed topology is replayed into the allocators and identity maps,
 and then every item of the new shape is created in order, on the number and the interface it already
 had or on the next free one.
 */
module Build {
  import opened Wrappers
  import opened Ranges
  import opened Fabric
  import opened Script
  import opened Decimal

  /** One allocation record: its pool is the pool of its owner. */
  datatype Record = Record(owner: Owner, value: nat)

  /**
   The builder's state. `pins` and `basePorts` come from the deployed topology; `held` and `ports` are
   what this build has given out so far.
   */
  datatype St = St(
    ranges: map<Pool, Range<Owner>>, pins: map<Owner, nat>, held: map<Owner, nat>,
    basePorts: map<LinkName, (nat, nat)>, ifIndex: map<Name, nat>, ports: map<LinkName, (nat, nat)>,
    nodes: seq<Node>, links: seq<Link>, records: seq<Record>)

  function Empty(): St {
    St(FreshRanges(), map[], map[], map[], map[], map[], [], [], [])
  }

  // ---------- creating items ----------

  /** The owner's pinned number, or a fresh one from its pool. */
  function Take(st: St, o: Owner): Option<St> {
    if o in st.pins then Some(st.(held := st.held[o := st.pins[o]]))
    else if PoolOf(o) !in st.ranges then None
    else
      var g :- Allocate(st.ranges[PoolOf(o)], o);
      Some(st.(ranges := st.ranges[PoolOf(o) := g.range], held := st.held[o := g.number]))
  }

  function Index(m: map<Name, nat>, n: Name): nat {
    if n in m then m[n] else 0
  }

  function Recorded(st: St, o: Owner): Record {
    Record(o, Value(st.held, o))
  }

  function AddRouter(st: St, n: Name): Option<St> {
    var s1 :- Take(st, AsnOf(n));
    var s2 :- Take(s1, LoopbackOf(n));
    Some(s2.(nodes := s2.nodes + [RouterNode(n, Value(s2.held, AsnOf(n)), Value(s2.held, LoopbackOf(n)))],
             records := s2.records + [Recorded(s2, AsnOf(n)), Recorded(s2, LoopbackOf(n))]))
  }

  function ServerNodes(pod: string, rack: nat, n: nat, subnet: nat): seq<Node> {
    if n == 0 then [] else ServerNodes(pod, rack, n - 1, subnet) + [ServerNode(ServerName(pod, rack, n), subnet)]
  }

  /** The rack subnet, both leaves, and the servers; the links follow as items of their own. */
  function AddRack(st: St, pod: string, rack: nat, servers: nat): Option<St> {
    var a, b := LeafAName(pod, rack), LeafBName(pod, rack);
    var s1 :- Take(st, VlanOf(pod, rack));
    var s2 :- Take(s1, LoopbackOf(a));
    var s3 :- Take(s2, LoopbackOf(b));
    var subnet := Value(s3.held, VlanOf(pod, rack));
    Some(s3.(nodes := s3.nodes
                      + [LeafNode(a, Value(s3.held, LoopbackOf(a)), subnet), LeafNode(b, Value(s3.held, LoopbackOf(b)), subnet)]
                      + ServerNodes(pod, rack, servers, subnet),
             records := s3.records
                        + [Recorded(s3, LoopbackOf(a)), Recorded(s3, LoopbackOf(b)),
                           Record(RackAsnOf(pod, rack), RackAsn(rack)), Recorded(s3, VlanOf(pod, rack))]))
  }

  /** The interfaces the deployed link sits on, or each end's next index. */
  function AddPorts(st: St, ln: LinkName): St {
    if ln in st.basePorts then st.(ports := st.ports[ln := st.basePorts[ln]])
    else
      var idx1 := st.ifIndex[ln.a := Index(st.ifIndex, ln.a) + 1];
      var idx2 := idx1[ln.z := Index(idx1, ln.z) + 1];
      st.(ifIndex := idx2, ports := st.ports[ln := (Index(idx1, ln.a), Index(idx2, ln.z))])
  }

  function AddLink(st: St, ln: LinkName): Option<St> {
    var s1 :- if KindOf(ln).Fabric? then Take(st, P2POf(ln)) else Some(st);
    var s2 := AddPorts(s1, ln);
    Some(s2.(links := s2.links + [LinkWith(ln, Value(s2.held, P2POf(ln)), s2.ports[ln].0, s2.ports[ln].1)],
             records := s2.records + if KindOf(ln).Fabric? then [Recorded(s2, P2POf(ln))] else []))
  }

  function Step(st: St, x: Item): Option<St> {
    match x
    case RouterItem(n) => AddRouter(st, n)
    case RackItem(pod, rack, servers) => AddRack(st, pod, rack, servers)
    case WireItem(ln) => AddLink(st, ln)
  }

  function Run(st: St, xs: seq<Item>): Option<St> {
    if xs == [] then Some(st)
    else
      var s1 :- Run(st, xs[..|xs| - 1]);
      Step(s1, xs[|xs| - 1])
  }

  lemma {:induction false} RunConcat(st: St, xs: seq<Item>, ys: seq<Item>)
    ensures Run(st, xs + ys) == match Run(st, xs) case Some(s1) => Run(s1, ys) case None => None
  {
    if ys == [] {
      assert xs + ys == xs;
    } else {
      var init := ys[..|ys| - 1];
      assert (xs + ys)[..|xs + ys| - 1] == xs + init;
      RunConcat(st, xs, init);
    }
  }

  // ---------- replaying the deployed topology ----------

  datatype Restored = Restored(
    st: St, rackSeen: set<(string, nat)>, rackSlots: map<string, seq<nat>>, maxRack: nat)

  function Slots(m: map<string, seq<nat>>, pod: string): seq<nat> {
    if pod in m then m[pod] else []
  }

  /** Records an owner's deployed number and marks it used; `None` when it is not the pool's to give. */
  function Pin(st: St, o: Owner, number: Option<nat>): Option<St> {
    if number.None? || PoolOf(o) !in st.ranges then None
    else
      var range :- Restore(st.ranges[PoolOf(o)], number.value, o);
      Some(st.(ranges := st.ranges[PoolOf(o) := range], pins := st.pins[o := number.value]))
  }

  function RestoreNode(r: Restored, node: Node): Option<Restored> {
    match node.spec
    case ServerSpec(_, _, _, _, _, _) => Some(r)
    case RouterSpec(_, _, asn, loopback) =>
      var s1 :- Pin(r.st, LoopbackOf(node.name), LoopbackNumber(loopback));
      var s2 :- Pin(s1, AsnOf(node.name), Some(asn));
      Some(r.(st := s2))
    case LeafSpec(pod, rack, _, loopback, _, _, vlanIP, _, _, _, _) =>
      var s1 :- Pin(r.st, LoopbackOf(node.name), LoopbackNumber(loopback));
      if (pod, rack) in r.rackSeen then Some(r.(st := s1))
      else
        var s2 :- Pin(s1, VlanOf(pod, rack), VlanNumber(vlanIP));
        Some(Restored(s2, r.rackSeen + {(pod, rack)}, r.rackSlots[pod := Slots(r.rackSlots, pod) + [rack]],
                      if rack > r.maxRack then rack else r.maxRack))
  }

  function RestoreNodes(r: Restored, nodes: seq<Node>): Option<Restored> {
    if nodes == [] then Some(r)
    else
      var r1 :- RestoreNodes(r, nodes[..|nodes| - 1]);
      RestoreNode(r1, nodes[|nodes| - 1])
  }

  function Raise(m: map<Name, nat>, ep: Endpoint): map<Name, nat> {
    if ep.eth > Index(m, ep.node) then m[ep.node := ep.eth] else m
  }

  function RestoreLink(st: St, link: Link): Option<St> {
    var s1 := st.(basePorts := st.basePorts[link.name := (link.a.eth, link.z.eth)]);
    var s2 :- if link.kind.Fabric? then
                Pin(s1, P2POf(link.name), if link.a.address.Some? then P2PNumber(link.a.address.value) else None)
              else Some(s1);
    Some(s2.(ifIndex := Raise(Raise(s2.ifIndex, link.a), link.z)))
  }

  function RestoreLinks(st: St, links: seq<Link>): Option<St> {
    if links == [] then Some(st)
    else
      var s1 :- RestoreLinks(st, links[..|links| - 1]);
      RestoreLink(s1, links[|links| - 1])
  }

  function Insert(xs: seq<nat>, x: nat): seq<nat> {
    if xs == [] || xs[|xs| - 1] <= x then xs + [x] else Insert(xs[..|xs| - 1], x) + [xs[|xs| - 1]]
  }

  /** `sort.Ints`. */
  function SortInts(xs: seq<nat>): seq<nat> {
    if xs == [] then [] else Insert(SortInts(xs[..|xs| - 1]), xs[|xs| - 1])
  }

  function SortedSlots(slots: map<string, seq<nat>>): map<string, seq<nat>> {
    map pod | pod in slots :: SortInts(slots[pod])
  }

  function RestoreBase(base: Topo): Option<Restored> {
    var r1 :- RestoreNodes(Restored(Empty(), {}, map[], 0), base.nodes);
    var s1 :- RestoreLinks(r1.st, base.links);
    Some(r1.(st := s1, rackSlots := SortedSlots(r1.rackSlots)))
  }

  // ---------- rack numbers and the whole build ----------

  datatype PodSpec = PodSpec(name: string, spines: nat, racks: nat, servers: nat)

  datatype TopologySpec = TopologySpec(externals: nat, edges: nat, supers: nat, pods: seq<PodSpec>)

  /** `n` never-used rack numbers. */
  function NewRacks(maxRack: nat, n: nat): seq<nat> {
    if n == 0 then [] else NewRacks(maxRack, n - 1) + [maxRack + n]
  }

  /** Deployed slots keep the number they had, further slots take the next never-used ones. */
  function RacksFor(slots: seq<nat>, maxRack: nat, count: nat): seq<nat> {
    if count <= |slots| then slots[..count] else slots + NewRacks(maxRack, count - |slots|)
  }

  function MaxAfter(slots: seq<nat>, maxRack: nat, count: nat): nat {
    if count <= |slots| then maxRack else maxRack + (count - |slots|)
  }

  datatype Numbered = Numbered(pods: seq<PodShape>, maxRack: nat)

  function NumberPods(slots: map<string, seq<nat>>, maxRack: nat, pods: seq<PodSpec>): Numbered {
    if pods == [] then Numbered([], maxRack)
    else
      var before := NumberPods(slots, maxRack, pods[..|pods| - 1]);
      var p := pods[|pods| - 1];
      var id := PodId(p.name, |pods|);
      Numbered(before.pods + [PodShape(id, p.spines, RacksFor(Slots(slots, id), before.maxRack, p.racks), p.servers)],
               MaxAfter(Slots(slots, id), before.maxRack, p.racks))
  }

  function ShapeFor(r: Restored, spec: TopologySpec): Shape {
    Shape(spec.externals, spec.edges, spec.supers, NumberPods(r.rackSlots, r.maxRack, spec.pods).pods)
  }

  function TopoOf(st: St): Topo {
    Topo(st.nodes, st.links)
  }

  /** A rebuild of the spec on the deployed topology (an empty one for a lab never applied). */
  function Rebuild(spec: TopologySpec, base: Topo): Option<St> {
    var r :- RestoreBase(base);
    Run(r.st, Items(ShapeFor(r, spec)))
  }

  /** The part of a plan preview that consumes resources: a record whose owner the base did not hold. */
  predicate IsNew(r: Restored, rec: Record) {
    match rec.owner
    case RackAsnOf(pod, rack) => (pod, rack) !in r.rackSeen
    case _ => rec.owner !in r.st.pins
  }
}
