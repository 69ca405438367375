/**
 How far a rebuild reaches: it succeeds while every pool has room for its items, it hands out numbers from the
 front of each pool, and a link it adds lands past every interface in use on either end.
 */
module Growth {
  import opened Wrappers
  import opened Ranges
  import opened Fabric
  import opened Script
  import opened ScriptFacts
  import opened Build
  import opened BuildInvariant
  import opened Certification
  import opened RackNumbers
  import opened Rebuilds
  import opened RebuildTheorems

  /** No pool of a lab is smaller than this, and no item takes more than two numbers of one pool. */
  const SMALLEST_POOL := 100

  /** How many numbers a pool's cursor has passed. */
  function Used(ranges: map<Pool, Range<Owner>>, p: Pool): int {
    if p in ranges then ranges[p].next - First(p) else 0
  }

  ghost predicate UsedUpTo(ranges: map<Pool, Range<Owner>>, k: nat) {
    forall p :: Used(ranges, p) <= k
  }

  /** The same, of the numbers themselves. */
  ghost predicate NumbersBelow(held: map<Owner, nat>, k: nat) {
    forall o :: o in held ==> held[o] < First(PoolOf(o)) + k
  }

  // ---------- room ----------

  lemma PoolSound(ranges: map<Pool, Range<Owner>>, p: Pool)
    requires RangesSound(ranges) && HasRange(p)
    ensures p in ranges && Sound(ranges[p]) && ranges[p].released == [] && ranges[p].end < WORD - 1
    ensures ranges[p].start == First(p) && ranges[p].end == Last(p) && First(p) + SMALLEST_POOL <= Last(p) + 1
  {
  }

  lemma TakeFits(st: St, o: Owner)
    requires RangesSound(st.ranges) && HasRange(PoolOf(o)) && Used(st.ranges, PoolOf(o)) < SMALLEST_POOL
    ensures Take(st, o).Some?
    ensures var st' := Take(st, o).value;
            && RangesSound(st'.ranges) && st'.pins == st.pins
            && forall p :: Used(st'.ranges, p) <= Used(st.ranges, p) + if p == PoolOf(o) then 1 else 0
  {
    hide RangesSound, Sound, First, Last;
    var p := PoolOf(o);
    PoolSound(st.ranges, p);
    if o !in st.pins {
      AllocateIsFresh(st.ranges[p], o);
      RangesStaySound(st.ranges, p, Allocate(st.ranges[p], o).value.range);
    }
  }

  lemma StepFits(st: St, x: Item, k: nat)
    requires RangesSound(st.ranges) && WellFormedItem(x) && UsedUpTo(st.ranges, k) && k + 2 <= SMALLEST_POOL
    ensures Step(st, x).Some?
    ensures RangesSound(Step(st, x).value.ranges) && UsedUpTo(Step(st, x).value.ranges, k + 2)
  {
    hide RangesSound, Take, Used, RouterNode, LeafNode, LinkWith, ServerNodes;
    match x
    case RouterItem(n) =>
      TakeFits(st, AsnOf(n));
      TakeFits(Take(st, AsnOf(n)).value, LoopbackOf(n));
    case RackItem(pod, rack, _) =>
      var a, b := LoopbackOf(LeafAName(pod, rack)), LoopbackOf(LeafBName(pod, rack));
      TakeFits(st, VlanOf(pod, rack));
      var s1 := Take(st, VlanOf(pod, rack)).value;
      TakeFits(s1, a);
      TakeFits(Take(s1, a).value, b);
    case WireItem(ln) =>
      if KindOf(ln).Fabric? { TakeFits(st, P2POf(ln)); }
  }

  /** A build with enough room finishes, and takes at most two numbers of a pool for each item. */
  lemma {:induction false} RunFits(st: St, xs: seq<Item>, k: nat)
    requires RangesSound(st.ranges) && AllWellFormed(xs) && UsedUpTo(st.ranges, k) && k + 2 * |xs| <= SMALLEST_POOL
    ensures Run(st, xs).Some?
    ensures RangesSound(Run(st, xs).value.ranges) && UsedUpTo(Run(st, xs).value.ranges, k + 2 * |xs|)
  {
    hide RangesSound, Step, UsedUpTo, WellFormedItem;
    if xs != [] {
      var init, last := xs[..|xs| - 1], xs[|xs| - 1];
      assert xs == init + [last] && last in xs;
      RunFits(st, init, k);
      StepFits(Run(st, init).value, last, k + 2 * |init|);
    }
  }

  /** A cursor stands right behind the largest number restored. */
  ghost predicate Tight(ranges: map<Pool, Range<Owner>>) {
    forall p :: p in ranges ==>
      ranges[p].end < WORD - 1 && (ranges[p].next == First(p) || (ranges[p].next > 0 && ranges[p].next - 1 in ranges[p].held))
  }

  lemma PinTight(st: St, o: Owner, number: Option<nat>)
    requires Tight(st.ranges) && Pin(st, o, number).Some?
    ensures Tight(Pin(st, o, number).value.ranges)
  {
  }

  lemma {:induction false} NodesTight(r: Restored, nodes: seq<Node>)
    requires Tight(r.st.ranges) && RestoreNodes(r, nodes).Some?
    ensures Tight(RestoreNodes(r, nodes).value.st.ranges)
  {
    hide Tight, Pin;
    if nodes != [] {
      var init, node := nodes[..|nodes| - 1], nodes[|nodes| - 1];
      NodesTight(r, init);
      var r1 := RestoreNodes(r, init).value;
      match node.spec
      case ServerSpec(_, _, _, _, _, _) =>
      case RouterSpec(_, _, asn, loopback) =>
        PinTight(r1.st, LoopbackOf(node.name), LoopbackNumber(loopback));
        PinTight(Pin(r1.st, LoopbackOf(node.name), LoopbackNumber(loopback)).value, AsnOf(node.name), Some(asn));
      case LeafSpec(pod, rack, _, loopback, _, _, vlanIP, _, _, _, _) =>
        PinTight(r1.st, LoopbackOf(node.name), LoopbackNumber(loopback));
        if (pod, rack) !in r1.rackSeen {
          PinTight(Pin(r1.st, LoopbackOf(node.name), LoopbackNumber(loopback)).value, VlanOf(pod, rack), VlanNumber(vlanIP));
        }
    }
  }

  lemma {:induction false} LinksTight(st: St, links: seq<Link>)
    requires Tight(st.ranges) && RestoreLinks(st, links).Some?
    ensures Tight(RestoreLinks(st, links).value.ranges)
  {
    hide Tight, Pin;
    if links != [] {
      var init, link := links[..|links| - 1], links[|links| - 1];
      LinksTight(st, init);
      var s1 := RestoreLinks(st, init).value;
      s1 := s1.(basePorts := s1.basePorts[link.name := (link.a.eth, link.z.eth)]);
      if link.kind.Fabric? {
        PinTight(s1, P2POf(link.name), if link.a.address.Some? then P2PNumber(link.a.address.value) else None);
      }
    }
  }

  /** Replaying a base moves no cursor further than its numbers reach. */
  lemma RestoreFits(base: Topo, s: Shape, h: Holds, k: nat)
    requires Certified(base, s, h) && NumbersBelow(h.held, k)
    ensures RestoreBase(base).Some?
    ensures RangesSound(RestoreBase(base).value.st.ranges) && UsedUpTo(RestoreBase(base).value.st.ranges, k)
  {
    hide Certified, SlotsReady, RestoreNodes, RestoreLinks;
    ReplayCertified(base, s, h);
    var r := RestoreBase(base).value;
    var start := Restored(Empty(), {}, map[], 0);
    assert Tight(start.st.ranges);
    NodesTight(start, base.nodes);
    LinksTight(RestoreNodes(start, base.nodes).value.st, base.links);
    ReplayedBooks(r, s, h);
    forall p ensures Used(r.st.ranges, p) <= k {
      if p in r.st.ranges && r.st.ranges[p].next != First(p) {
        var v := r.st.ranges[p].next - 1;
        var o := r.st.ranges[p].held[v];
        assert o in h.held && h.held[o] == v && PoolOf(o) == p;
      }
    }
  }

  lemma ReplayedBooks(r: Restored, s: Shape, h: Holds)
    requires Replayed(r, s, h)
    ensures RangesSound(r.st.ranges) && Booked(r.st.ranges, h.held) && Inv(r.st, [])
  {
    hide RangesSound, Booked, SlotsReady, PortsInv, BuiltInv;
    assert r.st.held == map[];
    assert r.st.pins + r.st.held == r.st.pins;
  }

  lemma HeldBelow(st: St, done: seq<Item>, k: nat)
    requires Inv(st, done) && UsedUpTo(st.ranges, k)
    ensures NumbersBelow(st.held, k)
  {
    hide PortsInv, BuiltInv, OwnersOf;
    forall o | o in st.held
      ensures st.held[o] < First(PoolOf(o)) + k
    {
      assert o in st.pins + st.held && (st.pins + st.held)[o] == st.held[o];
      assert Used(st.ranges, PoolOf(o)) <= k;
    }
  }

  /** A rebuild succeeds while what is deployed and what it asks for stay clear of the smallest pool's end. */
  lemma RebuildFits(spec: TopologySpec, base: Topo, s: Shape, h: Holds, k: nat)
    requires Certified(base, s, h) && DistinctIds(spec.pods) && NumbersBelow(h.held, k)
    requires k + 2 * |Items(NewShape(spec, base))| <= SMALLEST_POOL
    ensures Rebuild(spec, base).Some?
    ensures NumbersBelow(Rebuild(spec, base).value.held, k + 2 * |Items(NewShape(spec, base))|)
  {
    hide Certified, Items, RangesSound, UsedUpTo, NumbersBelow, SlotsReady, DistinctPods, PodsNumbered, OneEach, Inv,
      AllWellFormed, Run, RestoreBase, ShapeFor;
    ReplayCertified(base, s, h);
    RestoreFits(base, s, h, k);
    var r := RestoreBase(base).value;
    ShapeIsDistinct(r, spec);
    var xs := Items(ShapeFor(r, spec));
    ItemsDiffer(ShapeFor(r, spec));
    ItemsAreWellFormed(ShapeFor(r, spec));
    RunFits(r.st, xs, k);
    RunKeepsInv(r.st, xs);
    HeldBelow(Run(r.st, xs).value, xs, k + 2 * |xs|);
  }

  /** How many devices, links and racks the pools of a lab can number. */
  lemma PoolsHold(p: Pool)
    requires HasRange(p)
    ensures p in FreshRanges() && FreshRanges()[p].held == map[] && FreshRanges()[p].next == FreshRanges()[p].start
    ensures FreshRanges()[p].end + 1 - FreshRanges()[p].start ==
            match p
            case AsnPool(Spine) => 800
            case AsnPool(_) => 100
            case Loopback => 65536
            case FabricP2P => 32768
            case ServerVlan => 256
  {
  }

  // ---------- interfaces ----------

  /** Nothing goes down; wires of the list without a deployed interface lie past every earlier one, others stay. */
  ghost predicate LandsPast(st: St, st': St, wires: seq<LinkName>) {
    && st'.basePorts == st.basePorts
    && (forall n :: Index(st.ifIndex, n) <= Index(st'.ifIndex, n))
    && (forall ln :: ln in wires ==> ln in st'.ports)
    && (forall ln, e :: ln in wires && ln !in st.basePorts && ln in st'.ports ==>
          PortAt(st'.ports, ln, e) > Index(st.ifIndex, NodeAt(ln, e)))
    && (forall ln :: ln !in wires ==> (ln in st.ports <==> ln in st'.ports)
                                      && (ln in st.ports ==> st'.ports[ln] == st.ports[ln]))
  }

  lemma SameInterfaces(st: St, st': St)
    requires st'.basePorts == st.basePorts && st'.ifIndex == st.ifIndex && st'.ports == st.ports
    ensures LandsPast(st, st', [])
  {
  }

  lemma WireLandsPast(st: St, st': St, ln: LinkName)
    requires var s2 := AddPorts(st, ln); st'.basePorts == s2.basePorts && st'.ifIndex == s2.ifIndex && st'.ports == s2.ports
    ensures LandsPast(st, st', [ln])
  {
  }

  lemma TakeInterfaces(st: St, o: Owner)
    requires Take(st, o).Some?
    ensures var st' := Take(st, o).value; st'.basePorts == st.basePorts && st'.ifIndex == st.ifIndex && st'.ports == st.ports
  {
  }

  lemma StepLandsPast(st: St, x: Item)
    requires Step(st, x).Some?
    ensures LandsPast(st, Step(st, x).value, WiresIn(x))
  {
    hide RouterNode, LeafNode, LinkWith, ServerNodes, Take, LandsPast, AddPorts;
    match x
    case RouterItem(n) =>
      TakeInterfaces(st, AsnOf(n));
      TakeInterfaces(Take(st, AsnOf(n)).value, LoopbackOf(n));
      SameInterfaces(st, Step(st, x).value);
    case RackItem(pod, rack, _) =>
      var a, b := LoopbackOf(LeafAName(pod, rack)), LoopbackOf(LeafBName(pod, rack));
      TakeInterfaces(st, VlanOf(pod, rack));
      var s1 := Take(st, VlanOf(pod, rack)).value;
      TakeInterfaces(s1, a);
      TakeInterfaces(Take(s1, a).value, b);
      SameInterfaces(st, Step(st, x).value);
    case WireItem(ln) =>
      var s1 := if KindOf(ln).Fabric? then Take(st, P2POf(ln)).value else st;
      if KindOf(ln).Fabric? { TakeInterfaces(st, P2POf(ln)); }
      WireLandsPast(s1, Step(st, x).value, ln);
      SameStart(st, s1, Step(st, x).value, [ln]);
  }

  lemma SameStart(st: St, s1: St, st': St, wires: seq<LinkName>)
    requires s1.basePorts == st.basePorts && s1.ifIndex == st.ifIndex && s1.ports == st.ports
    requires LandsPast(s1, st', wires)
    ensures LandsPast(st, st', wires)
  {
  }

  lemma PastTwice(st: St, s1: St, st': St, wires: seq<LinkName>, x: Item)
    requires LandsPast(st, s1, wires) && LandsPast(s1, st', WiresIn(x))
    ensures LandsPast(st, st', wires + WiresIn(x))
  {
  }

  lemma {:induction false} RunLandsPast(st: St, xs: seq<Item>)
    requires Run(st, xs).Some?
    ensures LandsPast(st, Run(st, xs).value, WiresOf(xs))
  {
    hide Step, LandsPast;
    if xs == [] {
      NothingLands(st);
    } else {
      var init, last := xs[..|xs| - 1], xs[|xs| - 1];
      RunLandsPast(st, init);
      StepLandsPast(Run(st, init).value, last);
      PastTwice(st, Run(st, init).value, Run(st, xs).value, WiresOf(init), last);
    }
  }

  lemma NothingLands(st: St)
    ensures LandsPast(st, st, [])
  {
  }

  /** A link the base does not have lands past every interface the base uses on either end. */
  lemma AddedLandsPast(spec: TopologySpec, base: Topo, s: Shape, h: Holds, ln: LinkName, before: LinkName, e: bool, e': bool)
    requires Certified(base, s, h) && DistinctIds(spec.pods) && Rebuild(spec, base).Some?
    requires HasLink(NewShape(spec, base), ln) && ln !in h.ports && before in h.ports && NodeAt(before, e') == NodeAt(ln, e)
    ensures ln in Rebuild(spec, base).value.ports && PortAt(h.ports, before, e') < PortAt(Rebuild(spec, base).value.ports, ln, e)
  {
    hide Certified, Items, SlotsReady, DistinctPods, PodsNumbered, HeldInv, BuiltInv, HasLink, PortsExclusive, WiresOf;
    ReplayCertified(base, s, h);
    var r := RestoreBase(base).value;
    ShapeIsDistinct(r, spec);
    WiresOfItems(ShapeFor(r, spec), ln);
    RunLandsPast(r.st, Items(ShapeFor(r, spec)));
    BasePortsBelow(r, s, h);
  }

  lemma BasePortsBelow(r: Restored, s: Shape, h: Holds)
    requires Replayed(r, s, h)
    ensures PortsBelow(h.ports, r.st.ifIndex)
  {
    hide HeldInv, BuiltInv, SlotsReady, PortsExclusive;
    assert r.st.ports == map[];
    assert r.st.basePorts + r.st.ports == r.st.basePorts;
  }

  /** Of two links new to a build that share a device, the one built later lands further out. */
  lemma LaterLandsFurther(st: St, xs: seq<Item>, ys: seq<Item>, ln: LinkName, ln': LinkName, e: bool, e': bool)
    requires Inv(st, []) && OneEach(xs + ys) && AllWellFormed(xs + ys) && Run(st, xs + ys).Some?
    requires ln in WiresOf(xs) && ln !in WiresOf(ys) && ln' in WiresOf(ys)
    requires ln' !in st.basePorts && NodeAt(ln, e) == NodeAt(ln', e')
    ensures var ports := Run(st, xs + ys).value.ports;
            ln in ports && ln' in ports && PortAt(ports, ln, e) < PortAt(ports, ln', e')
  {
    hide Step, OneEach, AllWellFormed, WiresOf, HeldInv, BuiltInv, PortsExclusive;
    RunConcat(st, xs, ys);
    var s1 := Run(st, xs).value;
    FrontIsDistinct(xs, ys);
    RunKeepsInv(st, xs);
    RunLandsPast(s1, ys);
    assert ln in s1.ports && (s1.basePorts + s1.ports)[ln] == s1.ports[ln];
    assert PortAt(s1.ports, ln, e) == PortAt(s1.basePorts + s1.ports, ln, e) <= Index(s1.ifIndex, NodeAt(ln, e));
  }

  lemma FrontIsDistinct(xs: seq<Item>, ys: seq<Item>)
    requires OneEach(xs + ys) && AllWellFormed(xs + ys)
    ensures OneEach(xs) && AllWellFormed(xs)
  {
    forall i | 0 <= i < |xs| ensures (xs + ys)[i] == xs[i] {}
    forall x | x in xs ensures x in xs + ys {}
  }
}
