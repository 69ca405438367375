/** How the pieces of a build fit together: prefixes that fail, groups of items, and the map of allocators. */
module BuilderFacts {
  import opened Wrappers
  import opened Ranges
  import opened Decimal
  import opened Fabric
  import opened Script
  import opened BuildSpec = Build
  import opened Allocators

  const DEFAULT_ASN_RANGES: seq<AsnRange> := [
    AsnRange(External, 64500, 64599), AsnRange(DCEdge, 64600, 64699),
    AsnRange(SuperSpine, 65100, 65199), AsnRange(Spine, 65200, 65999)]

  ghost function RangeAt(asns: map<Role, Range<Owner>>, l: Range<Owner>, f: Range<Owner>, v: Range<Owner>, p: Pool)
    : Option<Range<Owner>>
  {
    match p
    case AsnPool(role) => if role in asns then Some(asns[role]) else None
    case Loopback => Some(l)
    case FabricP2P => Some(f)
    case ServerVlan => Some(v)
  }

  /** The allocators of a builder as one map. */
  ghost function RangeMap(asns: map<Role, Range<Owner>>, l: Range<Owner>, f: Range<Owner>, v: Range<Owner>)
    : map<Pool, Range<Owner>>
  {
    map p | p in {AsnPool(External), AsnPool(DCEdge), AsnPool(SuperSpine), AsnPool(Spine), AsnPool(Leaf), AsnPool(Server),
                  Loopback, FabricP2P, ServerVlan}
            && RangeAt(asns, l, f, v, p).Some?
      :: RangeAt(asns, l, f, v, p).value
  }

  lemma RangeMapLookup(asns: map<Role, Range<Owner>>, l: Range<Owner>, f: Range<Owner>, v: Range<Owner>, p: Pool)
    ensures var m := RangeMap(asns, l, f, v);
            && (p in m <==> RangeAt(asns, l, f, v, p).Some?) && (p in m ==> m[p] == RangeAt(asns, l, f, v, p).value)
  {
    if p.AsnPool? {
      assert p.role.External? || p.role.DCEdge? || p.role.SuperSpine? || p.role.Spine? || p.role.Leaf? || p.role.Server?;
    }
  }

  lemma RangeMapUpdate(asns: map<Role, Range<Owner>>, l: Range<Owner>, f: Range<Owner>, v: Range<Owner>,
                       asns': map<Role, Range<Owner>>, l': Range<Owner>, f': Range<Owner>, v': Range<Owner>,
                       p: Pool, r: Range<Owner>)
    requires RangeAt(asns', l', f', v', p) == Some(r)
    requires forall q :: q != p ==> RangeAt(asns', l', f', v', q) == RangeAt(asns, l, f, v, q)
    ensures RangeMap(asns', l', f', v') == RangeMap(asns, l, f, v)[p := r]
  {
    hide RangeMap, RangeAt;
    var m, m' := RangeMap(asns, l, f, v), RangeMap(asns', l', f', v');
    forall q
      ensures q in m' <==> q in m[p := r]
      ensures q in m' ==> m'[q] == m[p := r][q]
    {
      RangeMapLookup(asns, l, f, v, q);
      RangeMapLookup(asns', l', f', v', q);
    }
  }

  lemma RangeMapSwap(asns: map<Role, Range<Owner>>, l: Range<Owner>, f: Range<Owner>, v: Range<Owner>,
                     role: Role, r: Range<Owner>)
    ensures RangeMap(asns[role := r], l, f, v) == RangeMap(asns, l, f, v)[AsnPool(role) := r]
    ensures RangeMap(asns, r, f, v) == RangeMap(asns, l, f, v)[Loopback := r]
    ensures RangeMap(asns, l, r, v) == RangeMap(asns, l, f, v)[FabricP2P := r]
    ensures RangeMap(asns, l, f, r) == RangeMap(asns, l, f, v)[ServerVlan := r]
  {
    hide RangeMap;
    RangeMapUpdate(asns, l, f, v, asns[role := r], l, f, v, AsnPool(role), r);
    RangeMapUpdate(asns, l, f, v, asns, r, f, v, Loopback, r);
    RangeMapUpdate(asns, l, f, v, asns, l, r, v, FabricP2P, r);
    RangeMapUpdate(asns, l, f, v, asns, l, f, r, ServerVlan, r);
  }

  lemma DefaultRanges()
    ensures DeclareRanges(DEFAULT_ASN_RANGES) ==
            Some(map[External := Fresh(64500, 64599), DCEdge := Fresh(64600, 64699),
                     SuperSpine := Fresh(65100, 65199), Spine := Fresh(65200, 65999)])
  {
    var d := DEFAULT_ASN_RANGES;
    assert DeclareRanges(d[..1]) == Some(map[External := Fresh(64500, 64599)]) by { assert d[..1][..0] == []; }
    assert DeclareRanges(d[..2]) == Some(map[External := Fresh(64500, 64599), DCEdge := Fresh(64600, 64699)]) by {
      assert d[..2][..1] == d[..1];
    }
    assert DeclareRanges(d[..3]) ==
           Some(map[External := Fresh(64500, 64599), DCEdge := Fresh(64600, 64699), SuperSpine := Fresh(65100, 65199)]) by {
      assert d[..3][..2] == d[..2];
    }
    assert d[..4] == d && d[..4][..3] == d[..3];
  }

  lemma FreshRangeMap(asns: map<Role, Range<Owner>>)
    requires DeclareRanges(DEFAULT_ASN_RANGES) == Some(asns)
    ensures RangeMap(asns, Fresh(0, 65535), Fresh(0, 32767), Fresh(0, 255)) == FreshRanges()
  {
    hide RangeMap;
    DefaultRanges();
    var m := RangeMap(asns, Fresh(0, 65535), Fresh(0, 32767), Fresh(0, 255));
    forall p
      ensures p in m <==> p in FreshRanges()
      ensures p in m ==> m[p] == FreshRanges()[p]
    {
      RangeMapLookup(asns, Fresh(0, 65535), Fresh(0, 32767), Fresh(0, 255), p);
    }
  }

  lemma RunAppend(st: St, xs: seq<Item>, x: Item)
    requires Run(st, xs).Some?
    ensures Run(st, xs + [x]) == Step(Run(st, xs).value, x)
  {
  }

  /** A run that fails on a prefix fails on the whole. */
  lemma RunPrefixFails(st: St, xs: seq<Item>, ys: seq<Item>)
    requires xs <= ys && Run(st, xs).None?
    ensures Run(st, ys).None?
  {
    assert ys == xs + ys[|xs|..];
    RunConcat(st, xs, ys[|xs|..]);
  }

  lemma {:induction false} RoutersPrefix(ns: seq<Name>, k: nat)
    requires k <= |ns|
    ensures Routers(ns[..k]) <= Routers(ns)
  {
    if k < |ns| {
      RoutersPrefix(ns[..|ns| - 1], k);
      assert ns[..|ns| - 1][..k] == ns[..k];
    } else {
      assert ns[..k] == ns;
    }
  }

  lemma {:induction false} RowPrefix(a: Name, zs: seq<Name>, k: nat)
    requires k <= |zs|
    ensures Row(a, zs[..k]) <= Row(a, zs)
  {
    if k < |zs| {
      RowPrefix(a, zs[..|zs| - 1], k);
      assert zs[..|zs| - 1][..k] == zs[..k];
    } else {
      assert zs[..k] == zs;
    }
  }

  lemma {:induction false} MeshPrefix(xs: seq<Name>, zs: seq<Name>, k: nat)
    requires k <= |xs|
    ensures Mesh(xs[..k], zs) <= Mesh(xs, zs)
  {
    if k < |xs| {
      MeshPrefix(xs[..|xs| - 1], zs, k);
      assert xs[..|xs| - 1][..k] == xs[..k];
    } else {
      assert xs[..k] == xs;
    }
  }

  lemma {:induction false} UplinksPrefix(spines: seq<Name>, pod: string, rack: nat, k: nat)
    requires k <= |spines|
    ensures Uplinks(spines[..k], pod, rack) <= Uplinks(spines, pod, rack)
  {
    if k < |spines| {
      UplinksPrefix(spines[..|spines| - 1], pod, rack, k);
      assert spines[..|spines| - 1][..k] == spines[..k];
    } else {
      assert spines[..k] == spines;
    }
  }

  lemma StepIs(st: St, x: Item)
    ensures match x
            case RouterItem(n) => Step(st, x) == BuildSpec.AddRouter(st, n)
            case RackItem(pod, rack, servers) => Step(st, x) == BuildSpec.AddRack(st, pod, rack, servers)
            case WireItem(ln) => Step(st, x) == BuildSpec.AddLink(st, ln)
  {
  }

  lemma RunNothing(st: St)
    ensures Run(st, []) == Some(st)
  {
  }

  lemma RunOne(st: St, x: Item)
    ensures Run(st, [x]) == Step(st, x)
  {
  }

  /** A rack's items, run one group at a time, with the servers listed last as the code does. */
  lemma RackUnfolds(st: St, pod: string, rack: nat, servers: nat, spines: seq<Name>)
    ensures var whole := Run(st, RackItems(pod, rack, servers, spines));
            match BuildSpec.AddRack(st, pod, rack, 0)
            case None => whole.None?
            case Some(bare) =>
              match Run(bare, Uplinks(spines, pod, rack))
              case None => whole.None?
              case Some(s1) =>
                match BuildSpec.AddLink(s1, LinkName(LeafAName(pod, rack), LeafBName(pod, rack)))
                case None => whole.None?
                case Some(s2) =>
                  whole == WithNodes(Run(s2, AccessLinks(pod, rack, servers)),
                                     bare.nodes + ServerNodes(pod, rack, servers, Value(bare.held, VlanOf(pod, rack))))
  {
    hide BuildSpec.AddRack, BuildSpec.AddLink, Run, Step, AccessLinks, Uplinks;
    var peer := WireItem(LinkName(LeafAName(pod, rack), LeafBName(pod, rack)));
    var up, access := Uplinks(spines, pod, rack), AccessLinks(pod, rack, servers);
    var wires := up + [peer] + access;
    assert RackItems(pod, rack, servers, spines) == [RackItem(pod, rack, servers)] + wires;
    RunConcat(st, [RackItem(pod, rack, servers)], wires);
    RunOne(st, RackItem(pod, rack, servers));
    StepIs(st, RackItem(pod, rack, servers));
    RackWithServers(st, pod, rack, servers);
    if BuildSpec.AddRack(st, pod, rack, 0).Some? {
      var bare := BuildSpec.AddRack(st, pod, rack, 0).value;
      var ns := bare.nodes + ServerNodes(pod, rack, servers, Value(bare.held, VlanOf(pod, rack)));
      WiresAreWires(spines, pod, rack, servers);
      WiresIgnoreNodes(bare, ns, wires);
      RunConcat(bare, up + [peer], access);
      RunConcat(bare, up, [peer]);
      if Run(bare, up).Some? {
        RunOne(Run(bare, up).value, peer);
        StepIs(Run(bare, up).value, peer);
      }
    }
  }

  lemma WiresAreWires(spines: seq<Name>, pod: string, rack: nat, servers: nat)
    ensures var peer := WireItem(LinkName(LeafAName(pod, rack), LeafBName(pod, rack)));
            forall x :: x in Uplinks(spines, pod, rack) + [peer] + AccessLinks(pod, rack, servers) ==> x.WireItem?
  {
  }

  lemma RackWithServers(st: St, pod: string, rack: nat, n: nat)
    ensures match BuildSpec.AddRack(st, pod, rack, 0)
            case None => BuildSpec.AddRack(st, pod, rack, n).None?
            case Some(bare) =>
              BuildSpec.AddRack(st, pod, rack, n)
              == Some(bare.(nodes := bare.nodes + ServerNodes(pod, rack, n, Value(bare.held, VlanOf(pod, rack)))))
  {
    hide Take;
    match BuildSpec.AddRack(st, pod, rack, 0)
    case None =>
    case Some(bare) => assert forall ns: seq<Node> :: ns + [] == ns;
  }

  /** One more rack: the next deployed slot, or the next never-used number. */
  lemma RacksForNext(slots: seq<nat>, maxRack: nat, r: nat)
    ensures var next := if r + 1 <= |slots| then slots[r] else MaxAfter(slots, maxRack, r) + 1;
            && RacksFor(slots, maxRack, r + 1) == RacksFor(slots, maxRack, r) + [next]
            && MaxAfter(slots, maxRack, r + 1) == if r + 1 <= |slots| then maxRack else next
  {
  }

  lemma {:induction false} RacksPrefix(pod: string, slots: seq<nat>, maxRack: nat, servers: nat, spines: seq<Name>, k: nat, n: nat)
    requires k <= n
    ensures RacksItems(pod, RacksFor(slots, maxRack, k), servers, spines)
         <= RacksItems(pod, RacksFor(slots, maxRack, n), servers, spines)
    decreases n
  {
    hide RacksFor, RacksItems, RackItems, MaxAfter;
    if k < n {
      RacksPrefix(pod, slots, maxRack, servers, spines, k, n - 1);
      RacksItemsNext(pod, slots, maxRack, servers, spines, n - 1);
    }
  }

  lemma RacksItemsNext(pod: string, slots: seq<nat>, maxRack: nat, servers: nat, spines: seq<Name>, r: nat)
    ensures var next := if r + 1 <= |slots| then slots[r] else MaxAfter(slots, maxRack, r) + 1;
            RacksItems(pod, RacksFor(slots, maxRack, r + 1), servers, spines)
            == RacksItems(pod, RacksFor(slots, maxRack, r), servers, spines) + RackItems(pod, next, servers, spines)
  {
    hide RacksFor, RackItems, MaxAfter;
    var next := if r + 1 <= |slots| then slots[r] else MaxAfter(slots, maxRack, r) + 1;
    var racks := RacksFor(slots, maxRack, r);
    RacksForNext(slots, maxRack, r);
    assert (racks + [next])[..|racks + [next]| - 1] == racks;
  }

  lemma {:induction false} PodsPrefix(supers: seq<Name>, pods: seq<PodShape>, k: nat)
    requires k <= |pods|
    ensures PodsItems(supers, pods[..k]) <= PodsItems(supers, pods)
  {
    if k < |pods| {
      PodsPrefix(supers, pods[..|pods| - 1], k);
      assert pods[..|pods| - 1][..k] == pods[..k];
    } else {
      assert pods[..k] == pods;
    }
  }

  function PodNumbered(slots: map<string, seq<nat>>, maxRack: nat, p: PodSpec, k: nat): PodShape {
    var id := PodId(p.name, k);
    PodShape(id, p.spines, RacksFor(Slots(slots, id), maxRack, p.racks), p.servers)
  }

  lemma NumberNext(slots: map<string, seq<nat>>, maxRack: nat, pods: seq<PodSpec>, k: nat)
    requires k < |pods|
    ensures var before, after := NumberPods(slots, maxRack, pods[..k]), NumberPods(slots, maxRack, pods[..k + 1]);
            && after.pods == before.pods + [PodNumbered(slots, before.maxRack, pods[k], k + 1)]
            && after.maxRack == MaxAfter(Slots(slots, PodId(pods[k].name, k + 1)), before.maxRack, pods[k].racks)
  {
    assert pods[..k + 1][..k] == pods[..k];
  }

  lemma {:induction false} NumberPrefix(slots: map<string, seq<nat>>, maxRack: nat, pods: seq<PodSpec>, k: nat)
    requires k <= |pods|
    ensures NumberPods(slots, maxRack, pods[..k]).pods <= NumberPods(slots, maxRack, pods).pods
    ensures |NumberPods(slots, maxRack, pods[..k]).pods| == k
    decreases |pods|
  {
    if k < |pods| {
      NumberPrefix(slots, maxRack, pods[..|pods| - 1], k);
      assert pods[..|pods| - 1][..k] == pods[..k];
    } else {
      assert pods[..k] == pods;
      NumberLength(slots, maxRack, pods);
    }
  }

  lemma {:induction false} NumberLength(slots: map<string, seq<nat>>, maxRack: nat, pods: seq<PodSpec>)
    ensures |NumberPods(slots, maxRack, pods).pods| == |pods|
  {
    if pods != [] {
      NumberLength(slots, maxRack, pods[..|pods| - 1]);
    }
  }

  lemma NumberNothing(slots: map<string, seq<nat>>, maxRack: nat)
    ensures NumberPods(slots, maxRack, []) == Numbered([], maxRack)
  {
  }

  lemma PodsItemsNext(supers: seq<Name>, pods: seq<PodShape>, p: PodShape)
    ensures PodsItems(supers, pods + [p]) == PodsItems(supers, pods) + PodItems(supers, p)
  {
  }

  lemma SameCore(s: Shape, s': Shape)
    requires s.externals == s'.externals && s.edges == s'.edges && s.supers == s'.supers
    ensures CoreItems(s) == CoreItems(s')
  {
  }

  function WithNodes(o: Option<St>, ns: seq<Node>): Option<St> {
    match o
    case Some(st) => Some(st.(nodes := ns))
    case None => None
  }

  lemma TakeIgnoresNodes(st: St, ns: seq<Node>, o: Owner)
    ensures Take(st.(nodes := ns), o) == WithNodes(Take(st, o), ns)
  {
  }

  /** Links are made the same whatever devices have been listed. */
  lemma AddLinkIgnoresNodes(st: St, ns: seq<Node>, ln: LinkName)
    ensures BuildSpec.AddLink(st.(nodes := ns), ln) == WithNodes(BuildSpec.AddLink(st, ln), ns)
  {
    hide Take, LinkWith, AddPorts;
    TakeIgnoresNodes(st, ns, P2POf(ln));
    if KindOf(ln).Fabric? {
      if Take(st, P2POf(ln)).Some? { PortsIgnoreNodes(Take(st, P2POf(ln)).value, ns, ln); }
    } else {
      PortsIgnoreNodes(st, ns, ln);
    }
  }

  lemma PortsIgnoreNodes(st: St, ns: seq<Node>, ln: LinkName)
    ensures AddPorts(st.(nodes := ns), ln) == AddPorts(st, ln).(nodes := ns)
  {
    hide Index;
    if ln in st.basePorts {
    } else {
    }
  }

  lemma {:induction false} WiresIgnoreNodes(st: St, ns: seq<Node>, xs: seq<Item>)
    requires forall x :: x in xs ==> x.WireItem?
    ensures Run(st.(nodes := ns), xs) == WithNodes(Run(st, xs), ns)
  {
    if xs != [] {
      hide BuildSpec.AddLink;
      var init, last := xs[..|xs| - 1], xs[|xs| - 1];
      assert xs == init + [last];
      WiresIgnoreNodes(st, ns, init);
      if Run(st, init).Some? {
        AddLinkIgnoresNodes(Run(st, init).value, ns, last.ln);
      }
    }
  }

  lemma {:induction false} AccessPrefix(pod: string, rack: nat, k: nat, n: nat)
    requires k <= n
    ensures AccessLinks(pod, rack, k) <= AccessLinks(pod, rack, n)
  {
    if k < n {
      AccessPrefix(pod, rack, k, n - 1);
    }
  }

  /** A layer-2 link carries no subnet. */
  lemma LayerTwoLink(ln: LinkName, subnet: nat, subnet': nat, ethA: nat, ethZ: nat)
    requires !KindOf(ln).Fabric?
    ensures LinkWith(ln, subnet, ethA, ethZ) == LinkWith(ln, subnet', ethA, ethZ)
  {
  }
  lemma {:induction false} RestoreNodesFails(r: Restored, nodes: seq<Node>, k: nat)
    requires k <= |nodes| && RestoreNodes(r, nodes[..k]).None?
    ensures RestoreNodes(r, nodes).None?
    decreases |nodes|
  {
    if k < |nodes| {
      assert nodes[..|nodes| - 1][..k] == nodes[..k];
      RestoreNodesFails(r, nodes[..|nodes| - 1], k);
    } else {
      assert nodes[..k] == nodes;
    }
  }

  lemma {:induction false} RestoreLinksFails(st: St, links: seq<Link>, k: nat)
    requires k <= |links| && RestoreLinks(st, links[..k]).None?
    ensures RestoreLinks(st, links).None?
    decreases |links|
  {
    if k < |links| {
      assert links[..|links| - 1][..k] == links[..k];
      RestoreLinksFails(st, links[..|links| - 1], k);
    } else {
      assert links[..k] == links;
    }
  }
}
