/**
 The topology builder as the controller runs it: an object whose maps, counters and allocators are updated
 by `RestoreTopology` and `Build`, proved to compute exactly what module Build says.
 */
module Builder {
  import opened Wrappers
  import opened Ranges
  import opened Decimal
  import opened Fabric
  import opened Script
  import opened BuildSpec = Build
  import opened Allocators
  import opened BuilderFacts

  class Builder {
    const loopbacks: AddressPool
    const fabric: AddressPool
    const vlans: AddressPool
    const asns: AsnAllocator

    var ifIndex: map<Name, nat>
    var maxRack: nat
    var rackSeen: set<(string, nat)>
    var rackSlots: map<string, seq<nat>>
    var baseLinks: map<LinkName, (nat, nat)>
    var pins: map<Owner, nat>
    var nodes: seq<Node>
    var links: seq<Link>
    var records: seq<Record>

    /** What this build has given out, by owner and by link. */
    ghost var held: map<Owner, nat>
    ghost var ports: map<LinkName, (nat, nat)>

    ghost predicate Valid()
      reads this
    {
      loopbacks != fabric && fabric != vlans && vlans != loopbacks
      && loopbacks.last < WORD - 1 && fabric.last < WORD - 1 && vlans.last < WORD - 1
    }

    ghost function Abs(): St
      reads this, loopbacks, fabric, vlans, asns
    {
      St(RangeMap(asns.ranges, loopbacks.View(), fabric.View(), vlans.View()),
         pins, held, baseLinks, ifIndex, ports, nodes, links, records)
    }

    ghost function Replay(): Restored
      reads this, loopbacks, fabric, vlans, asns
    {
      Restored(Abs(), rackSeen, rackSlots, maxRack)
    }

    constructor ()
      ensures Valid() && Replay() == Restored(Empty(), {}, map[], 0)
      ensures fresh(loopbacks) && fresh(fabric) && fresh(vlans) && fresh(asns)
    {
      var l := new AddressPool(65535);
      var f := new AddressPool(32767);
      var v := new AddressPool(255);
      var a := new AsnAllocator();
      DefaultRanges();
      var declared := a.Declare(DEFAULT_ASN_RANGES);
      hide DeclareRanges;
      FreshRangeMap(a.ranges);
      hide RangeMap, FreshRanges;
      loopbacks, fabric, vlans, asns := l, f, v, a;
      ifIndex, maxRack, rackSeen, rackSlots, baseLinks, pins := map[], 0, {}, map[], map[], map[];
      nodes, links, records, held, ports := [], [], [], map[], map[];
    }

    // ---------- allocate ----------

    /** A fresh number from the pool that serves the owner. */
    method AllocateFresh(o: Owner) returns (r: Option<nat>)
      requires Valid()
      modifies loopbacks, fabric, vlans, asns
      ensures Valid()
      ensures PoolOf(o) !in old(Abs()).ranges ==> r == None && Abs() == old(Abs())
      ensures PoolOf(o) in old(Abs()).ranges ==>
                match Ranges.Allocate(old(Abs()).ranges[PoolOf(o)], o)
                case Some(g) => r == Some(g.number) && Abs() == old(Abs()).(ranges := old(Abs()).ranges[PoolOf(o) := g.range])
                case None => r == None && Abs() == old(Abs())
    {
      ghost var a, l, f, v := asns.ranges, loopbacks.View(), fabric.View(), vlans.View();
      RangeMapLookup(a, l, f, v, PoolOf(o));
      hide RangeMap, Ranges.Allocate;
      match PoolOf(o)
      case AsnPool(role) =>
        r := asns.Allocate(role, o);
        if r.Some? { RangeMapSwap(a, l, f, v, role, asns.ranges[role]); }
      case Loopback =>
        r := loopbacks.Allocate(o);
        RangeMapSwap(a, l, f, v, External, loopbacks.View());
      case FabricP2P =>
        r := fabric.Allocate(o);
        RangeMapSwap(a, l, f, v, External, fabric.View());
      case ServerVlan =>
        r := vlans.Allocate(o);
        RangeMapSwap(a, l, f, v, External, vlans.View());
    }

    method Allocate(o: Owner) returns (r: Option<nat>)
      requires Valid()
      modifies this`held, loopbacks, fabric, vlans, asns
      ensures Valid()
      ensures match Take(old(Abs()), o)
              case Some(st) => Abs() == st && r == Some(st.held[o])
              case None => r == None
      ensures r.Some? ==> held == old(held)[o := r.value]
    {
      hide RangeMap, Ranges.Allocate;
      if o in pins {
        held := held[o := pins[o]];
        return Some(pins[o]);
      }
      r := AllocateFresh(o);
      if r.Some? {
        held := held[o := r.value];
      }
    }

    // ---------- devices and links ----------

    method AddRouter(n: Name) returns (ok: bool)
      requires Valid()
      modifies this, loopbacks, fabric, vlans, asns
      ensures Valid() && unchanged(`maxRack, `rackSlots)
      ensures ok <==> BuildSpec.AddRouter(old(Abs()), n).Some?
      ensures ok ==> Abs() == BuildSpec.AddRouter(old(Abs()), n).value
    {
      hide RangeMap, Take;
      var asn := Allocate(AsnOf(n));
      if asn.None? {
        return false;
      }
      var loopback := Allocate(LoopbackOf(n));
      if loopback.None? {
        return false;
      }
      nodes := nodes + [RouterNode(n, asn.value, loopback.value)];
      records := records + [Record(AsnOf(n), asn.value), Record(LoopbackOf(n), loopback.value)];
      return true;
    }

    /** The end of a link: the interface it is pinned to, or the node's next free index. */
    method NextIndex(n: Name) returns (eth: nat)
      modifies this`ifIndex
      ensures eth == Index(old(ifIndex), n) + 1 && ifIndex == old(ifIndex)[n := eth]
    {
      eth := (if n in ifIndex then ifIndex[n] else 0) + 1;
      ifIndex := ifIndex[n := eth];
    }

    /** Both ends of a link: on the interfaces the deployed link occupies, or on each node's next one. */
    method Attach(ln: LinkName) returns (ethA: nat, ethZ: nat)
      modifies this`ifIndex, this`ports
      ensures Abs() == AddPorts(old(Abs()), ln)
      ensures ports == old(ports)[ln := (ethA, ethZ)]
    {
      hide RangeMap;
      if ln in baseLinks {
        ethA, ethZ := baseLinks[ln].0, baseLinks[ln].1;
      } else {
        ethA := NextIndex(ln.a);
        ethZ := NextIndex(ln.z);
      }
      ports := ports[ln := (ethA, ethZ)];
    }

    method AddLink(ln: LinkName) returns (ok: bool)
      requires Valid()
      modifies this, loopbacks, fabric, vlans, asns
      ensures Valid() && unchanged(`maxRack, `rackSlots, `nodes)
      ensures ok <==> BuildSpec.AddLink(old(Abs()), ln).Some?
      ensures ok ==> Abs() == BuildSpec.AddLink(old(Abs()), ln).value
    {
      hide RangeMap, Take, LinkWith, AddPorts;
      if KindOf(ln).Fabric? {
        var subnet := Allocate(P2POf(ln));
        if subnet.None? {
          return false;
        }
        var ethA, ethZ := Attach(ln);
        links := links + [LinkWith(ln, subnet.value, ethA, ethZ)];
        records := records + [Record(P2POf(ln), subnet.value)];
      } else {
        var ethA, ethZ := Attach(ln);
        LayerTwoLink(ln, Value(held, P2POf(ln)), 0, ethA, ethZ);
        links := links + [LinkWith(ln, 0, ethA, ethZ)];
        assert records + [] == records;
      }
      return true;
    }

    /** `rackNumForSlot`: a deployed slot keeps its number, a new one takes the next never-used one. */
    method RackNumForSlot(pod: string, slot: nat) returns (num: nat)
      requires slot >= 1
      modifies this`maxRack
      ensures num == if slot <= |Slots(rackSlots, pod)| then Slots(rackSlots, pod)[slot - 1] else old(maxRack) + 1
      ensures maxRack == if slot <= |Slots(rackSlots, pod)| then old(maxRack) else old(maxRack) + 1
    {
      var nums := if pod in rackSlots then rackSlots[pod] else [];
      if slot <= |nums| {
        return nums[slot - 1];
      }
      maxRack := maxRack + 1;
      return maxRack;
    }

    // ---------- the loops of a build ----------

    method AddRouters(ns: seq<Name>) returns (ok: bool)
      requires Valid()
      modifies this, loopbacks, fabric, vlans, asns
      ensures Valid() && unchanged(`maxRack, `rackSlots)
      ensures ok <==> Run(old(Abs()), Routers(ns)).Some?
      ensures ok ==> Abs() == Run(old(Abs()), Routers(ns)).value
    {
      hide RangeMap, Step;
      ghost var st := Abs();
      for i := 0 to |ns|
        invariant Valid() && unchanged(`maxRack, `rackSlots)
        invariant Run(st, Routers(ns[..i])) == Some(Abs())
      {
        assert ns[..i + 1][..i] == ns[..i];
        RunAppend(st, Routers(ns[..i]), RouterItem(ns[i]));
        StepIs(Abs(), RouterItem(ns[i]));
        ok := AddRouter(ns[i]);
        if !ok {
          RoutersPrefix(ns, i + 1);
          RunPrefixFails(st, Routers(ns[..i + 1]), Routers(ns));
          return false;
        }
      }
      assert ns[..|ns|] == ns;
      return true;
    }

    method AddRow(a: Name, zs: seq<Name>) returns (ok: bool)
      requires Valid()
      modifies this, loopbacks, fabric, vlans, asns
      ensures Valid() && unchanged(`maxRack, `rackSlots)
      ensures ok <==> Run(old(Abs()), Row(a, zs)).Some?
      ensures ok ==> Abs() == Run(old(Abs()), Row(a, zs)).value
    {
      hide RangeMap, Step;
      ghost var st := Abs();
      for i := 0 to |zs|
        invariant Valid() && unchanged(`maxRack, `rackSlots)
        invariant Run(st, Row(a, zs[..i])) == Some(Abs())
      {
        var ln := LinkName(a, zs[i]);
        assert zs[..i + 1][..i] == zs[..i];
        RunAppend(st, Row(a, zs[..i]), WireItem(ln));
        StepIs(Abs(), WireItem(ln));
        ok := AddLink(ln);
        if !ok {
          RowPrefix(a, zs, i + 1);
          RunPrefixFails(st, Row(a, zs[..i + 1]), Row(a, zs));
          return false;
        }
      }
      assert zs[..|zs|] == zs;
      return true;
    }

    method AddMesh(xs: seq<Name>, zs: seq<Name>) returns (ok: bool)
      requires Valid()
      modifies this, loopbacks, fabric, vlans, asns
      ensures Valid() && unchanged(`maxRack, `rackSlots)
      ensures ok <==> Run(old(Abs()), Mesh(xs, zs)).Some?
      ensures ok ==> Abs() == Run(old(Abs()), Mesh(xs, zs)).value
    {
      hide RangeMap, Step, Row;
      ghost var st := Abs();
      for i := 0 to |xs|
        invariant Valid() && unchanged(`maxRack, `rackSlots)
        invariant Run(st, Mesh(xs[..i], zs)) == Some(Abs())
      {
        assert xs[..i + 1][..i] == xs[..i];
        RunConcat(st, Mesh(xs[..i], zs), Row(xs[i], zs));
        ok := AddRow(xs[i], zs);
        if !ok {
          MeshPrefix(xs, zs, i + 1);
          RunPrefixFails(st, Mesh(xs[..i + 1], zs), Mesh(xs, zs));
          return false;
        }
      }
      assert xs[..|xs|] == xs;
      return true;
    }

    /** Each spine to both leaves of a rack. */
    method AddUplinks(spines: seq<Name>, pod: string, rack: nat) returns (ok: bool)
      requires Valid()
      modifies this, loopbacks, fabric, vlans, asns
      ensures Valid() && unchanged(`maxRack, `rackSlots, `nodes)
      ensures ok <==> Run(old(Abs()), Uplinks(spines, pod, rack)).Some?
      ensures ok ==> Abs() == Run(old(Abs()), Uplinks(spines, pod, rack)).value
    {
      hide RangeMap, Step;
      ghost var st := Abs();
      for i := 0 to |spines|
        invariant Valid() && unchanged(`maxRack, `rackSlots, `nodes)
        invariant Run(st, Uplinks(spines[..i], pod, rack)) == Some(Abs())
      {
        var lnA, lnB := LinkName(spines[i], LeafAName(pod, rack)), LinkName(spines[i], LeafBName(pod, rack));
        ghost var done := Uplinks(spines[..i], pod, rack);
        assert spines[..i + 1][..i] == spines[..i];
        assert Uplinks(spines[..i + 1], pod, rack) == done + [WireItem(lnA)] + [WireItem(lnB)];
        UplinksPrefix(spines, pod, rack, i + 1);
        RunAppend(st, done, WireItem(lnA));
        StepIs(Abs(), WireItem(lnA));
        ok := AddLink(lnA);
        if !ok {
          RunPrefixFails(st, done + [WireItem(lnA)], Uplinks(spines, pod, rack));
          return false;
        }
        RunAppend(st, done + [WireItem(lnA)], WireItem(lnB));
        StepIs(Abs(), WireItem(lnB));
        ok := AddLink(lnB);
        if !ok {
          RunPrefixFails(st, done + [WireItem(lnA)] + [WireItem(lnB)], Uplinks(spines, pod, rack));
          return false;
        }
      }
      assert spines[..|spines|] == spines;
      return true;
    }

    /** The rack subnet, the two leaves and their records. */
    method AddLeaves(pod: string, rack: nat) returns (subnet: Option<nat>)
      requires Valid()
      modifies this, loopbacks, fabric, vlans, asns
      ensures Valid() && unchanged(`maxRack, `rackSlots)
      ensures subnet.Some? <==> BuildSpec.AddRack(old(Abs()), pod, rack, 0).Some?
      ensures subnet.Some? ==>
                && Abs() == BuildSpec.AddRack(old(Abs()), pod, rack, 0).value
                && subnet.value == Value(held, VlanOf(pod, rack))
    {
      hide RangeMap, Take;
      subnet := Allocate(VlanOf(pod, rack));
      if subnet.None? {
        return None;
      }
      var a, b := LeafAName(pod, rack), LeafBName(pod, rack);
      var loopA := Allocate(LoopbackOf(a));
      if loopA.None? {
        return None;
      }
      var loopB := Allocate(LoopbackOf(b));
      if loopB.None? {
        return None;
      }
      nodes := nodes + [LeafNode(a, loopA.value, subnet.value), LeafNode(b, loopB.value, subnet.value)];
      records := records
        + [Record(LoopbackOf(a), loopA.value), Record(LoopbackOf(b), loopB.value),
           Record(RackAsnOf(pod, rack), RackAsn(rack)), Record(VlanOf(pod, rack), subnet.value)];
      assert nodes + [] == nodes;
    }

    /** One bond member to each leaf of the pair. */
    method AddServerLinks(pod: string, rack: nat, i: nat) returns (ok: bool)
      requires Valid()
      modifies this, loopbacks, fabric, vlans, asns
      ensures Valid() && unchanged(`maxRack, `rackSlots, `nodes)
      ensures var lnA, lnB := LinkName(LeafAName(pod, rack), ServerName(pod, rack, i)), LinkName(LeafBName(pod, rack), ServerName(pod, rack, i));
              var after := Run(old(Abs()), [WireItem(lnA), WireItem(lnB)]);
              (ok <==> after.Some?) && (ok ==> Abs() == after.value)
    {
      hide RangeMap, Step;
      ghost var st := Abs();
      var lnA, lnB := LinkName(LeafAName(pod, rack), ServerName(pod, rack, i)), LinkName(LeafBName(pod, rack), ServerName(pod, rack, i));
      assert [WireItem(lnA), WireItem(lnB)] == [WireItem(lnA)] + [WireItem(lnB)];
      RunAppend(st, [], WireItem(lnA));
      assert [] + [WireItem(lnA)] == [WireItem(lnA)];
      StepIs(st, WireItem(lnA));
      ok := AddLink(lnA);
      if ok {
        RunAppend(st, [WireItem(lnA)], WireItem(lnB));
        StepIs(Abs(), WireItem(lnB));
        ok := AddLink(lnB);
      } else {
        RunPrefixFails(st, [WireItem(lnA)], [WireItem(lnA), WireItem(lnB)]);
      }
    }

    /** The servers of a rack, each followed by its two access links. */
    method AddServers(pod: string, rack: nat, n: nat, subnet: nat) returns (ok: bool)
      requires Valid()
      modifies this, loopbacks, fabric, vlans, asns
      ensures Valid() && unchanged(`maxRack, `rackSlots)
      ensures var after := Run(old(Abs()), AccessLinks(pod, rack, n));
              && (ok <==> after.Some?)
              && (ok ==> Abs() == after.value.(nodes := old(nodes) + ServerNodes(pod, rack, n, subnet)))
    {
      hide RangeMap, Step, Run;
      ghost var st := Abs();
      RunNothing(st);
      for i := 0 to n
        invariant Valid() && unchanged(`maxRack, `rackSlots)
        invariant nodes == old(nodes) + ServerNodes(pod, rack, i, subnet)
        invariant Run(st, AccessLinks(pod, rack, i)) == Some(Abs().(nodes := old(nodes)))
      {
        nodes := nodes + [ServerNode(ServerName(pod, rack, i + 1), subnet)];
        ghost var pair := [WireItem(LinkName(LeafAName(pod, rack), ServerName(pod, rack, i + 1))),
                           WireItem(LinkName(LeafBName(pod, rack), ServerName(pod, rack, i + 1)))];
        RunConcat(st, AccessLinks(pod, rack, i), pair);
        WiresIgnoreNodes(Abs(), old(nodes), pair);
        ok := AddServerLinks(pod, rack, i + 1);
        if !ok {
          AccessPrefix(pod, rack, i + 1, n);
          RunPrefixFails(st, AccessLinks(pod, rack, i + 1), AccessLinks(pod, rack, n));
          return false;
        }
      }
      return true;
    }

    method AddRack(pod: string, slot: nat, servers: nat, spines: seq<Name>) returns (ok: bool, ghost rack: nat)
      requires Valid() && slot >= 1
      modifies this, loopbacks, fabric, vlans, asns
      ensures Valid() && unchanged(`rackSlots)
      ensures rack == if slot <= |Slots(rackSlots, pod)| then Slots(rackSlots, pod)[slot - 1] else old(maxRack) + 1
      ensures maxRack == if slot <= |Slots(rackSlots, pod)| then old(maxRack) else old(maxRack) + 1
      ensures ok <==> Run(old(Abs()), RackItems(pod, rack, servers, spines)).Some?
      ensures ok ==> Abs() == Run(old(Abs()), RackItems(pod, rack, servers, spines)).value
    {
      hide RangeMap, Step, Run, Uplinks, AccessLinks, BuildSpec.AddRack, BuildSpec.AddLink;
      ghost var st := Abs();
      var num := RackNumForSlot(pod, slot);
      rack := num;
      var subnet := AddLeaves(pod, num);
      RackUnfolds(st, pod, num, servers, spines);
      if subnet.None? {
        return false, num;
      }
      ok := AddUplinks(spines, pod, num);
      if !ok {
        return false, num;
      }
      ok := AddLink(LinkName(LeafAName(pod, num), LeafBName(pod, num)));
      if !ok {
        return false, num;
      }
      ok := AddServers(pod, num, servers, subnet.value);
    }

    method AddRacks(pod: string, count: nat, servers: nat, spines: seq<Name>) returns (ok: bool)
      requires Valid()
      modifies this, loopbacks, fabric, vlans, asns
      ensures Valid() && unchanged(`rackSlots)
      ensures var items := RacksItems(pod, RacksFor(Slots(rackSlots, pod), old(maxRack), count), servers, spines);
              && (ok <==> Run(old(Abs()), items).Some?)
              && (ok ==> Abs() == Run(old(Abs()), items).value)
      ensures ok ==> maxRack == MaxAfter(Slots(rackSlots, pod), old(maxRack), count)
    {
      hide RangeMap, Run, RackItems;
      ghost var st, low, slots := Abs(), maxRack, Slots(rackSlots, pod);
      RunNothing(st);
      for r := 0 to count
        invariant Valid() && unchanged(`rackSlots)
        invariant maxRack == MaxAfter(slots, low, r)
        invariant Run(st, RacksItems(pod, RacksFor(slots, low, r), servers, spines)) == Some(Abs())
      {
        ghost var rack;
        RacksItemsNext(pod, slots, low, servers, spines, r);
        RacksForNext(slots, low, r);
        ghost var done, before := RacksItems(pod, RacksFor(slots, low, r), servers, spines), Abs();
        ok, rack := AddRack(pod, r + 1, servers, spines);
        RunConcat(st, done, RackItems(pod, rack, servers, spines));
        if !ok {
          RacksPrefix(pod, slots, low, servers, spines, r + 1, count);
          RunPrefixFails(st, done + RackItems(pod, rack, servers, spines),
                         RacksItems(pod, RacksFor(slots, low, count), servers, spines));
          return false;
        }
      }
      return true;
    }

    method AddPod(pod: string, p: PodSpec, supers: seq<Name>) returns (ok: bool)
      requires Valid()
      modifies this, loopbacks, fabric, vlans, asns
      ensures Valid() && unchanged(`rackSlots)
      ensures var slots := Slots(rackSlots, pod);
              var items := PodItems(supers, PodShape(pod, p.spines, RacksFor(slots, old(maxRack), p.racks), p.servers));
              && (ok <==> Run(old(Abs()), items).Some?)
              && (ok ==> Abs() == Run(old(Abs()), items).value && maxRack == MaxAfter(slots, old(maxRack), p.racks))
    {
      hide RangeMap, Run, Routers, Mesh, RacksItems, RacksFor, MaxAfter;
      ghost var st, racks := Abs(), RacksFor(Slots(rackSlots, pod), maxRack, p.racks);
      var spines := Spines(pod, p.spines);
      ghost var rest := RacksItems(pod, racks, p.servers, spines);
      RunConcat(st, Routers(spines), Mesh(supers, spines));
      RunConcat(st, Routers(spines) + Mesh(supers, spines), rest);
      ok := AddRouters(spines);
      if !ok {
        return;
      }
      ok := AddMesh(supers, spines);
      if !ok {
        return;
      }
      ok := AddRacks(pod, p.racks, p.servers, spines);
    }

    /** External routers, DC edges and super spines with the two meshes between them. */
    method AddCore(spec: TopologySpec) returns (ok: bool)
      requires Valid()
      modifies this, loopbacks, fabric, vlans, asns
      ensures Valid() && unchanged(`rackSlots, `maxRack)
      ensures var items := CoreItems(Shape(spec.externals, spec.edges, spec.supers, []));
              && (ok <==> Run(old(Abs()), items).Some?)
              && (ok ==> Abs() == Run(old(Abs()), items).value)
    {
      hide RangeMap, Run, Routers, Mesh;
      ghost var st := Abs();
      var ext, edges, supers := Externals(spec.externals), Edges(spec.edges), Supers(spec.supers);
      ghost var a, b, c := Routers(ext), Routers(edges), Routers(supers);
      ghost var d, e := Mesh(ext, edges), Mesh(edges, supers);
      RunConcat(st, a, b);
      RunConcat(st, a + b, c);
      RunConcat(st, a + b + c, d);
      RunConcat(st, a + b + c + d, e);
      ok := AddRouters(ext);
      if !ok { return; }
      ok := AddRouters(edges);
      if !ok { return; }
      ok := AddRouters(supers);
      if !ok { return; }
      ok := AddMesh(ext, edges);
      if !ok { return; }
      ok := AddMesh(edges, supers);
    }

    /** The whole topology of a spec, on whatever the builder was restored from. */
    method Build(spec: TopologySpec) returns (ok: bool)
      requires Valid()
      modifies this, loopbacks, fabric, vlans, asns
      ensures Valid()
      ensures var after := Run(old(Abs()), Items(ShapeFor(old(Replay()), spec)));
              (ok <==> after.Some?) && (ok ==> Abs() == after.value)
    {
      hide RangeMap, Run, CoreItems, PodItems, NumberPods, MaxAfter, RacksFor;
      ghost var st, slots, low := Abs(), rackSlots, maxRack;
      var supers := Supers(spec.supers);
      ghost var core := CoreItems(Shape(spec.externals, spec.edges, spec.supers, []));
      ghost var shape := ShapeFor(Replay(), spec);
      SameCore(shape, Shape(spec.externals, spec.edges, spec.supers, []));
      RunConcat(st, core, PodsItems(supers, shape.pods));
      ok := AddCore(spec);
      if !ok {
        return;
      }
      ghost var s1 := Abs();
      RunNothing(s1);
      NumberNothing(slots, low);
      assert spec.pods[..0] == [];
      for k := 0 to |spec.pods|
        invariant Valid() && unchanged(`rackSlots)
        invariant maxRack == NumberPods(slots, low, spec.pods[..k]).maxRack
        invariant Run(s1, PodsItems(supers, NumberPods(slots, low, spec.pods[..k]).pods)) == Some(Abs())
      {
        var p := spec.pods[k];
        ghost var before, after := NumberPods(slots, low, spec.pods[..k]), NumberPods(slots, low, spec.pods[..k + 1]);
        NumberNext(slots, low, spec.pods, k);
        PodsItemsNext(supers, before.pods, after.pods[|before.pods|]);
        RunConcat(s1, PodsItems(supers, before.pods), PodItems(supers, after.pods[|before.pods|]));
        ok := AddPod(PodId(p.name, k + 1), p, supers);
        if !ok {
          NumberPrefix(slots, low, spec.pods, k + 1);
          assert after.pods == shape.pods[..k + 1];
          PodsPrefix(supers, shape.pods, k + 1);
          RunPrefixFails(s1, PodsItems(supers, after.pods), PodsItems(supers, shape.pods));
          return;
        }
      }
      assert spec.pods[..|spec.pods|] == spec.pods;
    }

    // ---------- replaying the deployed topology ----------

    /** Marks a number as held in the pool that serves its owner. */
    method RestoreNumber(o: Owner, number: nat) returns (ok: bool)
      requires Valid()
      modifies loopbacks, fabric, vlans, asns
      ensures Valid()
      ensures ok <==> PoolOf(o) in old(Abs()).ranges && Ranges.Restore(old(Abs()).ranges[PoolOf(o)], number, o).Some?
      ensures ok ==> Abs() == old(Abs()).(ranges :=
                old(Abs()).ranges[PoolOf(o) := Ranges.Restore(old(Abs()).ranges[PoolOf(o)], number, o).value])
    {
      ghost var a, l, f, v := asns.ranges, loopbacks.View(), fabric.View(), vlans.View();
      RangeMapLookup(a, l, f, v, PoolOf(o));
      hide RangeMap, Ranges.Restore;
      match PoolOf(o)
      case AsnPool(role) =>
        ok := asns.Restore(role, number, o);
        if ok { RangeMapSwap(a, l, f, v, role, asns.ranges[role]); }
      case Loopback =>
        ok := loopbacks.Restore(number, o);
        RangeMapSwap(a, l, f, v, External, loopbacks.View());
      case FabricP2P =>
        ok := fabric.Restore(number, o);
        RangeMapSwap(a, l, f, v, External, fabric.View());
      case ServerVlan =>
        ok := vlans.Restore(number, o);
        RangeMapSwap(a, l, f, v, External, vlans.View());
    }

    method PinNumber(o: Owner, number: Option<nat>) returns (ok: bool)
      requires Valid()
      modifies this`pins, loopbacks, fabric, vlans, asns
      ensures Valid()
      ensures ok <==> Pin(old(Abs()), o, number).Some?
      ensures ok ==> Abs() == Pin(old(Abs()), o, number).value
    {
      hide RangeMap, Ranges.Restore;
      if number.None? {
        return false;
      }
      ok := RestoreNumber(o, number.value);
      if ok {
        pins := pins[o := number.value];
      }
    }

    method RestoreDevice(node: Node) returns (ok: bool)
      requires Valid()
      modifies this, loopbacks, fabric, vlans, asns
      ensures Valid()
      ensures ok <==> RestoreNode(old(Replay()), node).Some?
      ensures ok ==> Replay() == RestoreNode(old(Replay()), node).value
    {
      hide RangeMap, Pin, LoopbackNumber, VlanNumber;
      match node.spec
      case ServerSpec(_, _, _, _, _, _) =>
        return true;
      case RouterSpec(_, _, asn, loopback) =>
        ok := PinNumber(LoopbackOf(node.name), LoopbackNumber(loopback));
        if !ok { return; }
        ok := PinNumber(AsnOf(node.name), Some(asn));
      case LeafSpec(pod, rack, _, loopback, _, _, vlanIP, _, _, _, _) =>
        ok := PinNumber(LoopbackOf(node.name), LoopbackNumber(loopback));
        if !ok || (pod, rack) in rackSeen { return; }
        ok := PinNumber(VlanOf(pod, rack), VlanNumber(vlanIP));
        if !ok { return; }
        rackSeen := rackSeen + {(pod, rack)};
        rackSlots := rackSlots[pod := (if pod in rackSlots then rackSlots[pod] else []) + [rack]];
        if rack > maxRack {
          maxRack := rack;
        }
    }

    method RaiseIndex(ep: Endpoint)
      modifies this`ifIndex
      ensures ifIndex == Raise(old(ifIndex), ep)
    {
      if ep.eth > (if ep.node in ifIndex then ifIndex[ep.node] else 0) {
        ifIndex := ifIndex[ep.node := ep.eth];
      }
    }

    method RestoreWire(link: Link) returns (ok: bool)
      requires Valid()
      modifies this, loopbacks, fabric, vlans, asns
      ensures Valid() && unchanged(`rackSeen, `rackSlots, `maxRack)
      ensures ok <==> RestoreLink(old(Abs()), link).Some?
      ensures ok ==> Abs() == RestoreLink(old(Abs()), link).value
    {
      hide RangeMap, Pin, P2PNumber, Raise;
      baseLinks := baseLinks[link.name := (link.a.eth, link.z.eth)];
      if link.kind.Fabric? {
        ok := PinNumber(P2POf(link.name), if link.a.address.Some? then P2PNumber(link.a.address.value) else None);
        if !ok { return; }
      }
      RaiseIndex(link.a);
      RaiseIndex(link.z);
      return true;
    }

    /** `restore`: devices, then the rack slots in order, then links. */
    method RestoreTopology(base: Topo) returns (ok: bool)
      requires Valid() && Replay() == Restored(Empty(), {}, map[], 0)
      modifies this, loopbacks, fabric, vlans, asns
      ensures Valid()
      ensures ok <==> RestoreBase(base).Some?
      ensures ok ==> Replay() == RestoreBase(base).value
    {
      hide RangeMap, RestoreNode, RestoreLink, FreshRanges;
      ghost var start := Replay();
      for i := 0 to |base.nodes|
        invariant Valid()
        invariant RestoreNodes(start, base.nodes[..i]) == Some(Replay())
      {
        assert base.nodes[..i + 1][..i] == base.nodes[..i];
        ok := RestoreDevice(base.nodes[i]);
        if !ok {
          RestoreNodesFails(start, base.nodes, i + 1);
          return;
        }
      }
      assert base.nodes[..|base.nodes|] == base.nodes;
      ghost var replayed := Replay();
      rackSlots := SortedSlots(rackSlots);
      for i := 0 to |base.links|
        invariant Valid()
        invariant rackSeen == replayed.rackSeen && rackSlots == SortedSlots(replayed.rackSlots) && maxRack == replayed.maxRack
        invariant RestoreLinks(replayed.st, base.links[..i]) == Some(Abs())
      {
        assert base.links[..i + 1][..i] == base.links[..i];
        ok := RestoreWire(base.links[i]);
        if !ok {
          RestoreLinksFails(replayed.st, base.links, i + 1);
          return;
        }
      }
      assert base.links[..|base.links|] == base.links;
      return true;
    }
  }

  /** One plan's rebuild: a new builder, restored from the deployed topology, building the new spec. */
  method RebuildTopology(spec: TopologySpec, base: Topo) returns (result: Option<(Topo, seq<Record>)>)
    ensures match Rebuild(spec, base)
            case Some(st) => result == Some((TopoOf(st), st.records))
            case None => result == None
  {
    hide Run, Items, RestoreBase, Empty, ShapeFor, FreshRanges;
    var b := new Builder();
    var ok := b.RestoreTopology(base);
    if !ok {
      return None;
    }
    ok := b.Build(spec);
    if !ok {
      return None;
    }
    return Some((Topo(b.nodes, b.links), b.records));
  }
}
