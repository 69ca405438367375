/**
 Two runs of one small lab whose spec goes back and forth between one external and two. In the first an older plan
 is applied and deploys what a newer one previewed. In the second the lab is rolled back over a link that was removed
 and added again: nothing is compiled, and the pair stays on an interface the restored generation does not have.
 */
module ExampleRuns {
  import opened Wrappers
  import opened Sequences
  import opened Fabric
  import opened Script
  import opened ScriptFacts
  import opened Build
  import opened BuildInvariant
  import opened Certification
  import opened RackNumbers
  import opened Rebuilds
  import opened RebuildTheorems
  import opened WellFormedness
  import opened Allocations
  import opened PlanDiff
  import opened PlanTheorems
  import opened Deploy
  import opened DeployTheorems
  import opened LabSpec
  import opened Generations
  import opened GenerationTheorems
  import opened Provenance
  import opened Growth

  const E2 := ExternalName(2)
  const D1 := EdgeName(1)
  const SECOND := LinkName(E2, D1)
  const UP := LinkName(D1, SuperName(1))

  /** One of everything, apart from the externals. */
  function Wanted(externals: nat): TopologySpec {
    TopologySpec(externals, 1, 1, [PodSpec("pod-1", 1, 1, 1)])
  }

  lemma WantedIsReady(externals: nat)
    requires externals >= 1
    ensures SpecReady(Wanted(externals))
  {
  }

  // ---------- how many items the builds have ----------

  lemma {:induction false} NameCounts(n: nat, pod: string)
    ensures |Externals(n)| == n && |Edges(n)| == n && |Supers(n)| == n && |Spines(pod, n)| == n
  {
    if n > 0 { NameCounts(n - 1, pod); }
  }

  lemma {:induction false} RowCounts(ns: seq<Name>, a: Name, pod: string, rack: nat)
    ensures |Routers(ns)| == |ns| && |Row(a, ns)| == |ns| && |Uplinks(ns, pod, rack)| == 2 * |ns|
  {
    if ns != [] { RowCounts(ns[..|ns| - 1], a, pod, rack); }
  }

  lemma {:induction false} MeshCounts(xs: seq<Name>, zs: seq<Name>)
    requires |zs| == 1
    ensures |Mesh(xs, zs)| == |xs|
  {
    if xs != [] {
      MeshCounts(xs[..|xs| - 1], zs);
      RowCounts(zs, xs[|xs| - 1], "", 0);
    }
  }

  lemma PodCounts(supers: seq<Name>, p: PodShape)
    requires |supers| == 1 && p.spines == 1 && |p.racks| == 1 && p.servers == 1
    ensures |PodItems(supers, p)| == 8
  {
    var spines, r := Spines(p.name, 1), p.racks[0];
    NameCounts(1, p.name);
    RowCounts(spines, E2, p.name, r);
    assert spines == Spines(p.name, p.spines);
    MeshCounts(supers, spines);
    assert p.racks[..0] == [];
    assert RacksItems(p.name, p.racks, 1, spines) == [] + RackItems(p.name, r, 1, spines);
    assert |AccessLinks(p.name, r, 1)| == 2;
  }

  lemma ItemCounts(s: Shape)
    requires s.edges == 1 && s.supers == 1 && |s.pods| == 1
    requires s.pods[0].spines == 1 && |s.pods[0].racks| == 1 && s.pods[0].servers == 1
    ensures |Items(s)| == 2 * s.externals + 11
  {
    hide PodItems, Mesh, Routers, Externals, Edges, Supers;
    NameCounts(s.externals, "");
    NameCounts(1, "");
    RowCounts(Externals(s.externals), E2, "", 0);
    RowCounts(Edges(1), E2, "", 0);
    RowCounts(Supers(1), E2, "", 0);
    MeshCounts(Externals(s.externals), Edges(1));
    MeshCounts(Edges(1), Supers(1));
    PodCounts(Supers(1), s.pods[0]);
    assert s.pods[..0] == [];
    assert PodsItems(Supers(1), s.pods) == [] + PodItems(Supers(1), s.pods[0]);
  }

  // ---------- editing, planning and applying ----------

  /** One round: the spec is edited, a plan is made, and it is applied as the store lists it. */
  function Redeployed(l: Lab, spec: TopologySpec): Lab {
    var planned := After(After(l, UpdateTopology(spec)), MakePlan);
    After(planned, Apply(|l.plans|, planned.desired, Succeeded))
  }

  lemma RebuildsWanted(t: Topo, s: Shape, h: Holds, k: nat, m: nat)
    requires Certified(t, s, h) && NumbersBelow(h.held, k) && m >= 1 && k + 4 * m + 22 <= SMALLEST_POOL
    ensures Rebuild(Wanted(m), t).Some?
    ensures var st := Rebuild(Wanted(m), t).value;
            var s', h' := NewShape(Wanted(m), t), Holds(st.held, st.ports);
            && Certified(TopoOf(st), s', h') && Matches(Wanted(m), s') && Agree(h, h') && NumbersBelow(h'.held, k + 4 * m + 22)
  {
    hide Certified, Agree, NumbersBelow, Rebuild, Items, SlotsReady, Inv;
    WantedIsReady(m);
    ReplayCertified(t, s, h);
    NumberedMatches(RestoreBase(t).value, Wanted(m));
    ItemCounts(NewShape(Wanted(m), t));
    RebuildFits(Wanted(m), t, s, h, k);
    RebuildIsCertified(Wanted(m), t, s, h);
  }

  lemma PlansWanted(l: Lab, t: Topo, s: Shape, h: Holds, k: nat, m: nat)
    requires Reachable(l) && l.phase != PhaseApplying && BaseOf(l) == Some(t)
    requires Certified(t, s, h) && NumbersBelow(h.held, k) && m >= 1 && k + 4 * m + 22 <= SMALLEST_POOL
    ensures Rebuild(Wanted(m), t).Some?
    ensures var planned := After(After(l, UpdateTopology(Wanted(m))), MakePlan);
            && Reachable(planned) && CreatePlan(l.(spec := Wanted(m))) == Some(planned)
            && planned.desired == TopoOf(Rebuild(Wanted(m), t).value) && planned.spec == Wanted(m)
            && planned.generation == l.generation && planned.generations == l.generations && BaseOf(planned) == Some(t)
            && |planned.plans| == |l.plans| + 1 && planned.plans[..|l.plans|] == l.plans
            && planned.plans[|l.plans|].ops == Preview(t, planned.desired)
            && planned.plans[|l.plans|].base == l.generation && !planned.plans[|l.plans|].applied
  {
    hide Certified, NumbersBelow, Rebuild, Preview, NotRestored, Reachable, SpecReady, RestoreBase, Agree, Matches;
    WantedIsReady(m);
    RebuildsWanted(t, s, h, k, m);
    RestoreOf(Wanted(m), t);
    StepIsReachable(l, UpdateTopology(Wanted(m)));
    StepIsReachable(After(l, UpdateTopology(Wanted(m))), MakePlan);
  }

  lemma Redeploys(l: Lab, t: Topo, s: Shape, h: Holds, k: nat, m: nat)
    requires Reachable(l) && l.phase != PhaseApplying && BaseOf(l) == Some(t)
    requires Certified(t, s, h) && NumbersBelow(h.held, k) && m >= 1 && k + 4 * m + 22 <= SMALLEST_POOL
    ensures Rebuild(Wanted(m), t).Some?
    ensures var t', l' := TopoOf(Rebuild(Wanted(m), t).value), Redeployed(l, Wanted(m));
            && Reachable(l') && l'.phase == PhaseRunning && l'.generation == l.generation + 1 && BaseOf(l') == Some(t')
            && l'.generations == Save(l.generations, l.generation + 1, Snapshot(Wanted(m), t'))
            && |l'.plans| == |l.plans| + 1
  {
    hide Certified, NumbersBelow, Rebuild, Preview, Reachable, Save, CreatePlan, LabInv, Agree, Matches;
    PlansWanted(l, t, s, h, k, m);
    var planned := After(After(l, UpdateTopology(Wanted(m))), MakePlan);
    ReachableKeeps(planned);
    StepIsReachable(planned, Apply(|l.plans|, planned.desired, Succeeded));
    SucceededIs(planned, |l.plans|, planned.desired, Redeployed(l, Wanted(m)));
  }

  lemma FreshLab(m: nat)
    requires m >= 1
    ensures Reachable(NewLab(Wanted(m))) && BaseOf(NewLab(Wanted(m))) == Some(Topo([], []))
    ensures Certified(Topo([], []), Shape(0, 0, 0, []), Holds(map[], map[])) && NumbersBelow(map[], 0)
  {
    hide Reachable, Certified, NumbersBelow;
    WantedIsReady(m);
    CreatedIsReachable(Wanted(m));
    NothingDeployed();
  }

  lemma NothingDeployed()
    ensures Certified(Topo([], []), Shape(0, 0, 0, []), Holds(map[], map[])) && NumbersBelow(map[], 0)
  {
    hide Certified;
    EmptyIsCertified();
  }

  // ---------- an older plan ----------

  /** A plan for one external is made and then one for two; applying the first deploys the second's topology. */
  lemma OlderPlanDeploysNewerState(listed: Topo)
    ensures var first := After(After(NewLab(Wanted(1)), UpdateTopology(Wanted(1))), MakePlan);
            var l := After(After(first, UpdateTopology(Wanted(2))), MakePlan);
            && Reachable(l) && Applicable(l, 0) && |l.plans| == 2
            && CreateNode(E2) !in l.plans[0].ops && CreateNode(E2) in l.plans[1].ops
            && (Lists(l.desired, listed) ==>
                  && ApplyPlan(l, 0, listed, Succeeded).Some?
                  && var l' := ApplyPlan(l, 0, listed, Succeeded).value;
                     BaseOf(l') == Some(listed) && !SameOps(l.plans[0].ops, Preview(Topo([], []), listed)))
  {
    hide Certified, NumbersBelow, Rebuild, Preview, Reachable, Save, CreatePlan, LabInv, Agree, Matches, NewShape, Lists, After;
    var empty, none, nothing := Topo([], []), Shape(0, 0, 0, []), Holds(map[], map[]);
    FreshLab(1);
    PlansWanted(NewLab(Wanted(1)), empty, none, nothing, 0, 1);
    var first := After(After(NewLab(Wanted(1)), UpdateTopology(Wanted(1))), MakePlan);
    PlannedPhase(NewLab(Wanted(1)).(spec := Wanted(1)), first);
    PlansWanted(first, empty, none, nothing, 0, 2);
    var l := After(After(first, UpdateTopology(Wanted(2))), MakePlan);
    assert l.plans[0] == first.plans[0] by { assert l.plans[..1] == first.plans; assert l.plans[..1][0] == l.plans[0]; }
    ExternalsWanted(empty, none, nothing, 1);
    ExternalsWanted(empty, none, nothing, 2);
    assert Applicable(l, 0);
    if Lists(l.desired, listed) {
      ReachableKeeps(l);
      DeploysItsPreviewIff(l, 0, empty, listed, ApplyPlan(l, 0, listed, Succeeded).value);
    }
  }

  lemma PlannedPhase(l: Lab, planned: Lab)
    requires CreatePlan(l) == Some(planned)
    ensures planned.phase == PhasePlanning
  {
    hide Rebuild, Preview, NotRestored, RestoreBase;
  }

  lemma ExternalsWanted(t: Topo, s: Shape, h: Holds, m: nat)
    requires Certified(t, s, h) && NumbersBelow(h.held, 0) && 1 <= m <= 2 && t.nodes == []
    ensures Rebuild(Wanted(m), t).Some?
    ensures CreateNode(E2) in Preview(t, TopoOf(Rebuild(Wanted(m), t).value)) <==> m == 2
  {
    hide Certified, NumbersBelow, Rebuild, Preview, Agree, Matches, NodeSet;
    RebuildsWanted(t, s, h, 0, m);
    var st := Rebuild(Wanted(m), t).value;
    var res := TopoOf(st);
    PreviewIs(t, res, CreateNode(E2));
    CertifiedNodes(res, NewShape(Wanted(m), t), Holds(st.held, st.ports), E2);
    NodeSetIs(res.nodes, E2);
    NodeSetIs(t.nodes, E2);
    RestoreOf(Wanted(m), t);
  }

  // ---------- a rollback over a link that came back ----------

  /** The pods of a shape keep their racks when only the externals of the spec change. */
  lemma PodsKept(t: Topo, s: Shape, h: Holds, n: nat, m: nat)
    requires Certified(t, s, h) && Matches(Wanted(n), s)
    ensures RestoreBase(t).Some? && NewShape(Wanted(m), t) == s.(externals := m)
  {
    hide Certified, SlotsReady, Inv, DistinctPods;
    ReplayCertified(t, s, h);
    FitParts(t, s, h);
    NumberingIsStable(RestoreBase(t).value, s, h, Wanted(n), |s.pods|);
    assert Wanted(n).pods[..|s.pods|] == Wanted(n).pods && s.pods[..|s.pods|] == s.pods;
  }

  /** In a first build the edge's link to its super-spine lands past its link to the second external. */
  lemma UplinkLandsFurther(r: Restored, s: Shape, none: Shape)
    requires Replayed(r, none, Holds(map[], map[])) && DistinctPods(s) && Run(r.st, Items(s)).Some?
    requires s.externals == 2 && s.edges == 1 && s.supers == 1
    ensures var ports := Run(r.st, Items(s)).value.ports;
            SECOND in ports && UP in ports && PortAt(ports, SECOND, true) < PortAt(ports, UP, false)
  {
    hide Inv, Run, SlotsReady, DistinctPods, Mesh, Routers, PodsItems, WiresOf, OneEach, AllWellFormed, Externals, Edges, Supers;
    var xs := Routers(Externals(2)) + Routers(Edges(1)) + Routers(Supers(1)) + Mesh(Externals(2), Edges(1));
    var ys := Mesh(Edges(1), Supers(1)) + PodsItems(Supers(1), s.pods);
    assert Items(s) == xs + ys;
    ItemsDiffer(s);
    ItemsAreWellFormed(s);
    NamesAre(1, "", 0, D1);
    NamesAre(2, "", 0, E2);
    NamesAre(1, "", 0, SuperName(1));
    InMesh(Externals(2), Edges(1), WireItem(SECOND));
    InMesh(Edges(1), Supers(1), WireItem(UP));
    InOneHalf(xs, ys, SECOND, UP);
    LaterLandsFurther(r.st, xs, ys, SECOND, UP, true, false);
  }

  lemma InOneHalf(xs: seq<Item>, ys: seq<Item>, ln: LinkName, ln': LinkName)
    requires OneEach(xs + ys) && AllWellFormed(xs + ys) && WireItem(ln) in xs && WireItem(ln') in ys
    ensures ln in WiresOf(xs) && ln !in WiresOf(ys) && ln' in WiresOf(ys)
  {
    hide WiresOf;
    assert AllWellFormed(xs) by { forall x | x in xs ensures x in xs + ys {} }
    assert AllWellFormed(ys) by { forall x | x in ys ensures x in xs + ys {} }
    MembersOf(xs, AsnOf(ln.a), ln.a, ln);
    MembersOf(ys, AsnOf(ln.a), ln.a, ln);
    MembersOf(ys, AsnOf(ln.a), ln.a, ln');
    var i :| 0 <= i < |xs| && xs[i] == WireItem(ln);
    forall j | 0 <= j < |ys| ensures ys[j] != WireItem(ln) {
      assert Key((xs + ys)[i]) != Key((xs + ys)[|xs| + j]);
    }
  }

  lemma FirstBuild(t: Topo)
    requires t == Topo([], []) && Rebuild(Wanted(2), t).Some?
    ensures var ports := Rebuild(Wanted(2), t).value.ports;
            SECOND in ports && UP in ports && PortAt(ports, SECOND, true) < PortAt(ports, UP, false)
  {
    hide Certified, SlotsReady, Run, Items;
    EmptyIsCertified();
    ReplayCertified(t, Shape(0, 0, 0, []), Holds(map[], map[]));
    WantedIsReady(2);
    ShapeIsDistinct(RestoreBase(t).value, Wanted(2));
    UplinkLandsFurther(RestoreBase(t).value, NewShape(Wanted(2), t), Shape(0, 0, 0, []));
  }

  /** Removed with its external and added again, the link lands past the uplink. */
  lemma ComesBackElsewhere(t1: Topo, s1: Shape, h1: Holds, t2: Topo, s2: Shape, h2: Holds, s3: Shape, h3: Holds)
    requires Certified(t1, s1, h1) && Certified(t2, s2, h2) && Rebuild(Wanted(2), t2).Some?
    requires h3 == Holds(Rebuild(Wanted(2), t2).value.held, Rebuild(Wanted(2), t2).value.ports)
    requires s3 == NewShape(Wanted(2), t2) && s3.externals == 2 && s3.edges == 1 && s3.supers == 1
    requires s2.externals == 1 && s2.edges == 1 && s2.supers == 1 && Agree(h1, h2)
    requires UP in h1.ports && SECOND in h1.ports && PortAt(h1.ports, SECOND, true) < PortAt(h1.ports, UP, false)
    ensures SECOND in h3.ports && h3.ports[SECOND] != h1.ports[SECOND]
  {
    hide NodesCertified, LinksCertified, Exclusive, PortsExclusive, DistinctPods, Rebuild, NewShape;
    WantedIsReady(2);
    assert HasLink(s2, UP) && !HasLink(s2, SECOND) && HasLink(s3, SECOND);
    AddedLandsPast(Wanted(2), t2, s2, h2, SECOND, UP, true, false);
  }

  lemma PortsDiffer(t: Topo, s: Shape, h: Holds, t': Topo, s': Shape, h': Holds, ln: LinkName)
    requires Certified(t, s, h) && Certified(t', s', h') && ln in h.ports && ln in h'.ports && h.ports[ln] != h'.ports[ln]
    ensures !SamePorts(t, t')
  {
    hide NodesCertified, Exclusive, PortsExclusive, DistinctPods, HasLink;
    var l := LinkNamed(t.links, ln);
    var l' := LinkNamed(t'.links, ln);
    assert l == LinkOf(ln, h.held, h.ports) && l' == LinkOf(ln, h'.held, h'.ports);
  }

  lemma SameSetsOfOneShape(t: Topo, s: Shape, h: Holds, t': Topo, h': Holds)
    requires Certified(t, s, h) && Certified(t', s, h')
    ensures NodeSet(t.nodes) == NodeSet(t'.nodes) && LinkSet(t.links) == LinkSet(t'.links)
  {
    hide HoldsFit, DistinctPods, HasNode, HasLink, NodeOf, LinkOf;
    forall n ensures n in NodeSet(t.nodes) <==> n in NodeSet(t'.nodes) {
      NodeSetIs(t.nodes, n);
      NodeSetIs(t'.nodes, n);
    }
    forall ln ensures ln in LinkSet(t.links) <==> ln in LinkSet(t'.links) {
      LinkSetIs(t.links, ln);
      LinkSetIs(t'.links, ln);
    }
  }

  /** Compiling the difference lists nothing to add or remove, and a complete run leaves other pairs than those of `res`. */
  ghost predicate Misplaces(base: Topo, res: Topo) {
    forall inc :: Compiled(inc, base, res) ==>
      && inc.addNodes == [] && inc.addLinks == [] && inc.removeNodes == []
      && FinalWires(Pairs(base), inc) != Pairs(res)
  }

  lemma MovedIsMisplaced(base: Topo, res: Topo, s: Shape, h: Holds, h': Holds, ln: LinkName)
    requires Certified(base, s, h) && Certified(res, s, h') && ln in h.ports && ln in h'.ports && h.ports[ln] != h'.ports[ln]
    ensures Misplaces(base, res)
  {
    hide Certified, Compiled, FinalWires, Pairs, SamePorts, NodeSet, LinkSet;
    PortsDiffer(base, s, h, res, s, h', ln);
    SameSetsOfOneShape(base, s, h, res, h');
    forall inc | Compiled(inc, base, res)
      ensures inc.addNodes == [] && inc.addLinks == [] && inc.removeNodes == []
      ensures FinalWires(Pairs(base), inc) != Pairs(res)
    {
      NothingListed(inc, base, res);
      ExactIffSamePorts(inc, base, s, h, res, s, h');
    }
  }

  lemma AddedAgain(t1: Topo, s1: Shape, h1: Holds, t2: Topo, h2: Holds)
    requires Certified(t1, s1, h1) && Matches(Wanted(2), s1) && Certified(t2, s1.(externals := 1), h2) && Agree(h1, h2)
    requires NumbersBelow(h2.held, 56)
    requires UP in h1.ports && SECOND in h1.ports && PortAt(h1.ports, SECOND, true) < PortAt(h1.ports, UP, false)
    ensures Rebuild(Wanted(2), t2).Some? && Misplaces(TopoOf(Rebuild(Wanted(2), t2).value), t1)
  {
    hide Certified, NumbersBelow, Rebuild, Agree, NewShape, Misplaces;
    var s2 := s1.(externals := 1);
    RebuildsWanted(t2, s2, h2, 56, 2);
    PodsKept(t2, s2, h2, 1, 2);
    var st3 := Rebuild(Wanted(2), t2).value;
    var h3 := Holds(st3.held, st3.ports);
    ComesBackElsewhere(t1, s1, h1, t2, s2, h2, s1, h3);
    MovedIsMisplaced(TopoOf(st3), t1, s1, h3, h1, SECOND);
  }

  /** The three topologies the lab goes through. */
  lemma ThreeTopologies()
    ensures Rebuild(Wanted(2), Topo([], [])).Some?
    ensures var t1 := TopoOf(Rebuild(Wanted(2), Topo([], [])).value);
            && Rebuild(Wanted(1), t1).Some?
            && var t2 := TopoOf(Rebuild(Wanted(1), t1).value);
            && Rebuild(Wanted(2), t2).Some?
            && Misplaces(TopoOf(Rebuild(Wanted(2), t2).value), t1)
  {
    hide Certified, NumbersBelow, Rebuild, Agree, NewShape, Misplaces, Matches, PortAt;
    var t0, s0, h0 := Topo([], []), Shape(0, 0, 0, []), Holds(map[], map[]);
    NothingDeployed();
    RebuildsWanted(t0, s0, h0, 0, 2);
    FirstBuild(t0);
    var st1 := Rebuild(Wanted(2), t0).value;
    var t1, s1, h1 := TopoOf(st1), NewShape(Wanted(2), t0), Holds(st1.held, st1.ports);
    RebuildsWanted(t1, s1, h1, 30, 1);
    PodsKept(t1, s1, h1, 2, 1);
    var st2 := Rebuild(Wanted(1), t1).value;
    AddedAgain(t1, s1, h1, TopoOf(st2), Holds(st2.held, st2.ports));
  }

  lemma NothingListed(inc: Increment, base: Topo, res: Topo)
    requires Compiled(inc, base, res) && NodeSet(base.nodes) == NodeSet(res.nodes)
    requires LinkSet(base.links) == LinkSet(res.links)
    ensures inc.addNodes == [] && inc.addLinks == [] && inc.removeNodes == []
  {
    ListedNodes(inc, base, res);
    forall n ensures n !in inc.addNodes && n !in inc.removeNodes {
      assert n !in Elements(inc.addNodes) && n !in Elements(inc.removeNodes);
    }
    forall w ensures w !in inc.addLinks {
      AddedLinks(inc, base, res, w);
    }
    NoElements(inc.addNodes);
    NoElements(inc.removeNodes);
    NoElements(inc.addLinks);
  }

  lemma SavedStays(generations: map<nat, Snapshot>, n: nat, snap: Snapshot, g: nat)
    requires Retention(generations, n) && g in generations && g <= n && n + 1 < g + RETAINED
    ensures g in Save(generations, n + 1, snap) && Save(generations, n + 1, snap)[g] == generations[g]
  {
    var all := generations[n + 1 := snap];
    Bounded(Newer(all.Keys, g), g + 1, n + 2);
  }

  lemma FirstStays(g1: Lab, g2: Lab, g3: Lab)
    requires Reachable(g1) && Reachable(g2) && g1.generation == 1 && g2.generation == 2 && BaseOf(g1).Some?
    requires exists snap :: g2.generations == Save(g1.generations, 2, snap)
    requires exists snap :: g3.generations == Save(g2.generations, 3, snap)
    ensures 1 in g3.generations && Some(g3.generations[1].topo) == BaseOf(g1)
  {
    hide Reachable, Save, SpecReady, Built, SnapshotsBuilt, PlansOrdered, NewestPlanFits;
    ReachableKeeps(g1);
    ReachableKeeps(g2);
    var snap :| g2.generations == Save(g1.generations, 2, snap);
    SavedStays(g1.generations, 1, snap, 1);
    var snap' :| g3.generations == Save(g2.generations, 3, snap');
    SavedStays(g2.generations, 2, snap', 1);
  }

  lemma RollsBack(l: Lab, res: Topo)
    requires Reachable(l) && l.generation == 3 && |l.plans| == 3 && BaseOf(l).Some?
    requires 1 in l.generations && l.generations[1].topo == res
    ensures CreateRollbackPlan(l, 1).Some?
    ensures var rolled := CreateRollbackPlan(l, 1).value;
            && Reachable(rolled) && Applicable(rolled, 3) && rolled.desired == res && BaseOf(rolled) == BaseOf(l)
            && var l' := After(rolled, Apply(3, res, Succeeded));
               Reachable(l') && l'.generation == 4 && BaseOf(l') == Some(res)
  {
    hide Reachable, Save, Preview, NotHeld, Derive, LabInv;
    var rolled := CreateRollbackPlan(l, 1).value;
    StepIsReachable(l, MakeRollbackPlan(1));
    assert After(l, MakeRollbackPlan(1)) == rolled;
    ReachableKeeps(rolled);
    StepIsReachable(rolled, Apply(3, res, Succeeded));
    SucceededIs(rolled, 3, res, After(rolled, Apply(3, res, Succeeded)));
  }

  /**
   A lab is deployed with two externals, then one, then two again, and rolled back to the first generation. The
   increment is empty, so the apply leaves every pair where it is, and the lab then records as deployed a
   generation whose pairs are not the ones that run.
   */
  lemma RollbackMisplacesALink()
    ensures var g1 := Redeployed(NewLab(Wanted(2)), Wanted(2));
            var g3 := Redeployed(Redeployed(g1, Wanted(1)), Wanted(2));
            && Reachable(g3) && g3.generation == 3 && CreateRollbackPlan(g3, 1).Some?
            && var rolled := CreateRollbackPlan(g3, 1).value;
               var res := rolled.desired;
            && Reachable(rolled) && Applicable(rolled, 3)
            && BaseOf(rolled).Some? && BaseOf(g1) == Some(res)
            && Misplaces(BaseOf(rolled).value, res)
            && var l' := After(rolled, Apply(3, res, Succeeded));
               Reachable(l') && l'.generation == 4 && BaseOf(l') == Some(res)
  {
    hide Certified, NumbersBelow, Rebuild, Reachable, Save, LabInv, Agree, Matches, NewShape, Misplaces,
      Redeployed, Preview, NotHeld, Derive, SpecReady;
    ThreeTopologies();
    var t0, s0, h0 := Topo([], []), Shape(0, 0, 0, []), Holds(map[], map[]);
    FreshLab(2);
    RebuildsWanted(t0, s0, h0, 0, 2);
    Redeploys(NewLab(Wanted(2)), t0, s0, h0, 0, 2);
    var st1 := Rebuild(Wanted(2), t0).value;
    var t1, s1, h1 := TopoOf(st1), NewShape(Wanted(2), t0), Holds(st1.held, st1.ports);
    var g1 := Redeployed(NewLab(Wanted(2)), Wanted(2));
    RebuildsWanted(t1, s1, h1, 30, 1);
    Redeploys(g1, t1, s1, h1, 30, 1);
    var st2 := Rebuild(Wanted(1), t1).value;
    var t2, s2, h2 := TopoOf(st2), NewShape(Wanted(1), t1), Holds(st2.held, st2.ports);
    var g2 := Redeployed(g1, Wanted(1));
    Redeploys(g2, t2, s2, h2, 56, 2);
    var g3 := Redeployed(g2, Wanted(2));
    FirstStays(g1, g2, g3);
    RollsBack(g3, t1);
  }
}
