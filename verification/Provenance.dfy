/**
 Which spec a retained topology was planned for. A snapshot stores the lab's spec at the moment of the apply, which
 an edit may have changed since the plan; this says exactly when spec and topology still belong together, over
 every run, and that planning again is a no-op exactly then.
 */
module Provenance {
  import opened Wrappers
  import opened Sequences
  import opened Decimal
  import opened Fabric
  import opened Script
  import opened Build
  import opened BuildInvariant
  import opened Certification
  import opened RackNumbers
  import opened Rebuilds
  import opened RebuildTheorems
  import opened WellFormedness
  import opened PlanDiff
  import opened PlanTheorems
  import opened LabSpec
  import opened Generations
  import opened GenerationTheorems

  // ---------- two specs, one topology ----------

  /** The pods a spec asks for, under the names the builder gives them, in any order. */
  function Demands(pods: seq<PodSpec>): set<PodSpec> {
    set k | 0 <= k < |pods| :: pods[k].(name := PodId(pods[k].name, k + 1))
  }

  predicate SameDemand(spec: TopologySpec, spec': TopologySpec) {
    && spec.externals == spec'.externals && spec.edges == spec'.edges && spec.supers == spec'.supers
    && Demands(spec.pods) == Demands(spec'.pods)
  }

  function DemandOf(p: PodShape): PodSpec {
    PodSpec(p.name, p.spines, |p.racks|, p.servers)
  }

  lemma DemandsAre(spec: TopologySpec, s: Shape, d: PodSpec)
    requires Matches(spec, s)
    ensures d in Demands(spec.pods) <==> exists p :: p in s.pods && DemandOf(p) == d
  {
    if d in Demands(spec.pods) {
      var k :| 0 <= k < |spec.pods| && spec.pods[k].(name := PodId(spec.pods[k].name, k + 1)) == d;
      assert s.pods[k] in s.pods && DemandOf(s.pods[k]) == d;
    }
    if p :| p in s.pods && DemandOf(p) == d {
      var k :| 0 <= k < |s.pods| && s.pods[k] == p;
      assert spec.pods[k].(name := PodId(spec.pods[k].name, k + 1)) == d;
    }
  }

  /** Every pod of a shape has something on every tier. */
  ghost predicate NoEmptyPod(s: Shape) {
    forall p :: p in s.pods ==> p.spines >= 1 && |p.racks| >= 1 && p.servers >= 1
  }

  lemma MatchedIsFull(spec: TopologySpec, s: Shape)
    requires SpecReady(spec) && Matches(spec, s)
    ensures NoEmptyPod(s)
  {
    forall p | p in s.pods ensures p.spines >= 1 && |p.racks| >= 1 && p.servers >= 1 {
      var k :| 0 <= k < |s.pods| && s.pods[k] == p;
      assert ValidPod(spec.pods[k]);
    }
  }

  lemma PodByName(s: Shape, p: PodShape, n: Name)
    requires DistinctPods(s) && p in s.pods && !n.ExternalName? && !n.EdgeName? && !n.SuperName? && PodOf(n) == p.name
    ensures HasNode(s, n) <==> Hosts(p, n)
  {
    if q :| q in s.pods && Hosts(q, n) {
      var k :| 0 <= k < |s.pods| && s.pods[k] == p;
      var l :| 0 <= l < |s.pods| && s.pods[l] == q;
      assert k == l;
    }
  }

  /** A pod is determined by the devices it has. */
  lemma PodFound(s: Shape, s': Shape, p: PodShape)
    requires DistinctPods(s) && DistinctPods(s') && NoEmptyPod(s) && NoEmptyPod(s') && p in s.pods
    requires forall n :: HasNode(s, n) <==> HasNode(s', n)
    ensures p in s'.pods
  {
    var first := SpineName(p.name, 1);
    PodByName(s, p, first);
    var q :| q in s'.pods && Hosts(q, first);
    hide HasNode;
    forall n: Name | !n.ExternalName? && !n.EdgeName? && !n.SuperName? && PodOf(n) == p.name
      ensures Hosts(p, n) <==> Hosts(q, n)
    {
      PodByName(s, p, n);
      PodByName(s', q, n);
    }
    SamePod(p, q) by {
      assert Ascending(p.racks) by { RacksAscend(s, p); }
      assert Ascending(q.racks) by { RacksAscend(s', q); }
    }
  }

  lemma RacksAscend(s: Shape, p: PodShape)
    requires DistinctPods(s) && p in s.pods
    ensures Ascending(p.racks)
  {
    var k :| 0 <= k < |s.pods| && s.pods[k] == p;
  }

  lemma SamePod(p: PodShape, q: PodShape)
    requires p.name == q.name && Ascending(p.racks) && Ascending(q.racks)
    requires p.spines >= 1 && |p.racks| >= 1 && p.servers >= 1 && q.spines >= 1 && |q.racks| >= 1 && q.servers >= 1
    requires forall n: Name :: !n.ExternalName? && !n.EdgeName? && !n.SuperName? && PodOf(n) == p.name ==>
               (Hosts(p, n) <==> Hosts(q, n))
    ensures p == q
  {
    assert Hosts(p, SpineName(p.name, p.spines)) && Hosts(q, SpineName(p.name, q.spines));
    forall x ensures x in p.racks <==> x in q.racks {
      assert Hosts(p, LeafAName(p.name, x)) <==> Hosts(q, LeafAName(p.name, x));
    }
    AscendingUnique(p.racks, q.racks);
    var r := p.racks[0];
    assert Hosts(p, ServerName(p.name, r, p.servers)) && Hosts(q, ServerName(p.name, r, q.servers));
  }

  /** Shapes with the same devices ask for the same. */
  lemma SameNodesSamePods(s: Shape, s': Shape)
    requires DistinctPods(s) && DistinctPods(s') && NoEmptyPod(s) && NoEmptyPod(s')
    requires forall n :: HasNode(s, n) <==> HasNode(s', n)
    ensures s.externals == s'.externals && s.edges == s'.edges && s.supers == s'.supers
    ensures forall p :: p in s.pods <==> p in s'.pods
  {
    assert HasNode(s, ExternalName(s.externals)) <==> HasNode(s', ExternalName(s.externals));
    assert HasNode(s, ExternalName(s'.externals)) <==> HasNode(s', ExternalName(s'.externals));
    assert HasNode(s, EdgeName(s.edges)) <==> HasNode(s', EdgeName(s.edges));
    assert HasNode(s, EdgeName(s'.edges)) <==> HasNode(s', EdgeName(s'.edges));
    assert HasNode(s, SuperName(s.supers)) <==> HasNode(s', SuperName(s.supers));
    assert HasNode(s, SuperName(s'.supers)) <==> HasNode(s', SuperName(s'.supers));
    hide HasNode, DistinctPods;
    forall p ensures p in s.pods <==> p in s'.pods {
      if p in s.pods { PodFound(s, s', p); }
      if p in s'.pods { PodFound(s', s, p); }
    }
  }

  /** Certification only looks at which devices a shape has. */
  lemma Reshaped(t: Topo, s: Shape, h: Holds, s': Shape)
    requires Certified(t, s, h) && DistinctPods(s') && forall n :: HasNode(s, n) <==> HasNode(s', n)
    ensures Certified(t, s', h)
  {
    hide HasNode, DistinctPods, Exclusive, PortsExclusive, NodeOf, LinkOf;
    assert forall ln :: HasLink(s, ln) <==> HasLink(s', ln);
    assert forall o :: Needs(s, o) <==> Needs(s', o);
  }

  lemma SamePodsSameNodes(s: Shape, s': Shape)
    requires s.externals == s'.externals && s.edges == s'.edges && s.supers == s'.supers
    requires forall p :: p in s.pods <==> p in s'.pods
    ensures forall n :: HasNode(s, n) <==> HasNode(s', n)
  {
  }

  /** The pods of a shape in the order another spec lists them. */
  lemma Reorder(s: Shape, spec: TopologySpec, spec': TopologySpec, k: nat) returns (pods: seq<PodShape>)
    requires Matches(spec, s) && SameDemand(spec, spec') && k <= |spec'.pods|
    ensures |pods| == k
    ensures forall i :: 0 <= i < k ==>
              pods[i] in s.pods && DemandOf(pods[i]) == spec'.pods[i].(name := PodId(spec'.pods[i].name, i + 1))
  {
    if k == 0 {
      pods := [];
    } else {
      var init := Reorder(s, spec, spec', k - 1);
      var d := spec'.pods[k - 1].(name := PodId(spec'.pods[k - 1].name, k));
      assert d in Demands(spec'.pods);
      DemandsAre(spec, s, d);
      var p :| p in s.pods && DemandOf(p) == d;
      pods := init + [p];
    }
  }

  lemma ReorderIsAll(s: Shape, spec: TopologySpec, spec': TopologySpec, pods: seq<PodShape>)
    requires Matches(spec, s) && SameDemand(spec, spec') && DistinctPods(s) && DistinctIds(spec'.pods)
    requires |pods| == |spec'.pods|
    requires forall i :: 0 <= i < |pods| ==>
               pods[i] in s.pods && DemandOf(pods[i]) == spec'.pods[i].(name := PodId(spec'.pods[i].name, i + 1))
    ensures forall p :: p in s.pods <==> p in pods
    ensures DistinctPods(Shape(s.externals, s.edges, s.supers, pods))
  {
    forall p | p in s.pods ensures p in pods {
      DemandsAre(spec, s, DemandOf(p));
      var k :| 0 <= k < |spec'.pods| && spec'.pods[k].(name := PodId(spec'.pods[k].name, k + 1)) == DemandOf(p);
      OnePodPerName(s, p, pods[k]);
    }
    forall k, l | 0 <= k < l < |pods| ensures pods[k].name != pods[l].name {
      assert PodId(spec'.pods[k].name, k + 1) != PodId(spec'.pods[l].name, l + 1);
    }
    forall k | 0 <= k < |pods| ensures Ascending(pods[k].racks) { RacksAscend(s, pods[k]); }
    forall k, l, r | 0 <= k < l < |pods| && r in pods[k].racks ensures r !in pods[l].racks {
      if r in pods[l].racks { OnePodPerRack(s, pods[k], pods[l], r); }
    }
  }

  lemma OnePodPerName(s: Shape, p: PodShape, q: PodShape)
    requires DistinctPods(s) && p in s.pods && q in s.pods && p.name == q.name
    ensures p == q
  {
    var k :| 0 <= k < |s.pods| && s.pods[k] == p;
    var l :| 0 <= l < |s.pods| && s.pods[l] == q;
  }

  lemma OnePodPerRack(s: Shape, p: PodShape, q: PodShape, r: nat)
    requires DistinctPods(s) && p in s.pods && q in s.pods && r in p.racks && r in q.racks
    ensures p == q
  {
    var k :| 0 <= k < |s.pods| && s.pods[k] == p;
    var l :| 0 <= l < |s.pods| && s.pods[l] == q;
  }

  lemma CertifiedNodes(t: Topo, s: Shape, h: Holds, n: Name)
    requires Certified(t, s, h)
    ensures n in NodeNames(t.nodes) <==> HasNode(s, n)
    ensures DistinctPods(s)
  {
  }

  /** A topology planned for one spec is faithful to another if and only if both ask for the same pods and tiers. */
  lemma FaithfulIff(spec: TopologySpec, spec': TopologySpec, t: Topo)
    requires SpecReady(spec) && SpecReady(spec') && Faithful(spec, t)
    ensures Faithful(spec', t) <==> SameDemand(spec, spec')
  {
    hide Certified, Matches, SpecReady, SameDemand, DistinctPods;
    if Faithful(spec', t) { FaithfulSameDemand(spec, spec', t); }
    if SameDemand(spec, spec') { SameDemandFaithful(spec, spec', t); }
  }

  lemma FaithfulSameDemand(spec: TopologySpec, spec': TopologySpec, t: Topo)
    requires SpecReady(spec) && SpecReady(spec') && Faithful(spec, t) && Faithful(spec', t)
    ensures SameDemand(spec, spec')
  {
    hide Certified, SpecReady, HasNode, DistinctPods, NoEmptyPod, Demands;
    var s, h :| Certified(t, s, h) && Matches(spec, s);
    var s', h' :| Certified(t, s', h') && Matches(spec', s');
    forall n ensures HasNode(s, n) <==> HasNode(s', n) {
      CertifiedNodes(t, s, h, n);
      CertifiedNodes(t, s', h', n);
    }
    CertifiedNodes(t, s, h, ExternalName(0));
    CertifiedNodes(t, s', h', ExternalName(0));
    MatchedIsFull(spec, s);
    MatchedIsFull(spec', s');
    SameNodesSamePods(s, s');
    forall d ensures d in Demands(spec.pods) <==> d in Demands(spec'.pods) {
      DemandsAre(spec, s, d);
      DemandsAre(spec', s', d);
    }
  }

  lemma SameDemandFaithful(spec: TopologySpec, spec': TopologySpec, t: Topo)
    requires SpecReady(spec') && Faithful(spec, t) && SameDemand(spec, spec')
    ensures Faithful(spec', t)
  {
    hide Certified, HasNode, DistinctPods, Demands, DistinctIds;
    var s, h :| Certified(t, s, h) && Matches(spec, s);
    CertifiedNodes(t, s, h, ExternalName(0));
    var pods := Reorder(s, spec, spec', |spec'.pods|);
    var s' := Shape(s.externals, s.edges, s.supers, pods);
    ReorderIsAll(s, spec, spec', pods);
    SamePodsSameNodes(s, s');
    Reshaped(t, s, h, s');
    assert Matches(spec', s');
  }

  // ---------- planning again ----------

  lemma EmptyPreviewSameNodes(base: Topo, res: Topo)
    requires Preview(base, res) == []
    ensures NodeSet(base.nodes) == NodeSet(res.nodes)
  {
    hide Preview, NodeSet;
    forall n ensures n in NodeSet(base.nodes) <==> n in NodeSet(res.nodes) {
      PreviewIs(base, res, CreateNode(n));
      PreviewIs(base, res, DeleteNode(n));
    }
  }

  ghost predicate PlansNothing(l: Lab) {
    CreatePlan(l).Some? && CreatePlan(l).value.plans == l.plans + [Plan(l.generation, [], [], false)]
  }

  lemma FaithfulPlansNothing(l: Lab, base: Topo)
    requires LabInv(l) && BaseOf(l) == Some(base) && Faithful(l.spec, base)
    ensures PlansNothing(l)
  {
    hide SpecReady, SnapshotsBuilt, Retention, Preview, Rebuild, RestoreBase, NotRestored, Certified, Matches, IsNew, LabInv;
    var s, h :| Certified(base, s, h) && Matches(l.spec, s);
    FixpointPreviewsNothing(l.spec, base, s, h);
    RebuildReproduces(l.spec, base, s, h);
    RestoreOf(l.spec, base);
    NothingNotRestored(Rebuild(l.spec, base).value.records, RestoreBase(base).value);
  }

  /** In every reachable state, planning is a no-op if and only if what is deployed has the shape the spec asks for. */
  lemma PlansNothingIff(l: Lab, base: Topo)
    requires LabInv(l) && BaseOf(l) == Some(base)
    ensures PlansNothing(l) <==> Faithful(l.spec, base)
  {
    hide LabInv, Certified, Matches, Preview, Rebuild, RestoreBase, NotRestored;
    if Faithful(l.spec, base) { FaithfulPlansNothing(l, base); }
    if PlansNothing(l) {
      var planned := CreatePlan(l).value;
      assert planned.plans[|l.plans|].ops == [];
      assert Preview(base, planned.desired) == [];
      EmptyPreviewSameNodes(base, planned.desired);
      PlanIsFaithful(l, planned);
      BaseIsBuilt(l);
      SameNodesFaithful(l.spec, base, planned.desired);
    }
  }

  /** After a successful apply the next plan is a no-op if and only if the applied topology was planned for the current spec. */
  lemma AppliedPlanConvergesIff(l: Lab, i: nat, listed: Topo, l': Lab)
    requires LabInv(l) && Lists(l.desired, listed) && ApplyPlan(l, i, listed, Succeeded) == Some(l')
    ensures PlansNothing(l') <==> Faithful(l.spec, l.desired)
  {
    hide Faithful, LabInv, Lists, PlansNothing;
    SucceededIs(l, i, listed, l');
    ApplyKeeps(l, i, listed, Succeeded);
    ListedIsFaithful(l.spec, l.desired, listed);
    PlansNothingIff(l', listed);
  }

  lemma SameNodesFaithful(spec: TopologySpec, base: Topo, t: Topo)
    requires Built(base) && Faithful(spec, t) && NodeSet(base.nodes) == NodeSet(t.nodes)
    ensures Faithful(spec, base)
  {
    hide Certified, Matches, HasNode, ServersFit, NodeSet, DistinctPods;
    var s, h :| Certified(base, s, h) && ServersFit(s);
    var s', h' :| Certified(t, s', h') && Matches(spec, s');
    forall n ensures HasNode(s, n) <==> HasNode(s', n) {
      CertifiedNodes(base, s, h, n);
      CertifiedNodes(t, s', h', n);
      NodeSetIs(base.nodes, n);
      NodeSetIs(t.nodes, n);
    }
    CertifiedNodes(t, s', h', ExternalName(0));
    Reshaped(base, s, h, s');
  }

  // ---------- over runs ----------

  /** The spec the desired topology was planned for, and the one each saved generation was. */
  datatype Origins = Origins(desired: Option<TopologySpec>, saved: map<nat, TopologySpec>)

  function OriginsAfter(l: Lab, a: Action, o: Origins): Origins {
    match a
    case UpdateTopology(_) => o
    case MakePlan => if CreatePlan(l).Some? then o.(desired := Some(l.spec)) else o
    case MakeRollbackPlan(g) =>
      if CreateRollbackPlan(l, g).Some? && g in o.saved then o.(desired := Some(o.saved[g])) else o
    case Apply(i, listed, outcome) =>
      if ApplyPlan(l, i, listed, outcome).Some? && !outcome.FailedEarly? && o.desired.Some?
      then o.(saved := o.saved[l.generation + 1 := o.desired.value]) else o
  }

  function OriginsOf(states: seq<Lab>, actions: seq<Action>): Origins
    requires |states| == |actions| + 1
  {
    if actions == [] then Origins(None, map[])
    else
      var k := |actions| - 1;
      OriginsAfter(states[k], actions[k], OriginsOf(states[..k + 1], actions[..k]))
  }

  ghost predicate OriginsFit(l: Lab, o: Origins) {
    && (l.plans != [] ==> o.desired.Some?)
    && (o.desired.Some? ==> SpecReady(o.desired.value) && Faithful(o.desired.value, l.desired))
    && forall g :: g in l.generations ==>
         g in o.saved && SpecReady(o.saved[g]) && Faithful(o.saved[g], l.generations[g].topo)
  }

  lemma ListedIsFaithful(spec: TopologySpec, t: Topo, listed: Topo)
    requires Lists(t, listed)
    ensures Faithful(spec, t) <==> Faithful(spec, listed)
  {
    hide Certified, Matches;
    if Faithful(spec, t) {
      var s, h :| Certified(t, s, h) && Matches(spec, s);
      ListedIsCertified(t, listed, s, h);
    }
    if Faithful(spec, listed) {
      var s, h :| Certified(listed, s, h) && Matches(spec, s);
      ListedIsCertified(listed, t, s, h);
    }
  }

  lemma OriginsKept(l: Lab, a: Action, o: Origins)
    requires LabInv(l) && OriginsFit(l, o) && Allowed(l, a)
    ensures OriginsFit(After(l, a), OriginsAfter(l, a, o))
  {
    hide Faithful, SpecReady, Built, SnapshotsBuilt, Retention, Preview, Rebuild, RestoreBase, NotRestored, NotHeld, Lists,
      PlansOrdered, NewestPlanFits;
    match a
    case UpdateTopology(_) =>
    case MakePlan => if CreatePlan(l).Some? { PlanIsFaithful(l, CreatePlan(l).value); }
    case MakeRollbackPlan(_) =>
    case Apply(i, listed, outcome) => if o.desired.Some? { ListedIsFaithful(o.desired.value, l.desired, listed); }
  }

  lemma NothingSaved(spec: TopologySpec)
    ensures OriginsFit(NewLab(spec), Origins(None, map[]))
  {
  }

  /** Over every run, each retained topology has the shape of the spec it was planned for. */
  lemma {:induction false} EveryRunKnowsOrigins(spec: TopologySpec, states: seq<Lab>, actions: seq<Action>)
    requires SpecReady(spec) && Trace(states, actions) && states[0] == NewLab(spec)
    ensures LabInv(states[|actions|]) && OriginsFit(states[|actions|], OriginsOf(states, actions))
    decreases |actions|
  {
    hide After, Allowed, LabInv, SpecReady, Faithful, OriginsAfter, OriginsFit;
    if |actions| == 0 {
      NewLabKeeps(spec);
      NothingSaved(spec);
    } else {
      var k := |actions| - 1;
      assert Trace(states[..k + 1], actions[..k]);
      EveryRunKnowsOrigins(spec, states[..k + 1], actions[..k]);
      StepKeeps(states[k], actions[k]);
      OriginsKept(states[k], actions[k], OriginsOf(states[..k + 1], actions[..k]));
    }
  }

  /**
   In a state any run reaches, a retained snapshot's spec and topology belong together if and only if the spec stored
   with it still asked for what the topology was planned for.
   */
  lemma SnapshotIsFaithfulIff(l: Lab, o: Origins, g: nat)
    requires LabInv(l) && OriginsFit(l, o) && g in l.generations
    ensures g in o.saved
    ensures Faithful(l.generations[g].spec, l.generations[g].topo) <==> SameDemand(o.saved[g], l.generations[g].spec)
  {
    hide Faithful, SpecReady, Built, SameDemand;
    FaithfulIff(o.saved[g], l.generations[g].spec, l.generations[g].topo);
  }

  /**
   So after a rollback and its apply the next plan is a no-op exactly if, when the generation was first applied, the
   lab's spec still asked for what had been planned.
   */
  lemma RollbackConvergesIff(l: Lab, o: Origins, g: nat, rolled: Lab, listed: Topo, l': Lab)
    requires LabInv(l) && OriginsFit(l, o) && CreateRollbackPlan(l, g) == Some(rolled) && Lists(rolled.desired, listed)
    requires ApplyPlan(rolled, |l.plans|, listed, Succeeded) == Some(l')
    ensures g in l.generations && g in o.saved
    ensures PlansNothing(l') <==> SameDemand(o.saved[g], l.generations[g].spec)
  {
    hide Faithful, SpecReady, SameDemand, Preview, NotHeld, LabInv, Lists, PlansNothing;
    RollbackKeeps(l, g);
    SnapshotIsFaithfulIff(l, o, g);
    AppliedPlanConvergesIff(rolled, |l.plans|, listed, l');
  }
}
