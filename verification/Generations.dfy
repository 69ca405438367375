/**
 One lab over its whole life: spec edits, plans, rollback plans and applies that succeed or fail anywhere,
 with the ten newest generations retained. Every run keeps each desired and each retained topology certified,
 and the deployed generation is always there to build on.
 */
module Generations {
  import opened Wrappers
  import opened Sequences
  import opened Fabric
  import opened Script
  import opened Build
  import opened BuildInvariant
  import opened Certification
  import opened RackNumbers
  import opened Rebuilds
  import opened RebuildTheorems
  import opened WellFormedness
  import opened Allocations
  import opened PlanDiff
  import opened PlanTheorems
  import opened LabSpec

  datatype Phase = PhasePending | PhasePlanning | PhaseApplying | PhaseRunning | PhaseFailed

  /** A plan's new generation is always the one after its base. */
  datatype Plan = Plan(base: nat, ops: seq<PlanOp>, allocations: seq<Record>, applied: bool)

  datatype Snapshot = Snapshot(spec: TopologySpec, topo: Topo)

  datatype Lab = Lab(
    spec: TopologySpec, phase: Phase, generation: nat, desired: Topo,
    plans: seq<Plan>, generations: map<nat, Snapshot>)

  const RETAINED := 10

  function NewLab(spec: TopologySpec): Lab {
    Lab(spec, PhasePending, 0, Topo([], []), [], map[])
  }

  /** What a plan is computed against: the deployed generation, or nothing for a lab never applied. */
  function BaseOf(l: Lab): Option<Topo> {
    if l.generation == 0 then Some(Topo([], []))
    else if l.generation in l.generations then Some(l.generations[l.generation].topo)
    else None
  }

  // ---------- the transitions ----------

  /** Records whose owner the builder had not restored. */
  function NotRestored(records: seq<Record>, r: Restored): seq<Record> {
    if records == [] then []
    else
      var rec := records[|records| - 1];
      NotRestored(records[..|records| - 1], r) + if IsNew(r, rec) then [rec] else []
  }

  /** Records whose owner the base's own allocations do not list. */
  function NotHeld(records: seq<Record>, held: seq<Owner>): seq<Record> {
    if records == [] then []
    else
      var rec := records[|records| - 1];
      NotHeld(records[..|records| - 1], held) + if rec.owner in held then [] else [rec]
  }

  /** `CreatePlan`: rebuild on the deployed generation, keep the result as desired state, preview the diff. */
  function CreatePlan(l: Lab): Option<Lab> {
    var base :- BaseOf(l);
    var st :- Rebuild(l.spec, base);
    var r :- RestoreBase(base);
    Some(l.(desired := TopoOf(st), phase := PhasePlanning,
            plans := l.plans + [Plan(l.generation, Preview(base, TopoOf(st)), NotRestored(st.records, r), false)]))
  }

  /** `CreateRollbackPlan`: a retained generation becomes the desired state, and its spec the lab's. */
  function CreateRollbackPlan(l: Lab, generation: nat): Option<Lab> {
    if l.generation == 0 || generation == l.generation || generation !in l.generations then None
    else
      var base :- BaseOf(l);
      var target := l.generations[generation];
      var allocations := NotHeld(Derive(target.topo), Owners(Derive(base)));
      Some(l.(spec := target.spec, desired := target.topo, phase := PhasePlanning,
              plans := l.plans + [Plan(l.generation, Preview(base, target.topo), allocations, false)]))
  }

  /** `SaveGeneration`: insert or replace, then drop everything but the ten newest. */
  function Save(generations: map<nat, Snapshot>, g: nat, snap: Snapshot): map<nat, Snapshot> {
    var all := generations[g := snap];
    map k | k in all && |Newer(all.Keys, k)| < RETAINED :: all[k]
  }

  function Newer(keys: set<nat>, k: nat): set<nat> {
    set j | j in keys && j > k
  }

  /** An apply ends before its snapshot is saved, after that, or successfully. */
  datatype Outcome = FailedEarly | FailedLate | Succeeded

  /** The checks an apply makes before it starts. */
  predicate Applicable(l: Lab, plan: nat) {
    && plan < |l.plans| && !l.plans[plan].applied && l.plans[plan].base == l.generation && BaseOf(l).Some?
  }

  /** `ApplyPlan`: what is deployed is the desired state as the store lists it, whichever plan is applied. */
  function ApplyPlan(l: Lab, plan: nat, listed: Topo, outcome: Outcome): Option<Lab> {
    if !Applicable(l, plan) then None
    else if outcome.FailedEarly? then Some(l.(phase := PhaseFailed))
    else
      var saved := l.(generations := Save(l.generations, l.generation + 1, Snapshot(l.spec, listed)));
      if outcome.FailedLate? then Some(saved.(phase := PhaseFailed))
      else
        Some(saved.(generation := l.generation + 1, phase := PhaseRunning,
                    plans := l.plans[plan := l.plans[plan].(applied := true)]))
  }

  /** The store lists records in its own order. */
  ghost predicate Lists(t: Topo, listed: Topo) {
    multiset(t.nodes) == multiset(listed.nodes) && multiset(t.links) == multiset(listed.links)
  }

  datatype Action =
    | UpdateTopology(spec: TopologySpec)
    | MakePlan
    | MakeRollbackPlan(generation: nat)
    | Apply(plan: nat, listed: Topo, outcome: Outcome)

  /** What the precondition of the builder comes down to. */
  ghost predicate SpecReady(spec: TopologySpec) {
    ValidTopologySpec(spec) && DistinctIds(spec.pods)
  }

  /** What an action may be, given the state: an update settles its spec, an apply reads the stored rows. */
  ghost predicate Allowed(l: Lab, a: Action) {
    match a
    case UpdateTopology(spec) => SpecReady(spec)
    case Apply(_, listed, _) => Lists(l.desired, listed)
    case _ => true
  }

  /** The state after an action; one that is refused changes nothing. */
  function After(l: Lab, a: Action): Lab {
    match a
    case UpdateTopology(spec) => if l.phase == PhaseApplying then l else l.(spec := spec)
    case MakePlan => (match CreatePlan(l) case Some(l') => l' case None => l)
    case MakeRollbackPlan(g) => (match CreateRollbackPlan(l, g) case Some(l') => l' case None => l)
    case Apply(i, listed, outcome) => (match ApplyPlan(l, i, listed, outcome) case Some(l') => l' case None => l)
  }

  // ---------- the invariant ----------

  /** A topology some build left, with no rack beyond its subnet. */
  ghost predicate Built(t: Topo) {
    exists s, h :: Certified(t, s, h) && ServersFit(s)
  }

  ghost predicate SnapshotsBuilt(generations: map<nat, Snapshot>) {
    forall g :: g in generations ==> SpecReady(generations[g].spec) && Built(generations[g].topo)
  }

  ghost predicate Retention(generations: map<nat, Snapshot>, generation: nat) {
    && (forall g :: g in generations ==> 1 <= g <= generation + 1)
    && (generation > 0 ==> generation in generations)
    && |generations| <= RETAINED
  }

  /** Plans are made on ever newer generations, and one that was applied is behind the deployed generation. */
  ghost predicate PlansOrdered(l: Lab) {
    && (forall i, j :: 0 <= i < j < |l.plans| ==> l.plans[i].base <= l.plans[j].base)
    && (forall i :: 0 <= i < |l.plans| ==>
          l.plans[i].base <= l.generation && (l.plans[i].applied ==> l.plans[i].base < l.generation))
  }

  /** The newest plan, while it is on the deployed generation, previews exactly the desired state. */
  ghost predicate NewestPlanFits(l: Lab) {
    |l.plans| > 0 && l.plans[|l.plans| - 1].base == l.generation && BaseOf(l).Some? ==>
      l.plans[|l.plans| - 1].ops == Preview(BaseOf(l).value, l.desired)
  }

  ghost predicate LabInv(l: Lab) {
    && SpecReady(l.spec) && Built(l.desired) && SnapshotsBuilt(l.generations)
    && Retention(l.generations, l.generation)
    && PlansOrdered(l) && NewestPlanFits(l)
  }

  lemma NewLabKeeps(spec: TopologySpec)
    requires SpecReady(spec)
    ensures LabInv(NewLab(spec))
  {
    EmptyIsCertified();
  }

  lemma BaseIsBuilt(l: Lab)
    requires LabInv(l)
    ensures BaseOf(l).Some? && Built(BaseOf(l).value)
  {
    EmptyIsCertified();
  }

  /** A valid spec never outgrows a rack's subnet. */
  lemma ShapeServersFit(r: Restored, spec: TopologySpec)
    requires SlotsReady(r.rackSlots, r.maxRack) && SpecReady(spec)
    ensures ServersFit(ShapeFor(r, spec))
  {
    hide SlotsReady;
    ShapeIsDistinct(r, spec);
  }

  lemma NewShapeFits(spec: TopologySpec, base: Topo, s: Shape, h: Holds)
    requires Certified(base, s, h) && SpecReady(spec)
    ensures ServersFit(NewShape(spec, base))
  {
    hide Certified, SlotsReady, SpecReady, Inv, ServersFit;
    ReplayCertified(base, s, h);
    ShapeServersFit(RestoreBase(base).value, spec);
  }

  lemma RebuildIsBuilt(spec: TopologySpec, base: Topo)
    requires Built(base) && SpecReady(spec) && Rebuild(spec, base).Some?
    ensures Built(TopoOf(Rebuild(spec, base).value))
  {
    hide Certified, ServersFit, Rebuild;
    var s, h :| Certified(base, s, h) && ServersFit(s);
    var st := Rebuild(spec, base).value;
    RebuildIsCertified(spec, base, s, h);
    NewShapeFits(spec, base, s, h);
    assert Certified(TopoOf(st), NewShape(spec, base), Holds(st.held, st.ports));
  }

  // ---------- the store's order does not matter ----------

  lemma {:induction false} DistinctCounts<T>(xs: seq<T>)
    ensures Distinct(xs) <==> forall x :: multiset(xs)[x] <= 1
  {
    if xs != [] {
      var init, last := xs[..|xs| - 1], xs[|xs| - 1];
      assert xs == init + [last];
      DistinctAppend(init, last);
      DistinctCounts(init);
      assert multiset(xs) == multiset(init) + multiset{last};
      assert last in init <==> last in multiset(init);
      if last in init { assert multiset(xs)[last] > 1; }
      if !Distinct(xs) && last !in init {
        var x :| multiset(init)[x] > 1;
        assert multiset(xs)[x] > 1;
      }
      if Distinct(xs) {
        forall x ensures multiset(xs)[x] <= 1 {
          if x == last { assert last !in multiset(init); } else { assert multiset(init)[x] <= 1; }
        }
      }
    }
  }

  lemma ListedNodesCertified(t: Topo, listed: Topo, s: Shape, h: Holds)
    requires NodesCertified(t.nodes, s, h.held) && multiset(t.nodes) == multiset(listed.nodes)
    ensures NodesCertified(listed.nodes, s, h.held)
  {
    hide HasNode, NodeOf;
    var xs, ys := t.nodes, listed.nodes;
    forall x ensures x in xs <==> x in ys { assert x in multiset(xs) <==> x in multiset(ys); }
    forall i, j | 0 <= i < j < |xs| ensures xs[i] != xs[j] { assert NodeNames(xs)[i] != NodeNames(xs)[j]; }
    DistinctCounts(xs);
    DistinctCounts(ys);
    forall i, j | 0 <= i < j < |ys| ensures NodeNames(ys)[i] != NodeNames(ys)[j] {
      assert ys[i] in xs && ys[j] in xs && ys[i] != ys[j];
      SameNameSameNode(xs, ys[i], ys[j]);
    }
    forall n ensures n in NodeNames(ys) <==> HasNode(s, n) {
      NodeSetIs(xs, n);
      NodeSetIs(ys, n);
    }
  }

  lemma SameNameSameNode(xs: seq<Node>, x: Node, y: Node)
    requires Distinct(NodeNames(xs)) && x in xs && y in xs && x != y
    ensures x.name != y.name
  {
    var i :| 0 <= i < |xs| && xs[i] == x;
    var j :| 0 <= j < |xs| && xs[j] == y;
    assert NodeNames(xs)[i] == x.name && NodeNames(xs)[j] == y.name;
  }

  lemma ListedLinksCertified(t: Topo, listed: Topo, s: Shape, h: Holds)
    requires LinksCertified(t.links, s, h) && multiset(t.links) == multiset(listed.links)
    ensures LinksCertified(listed.links, s, h)
  {
    hide HasLink, LinkOf;
    var xs, ys := t.links, listed.links;
    forall x ensures x in xs <==> x in ys { assert x in multiset(xs) <==> x in multiset(ys); }
    forall i, j | 0 <= i < j < |xs| ensures xs[i] != xs[j] { assert LinkNames(xs)[i] != LinkNames(xs)[j]; }
    DistinctCounts(xs);
    DistinctCounts(ys);
    forall i, j | 0 <= i < j < |ys| ensures LinkNames(ys)[i] != LinkNames(ys)[j] {
      assert ys[i] in xs && ys[j] in xs && ys[i] != ys[j];
      SameNameSameLink(xs, ys[i], ys[j]);
    }
    forall ln ensures ln in LinkNames(ys) <==> HasLink(s, ln) {
      LinkSetIs(xs, ln);
      LinkSetIs(ys, ln);
    }
  }

  lemma SameNameSameLink(xs: seq<Link>, x: Link, y: Link)
    requires Distinct(LinkNames(xs)) && x in xs && y in xs && x != y
    ensures x.name != y.name
  {
    var i :| 0 <= i < |xs| && xs[i] == x;
    var j :| 0 <= j < |xs| && xs[j] == y;
    assert LinkNames(xs)[i] == x.name && LinkNames(xs)[j] == y.name;
  }

  lemma ListedIsCertified(t: Topo, listed: Topo, s: Shape, h: Holds)
    requires Certified(t, s, h) && Lists(t, listed)
    ensures Certified(listed, s, h)
  {
    hide NodesCertified, LinksCertified, HoldsFit, DistinctPods;
    ListedNodesCertified(t, listed, s, h);
    ListedLinksCertified(t, listed, s, h);
  }

  lemma ListedIsBuilt(t: Topo, listed: Topo)
    requires Built(t) && Lists(t, listed)
    ensures Built(listed)
  {
    hide Certified, ServersFit, Lists;
    var s, h :| Certified(t, s, h) && ServersFit(s);
    ListedIsCertified(t, listed, s, h);
  }

  // ---------- retention ----------

  lemma {:induction false} Bounded(keys: set<nat>, low: nat, high: nat)
    requires forall k :: k in keys ==> low <= k < high
    ensures |keys| <= if low <= high then high - low else 0
    decreases high
  {
    if keys != {} {
      var k :| k in keys;
      Bounded(keys - {high - 1}, low, high - 1);
      if high - 1 in keys { assert keys == (keys - {high - 1}) + {high - 1}; } else { assert keys - {high - 1} == keys; }
    }
  }

  /** At most ten snapshots remain, whatever was there. */
  lemma {:induction false} FewNewest(keys: set<nat>)
    ensures |set k | k in keys && |Newer(keys, k)| < RETAINED| <= RETAINED
  {
    var kept := set k | k in keys && |Newer(keys, k)| < RETAINED;
    if kept != {} {
      var low := Least(kept);
      assert kept <= Newer(keys, low) + {low};
      Subset(kept, Newer(keys, low) + {low});
    }
  }

  lemma Least(keys: set<nat>) returns (low: nat)
    requires keys != {}
    ensures low in keys && forall k :: k in keys ==> low <= k
    decreases keys
  {
    low :| low in keys;
    forall k | k in keys ensures k == low || k in keys - {low} {
    }
    if keys - {low} != {} {
      var other := Least(keys - {low});
      if other < low { low := other; }
    }
  }

  lemma Subset(a: set<nat>, b: set<nat>)
    requires a <= b
    ensures |a| <= |b|
  {
    assert b == a + (b - a);
  }

  lemma SaveKeeps(generations: map<nat, Snapshot>, generation: nat, snap: Snapshot)
    requires Retention(generations, generation) && SnapshotsBuilt(generations)
    requires SpecReady(snap.spec) && Built(snap.topo)
    ensures var saved := Save(generations, generation + 1, snap);
            && Retention(saved, generation) && Retention(saved, generation + 1) && SnapshotsBuilt(saved)
            && generation + 1 in saved && saved[generation + 1] == snap
            && (generation > 0 ==> saved[generation] == generations[generation])
  {
    hide SpecReady, Built;
    var all := generations[generation + 1 := snap];
    var saved := Save(generations, generation + 1, snap);
    assert Newer(all.Keys, generation + 1) == {};
    if generation > 0 {
      assert Newer(all.Keys, generation) == {generation + 1};
    }
    FewNewest(all.Keys);
    assert saved.Keys == set k | k in all.Keys && |Newer(all.Keys, k)| < RETAINED;
    assert |saved| == |saved.Keys|;
  }

  // ---------- every run ----------

  lemma PlanKeeps(l: Lab)
    requires LabInv(l)
    ensures CreatePlan(l).Some? ==> LabInv(CreatePlan(l).value)
  {
    hide SpecReady, Built, SnapshotsBuilt, Retention, Rebuild, RestoreBase, Preview, NotRestored;
    BaseIsBuilt(l);
    if CreatePlan(l).Some? {
      RebuildIsBuilt(l.spec, BaseOf(l).value);
      assert LabInv(CreatePlan(l).value);
    }
  }

  lemma RollbackKeeps(l: Lab, g: nat)
    requires LabInv(l)
    ensures CreateRollbackPlan(l, g).Some? ==> LabInv(CreateRollbackPlan(l, g).value)
  {
    hide SpecReady, Built, Retention, Preview, NotHeld, Derive;
  }

  lemma ApplyKeeps(l: Lab, i: nat, listed: Topo, outcome: Outcome)
    requires LabInv(l) && Lists(l.desired, listed)
    ensures ApplyPlan(l, i, listed, outcome).Some? ==> LabInv(ApplyPlan(l, i, listed, outcome).value)
  {
    hide SpecReady, Built, SnapshotsBuilt, Retention, Preview, Save, Lists;
    if Applicable(l, i) && !outcome.FailedEarly? {
      ListedIsBuilt(l.desired, listed);
      SaveKeeps(l.generations, l.generation, Snapshot(l.spec, listed));
      SavedBase(l, listed);
    }
  }

  /** Saving the next snapshot leaves the deployed one what it was. */
  lemma SavedBase(l: Lab, listed: Topo)
    requires LabInv(l)
    ensures BaseOf(l.(generations := Save(l.generations, l.generation + 1, Snapshot(l.spec, listed)))) == BaseOf(l)
  {
    hide SpecReady, Built, Preview;
    var all := l.generations[l.generation + 1 := Snapshot(l.spec, listed)];
    if l.generation > 0 {
      assert Newer(all.Keys, l.generation) == {l.generation + 1};
    }
  }

  lemma StepKeeps(l: Lab, a: Action)
    requires LabInv(l) && Allowed(l, a)
    ensures LabInv(After(l, a))
  {
    hide SpecReady, Built, SnapshotsBuilt, Retention, Preview, CreatePlan, CreateRollbackPlan, ApplyPlan, Lists;
    match a
    case UpdateTopology(spec) =>
    case MakePlan => PlanKeeps(l);
    case MakeRollbackPlan(g) => RollbackKeeps(l, g);
    case Apply(i, listed, outcome) => ApplyKeeps(l, i, listed, outcome);
  }

  /** The states a run goes through. */
  ghost predicate Trace(states: seq<Lab>, actions: seq<Action>) {
    && |states| == |actions| + 1
    && forall i :: 0 <= i < |actions| ==> Allowed(states[i], actions[i]) && states[i + 1] == After(states[i], actions[i])
  }

  /**
   From a lab created with a valid spec, after any actions in any order: what is desired and every retained
   generation is well-formed, and the deployed generation is among those retained.
   */
  lemma {:induction false} EveryRunIsSafe(spec: TopologySpec, states: seq<Lab>, actions: seq<Action>)
    requires SpecReady(spec) && Trace(states, actions) && states[0] == NewLab(spec)
    ensures var l := states[|actions|];
            && LabInv(l) && WellFormed(l.desired)
            && (forall g :: g in l.generations ==> WellFormed(l.generations[g].topo))
            && (l.generation > 0 ==> l.generation in l.generations)
    decreases |actions|
  {
    if |actions| == 0 {
      NewLabKeeps(spec);
    } else {
      var k := |actions| - 1;
      assert Trace(states[..k + 1], actions[..k]);
      EveryRunIsSafe(spec, states[..k + 1], actions[..k]);
      StepKeeps(states[k], actions[k]);
    }
    hide After, Allowed, LabInv, Trace, SpecReady;
    InvIsWellFormed(states[|actions|]);
  }

  /** A state some run from a lab created with a valid spec goes through. */
  ghost predicate Reachable(l: Lab) {
    exists spec, states, actions ::
      SpecReady(spec) && Trace(states, actions) && states[0] == NewLab(spec) && states[|actions|] == l
  }

  lemma CreatedIsReachable(spec: TopologySpec)
    requires SpecReady(spec)
    ensures Reachable(NewLab(spec))
  {
    hide SpecReady;
    assert Trace([NewLab(spec)], []) && [NewLab(spec)][0] == NewLab(spec);
  }

  lemma StepIsReachable(l: Lab, a: Action)
    requires Reachable(l) && Allowed(l, a)
    ensures Reachable(After(l, a))
  {
    hide SpecReady, After, Allowed;
    var spec, states, actions :|
      SpecReady(spec) && Trace(states, actions) && states[0] == NewLab(spec) && states[|actions|] == l;
    var states', actions' := states + [After(l, a)], actions + [a];
    assert Trace(states', actions') && states'[0] == NewLab(spec) && states'[|actions'|] == After(l, a);
  }

  lemma ReachableKeeps(l: Lab)
    requires Reachable(l)
    ensures LabInv(l)
  {
    hide SpecReady, LabInv, After, Allowed;
    var spec, states, actions :|
      SpecReady(spec) && Trace(states, actions) && states[0] == NewLab(spec) && states[|actions|] == l;
    EveryRunIsSafe(spec, states, actions);
  }

  lemma BuiltIsWellFormed(t: Topo)
    requires Built(t)
    ensures WellFormed(t)
  {
    hide Certified, ServersFit, WellFormed;
    var s, h :| Certified(t, s, h) && ServersFit(s);
    CertifiedIsWellFormed(t, s, h);
  }

  lemma InvIsWellFormed(l: Lab)
    requires LabInv(l)
    ensures WellFormed(l.desired) && forall g :: g in l.generations ==> WellFormed(l.generations[g].topo)
    ensures l.generation > 0 ==> l.generation in l.generations
  {
    hide WellFormed, Built;
    BuiltIsWellFormed(l.desired);
    forall g | g in l.generations { BuiltIsWellFormed(l.generations[g].topo); }
  }
}
