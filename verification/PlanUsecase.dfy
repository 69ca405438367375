/** The plan usecase over its store, changed call by call, against the transitions of the generation machine. */
module PlanUsecase {
  import opened Wrappers
  import opened Sequences
  import opened Fabric
  import opened Build
  import opened RackNumbers
  import opened PlanDiff
  import opened Allocations
  import opened LabSpec
  import opened Generations
  import opened Builder

  class Usecase {
    var spec: TopologySpec
    var phase: Phase
    var generation: nat
    var desired: Topo
    var plans: seq<Plan>
    var generations: map<nat, Snapshot>

    function Now(): Lab
      reads this
    {
      Lab(spec, phase, generation, desired, plans, generations)
    }

    /** `CreateLab` with a topology that has been through the same checks as an update. */
    constructor (spec: TopologySpec)
      ensures Now() == NewLab(spec)
    {
      this.spec, phase, generation, desired, plans, generations := spec, PhasePending, 0, Topo([], []), [], map[];
    }

    /** `UpdateTopology`: refused while applying, for an invalid shape, and for a name given twice. */
    method UpdateTopology(shape: TopologySpec, pods: array<PodSpec>) returns (ok: bool)
      requires shape.pods == pods[..]
      modifies this, pods
      ensures ok <==> old(phase) != PhaseApplying && ValidTopologySpec(shape) && ExplicitDistinct(shape.pods)
      ensures !ok ==> Now() == old(Now())
      ensures ok ==> Settled(shape.pods, old(spec).pods, spec.pods) && SpecReady(spec)
      ensures ok ==> spec == shape.(pods := spec.pods) && Now() == old(Now()).(spec := spec)
      ensures old(phase) == PhaseApplying || ok ==>
                Now() == After(old(Now()), Generations.UpdateTopology(if ok then spec else shape))
    {
      hide Settled, ExplicitDistinct, DistinctIds, ValidPod;
      if phase == PhaseApplying {
        return false;
      }
      ok := ValidateTopologySpec(shape);
      if !ok {
        return false;
      }
      ok := FillPodNames(pods, spec.pods);
      if !ok {
        return false;
      }
      SettledIsDistinct(shape.pods, spec.pods, pods[..]);
      SettledIsValid(shape, spec.pods, pods[..]);
      spec := shape.(pods := pods[..]);
    }

    /** The topology of the deployed generation, if the lab has one and the store still holds it. */
    method LoadBase() returns (base: Option<Topo>)
      ensures base == BaseOf(Now())
    {
      if generation == 0 {
        return Some(Topo([], []));
      }
      if generation !in generations {
        return None;
      }
      return Some(generations[generation].topo);
    }

    method CreatePlan() returns (ok: bool)
      modifies this
      ensures match Generations.CreatePlan(old(Now()))
              case Some(l) => ok && Now() == l
              case None => !ok && Now() == old(Now())
    {
      hide Rebuild, Preview, RestoreBase, NotRestored;
      var base := LoadBase();
      if base.None? {
        return false;
      }
      var result := RebuildTopology(spec, base.value);
      if result.None? {
        return false;
      }
      RebuildRestores(spec, base.value);
      var ops := PlanChanges(base.value, result.value.0);
      var allocations := NewOf(result.value.1, RestoreBase(base.value).value);
      desired := result.value.0;
      plans := plans + [Plan(generation, ops, allocations, false)];
      phase := PhasePlanning;
      return true;
    }

    method CreateRollbackPlan(target: nat) returns (ok: bool)
      modifies this
      ensures match Generations.CreateRollbackPlan(old(Now()), target)
              case Some(l) => ok && Now() == l
              case None => !ok && Now() == old(Now())
    {
      hide Preview, Derive, NotHeld, Owners;
      if generation == 0 || target == generation || target !in generations {
        return false;
      }
      var snap := generations[target];
      var base := LoadBase();
      if base.None? {
        return false;
      }
      var allocs := DeriveAllocations(snap.topo.nodes, snap.topo.links);
      var ops := PlanChanges(base.value, snap.topo);
      var held := DeriveAllocations(base.value.nodes, base.value.links);
      var allocations := UnheldOf(allocs, Owners(held));
      desired := snap.topo;
      plans := plans + [Plan(generation, ops, allocations, false)];
      spec, phase := snap.spec, PhasePlanning;
      return true;
    }

    /** `ApplyPlan` as one step: the checks, then a run that may fail before or after the snapshot is saved. */
    method ApplyPlan(plan: nat, nodes: seq<Node>, links: seq<Link>) returns (started: bool, ghost outcome: Outcome)
      requires Lists(desired, Topo(nodes, links))
      modifies this
      ensures match Generations.ApplyPlan(old(Now()), plan, Topo(nodes, links), outcome)
              case Some(l) => started && Now() == l
              case None => !started && Now() == old(Now())
    {
      hide Save;
      outcome := FailedEarly;
      if plan >= |plans| || plans[plan].applied || plans[plan].base != generation {
        return false, outcome;
      }
      var base := LoadBase();
      if base.None? {
        return false, outcome;
      }
      phase := PhaseApplying;
      var failed := *;
      if failed {
        phase := PhaseFailed;
        return true, outcome;
      }
      generations := Save(generations, generation + 1, Snapshot(spec, Topo(nodes, links)));
      failed := *;
      if failed {
        outcome, phase := FailedLate, PhaseFailed;
        return true, outcome;
      }
      outcome := Succeeded;
      generation := generation + 1;
      plans := plans[plan := plans[plan].(applied := true)];
      phase := PhaseRunning;
      return true, outcome;
    }
  }

  lemma SettledIsValid(shape: TopologySpec, prev: seq<PodSpec>, pods: seq<PodSpec>)
    requires ValidTopologySpec(shape) && Settled(shape.pods, prev, pods)
    ensures ValidTopologySpec(shape.(pods := pods))
  {
  }

  lemma RebuildRestores(spec: TopologySpec, base: Topo)
    requires Rebuild(spec, base).Some?
    ensures RestoreBase(base).Some?
  {
  }

  method NewOf(records: seq<Record>, r: Restored) returns (kept: seq<Record>)
    ensures kept == NotRestored(records, r)
  {
    kept := [];
    for i := 0 to |records|
      invariant kept == NotRestored(records[..i], r)
    {
      assert records[..i + 1][..i] == records[..i];
      if IsNew(r, records[i]) {
        kept := kept + [records[i]];
      }
    }
    assert records[..|records|] == records;
  }

  method UnheldOf(records: seq<Record>, held: seq<Owner>) returns (kept: seq<Record>)
    ensures kept == NotHeld(records, held)
  {
    kept := [];
    for i := 0 to |records|
      invariant kept == NotHeld(records[..i], held)
    {
      assert records[..i + 1][..i] == records[..i];
      if records[i].owner !in held {
        kept := kept + [records[i]];
      }
    }
    assert records[..|records|] == records;
  }
}
