/**
 What the generation machine promises across several calls: an apply does what its plan previewed exactly when
 that is what the newest plan previews; a regular plan and its apply renumber nothing; and once a lab's spec and deployed topology
 agree, planning again is a no-op.
 */
module GenerationTheorems {
  import opened Wrappers
  import opened Sequences
  import opened Fabric
  import opened Script
  import opened Build
  import opened BuildInvariant
  import opened Certification
  import opened RackNumbers
  import opened Rebuilds
  import opened RebuildTheorems
  import opened WellFormedness
  import opened Allocations
  import opened PlanDiff
  import opened PlanTheorems
  import opened Generations

  // ---------- which plan is deployed ----------

  lemma SucceededIs(l: Lab, i: nat, listed: Topo, l': Lab)
    requires LabInv(l) && Lists(l.desired, listed) && ApplyPlan(l, i, listed, Succeeded) == Some(l')
    ensures l'.generation == l.generation + 1 && BaseOf(l') == Some(listed)
    ensures l'.generations == Save(l.generations, l'.generation, Snapshot(l.spec, listed))
    ensures l'.spec == l.spec && l'.desired == l.desired
  {
    hide SpecReady, Built, SnapshotsBuilt, Retention, NewestPlanFits, Save, Preview;
    ListedIsBuilt(l.desired, listed);
    SaveKeeps(l.generations, l.generation, Snapshot(l.spec, listed));
  }

  /** The same operations, in any order. */
  ghost predicate SameOps(ops: seq<PlanOp>, ops': seq<PlanOp>) {
    forall op :: op in ops <==> op in ops'
  }

  /** A preview is the same difference in whatever order the store lists the result. */
  lemma ListedPreview(base: Topo, t: Topo, listed: Topo)
    requires Built(base) && Built(t) && Lists(t, listed)
    ensures SameOps(Preview(base, t), Preview(base, listed))
  {
    hide Certified, ServersFit, Preview, Lists, NodeSet, LinkSet;
    var s, h :| Certified(base, s, h) && ServersFit(s);
    var s', h' :| Certified(t, s', h') && ServersFit(s');
    ListedIsCertified(t, listed, s', h');
    ListsMembers(t, listed);
    SameSets(t, listed);
    forall op ensures op in Preview(base, t) <==> op in Preview(base, listed) {
      PreviewIs(base, t, op);
      PreviewIs(base, listed, op);
      if op.UpdateNode? {
        SameIncidence(base, s, h, t, s', h', listed, op.n);
      }
    }
  }

  lemma SameSets(t: Topo, listed: Topo)
    requires SameRecords(t, listed)
    ensures NodeSet(t.nodes) == NodeSet(listed.nodes) && LinkSet(t.links) == LinkSet(listed.links)
  {
  }

  lemma SameIncidence(base: Topo, s: Shape, h: Holds, t: Topo, s': Shape, h': Holds, listed: Topo, n: Name)
    requires Certified(base, s, h) && Certified(t, s', h') && Certified(listed, s', h')
    requires LinkSet(t.links) == LinkSet(listed.links)
    ensures Incidence(CreatedLinks(base, t) + DeletedLinks(base, t), n)
            == Incidence(CreatedLinks(base, listed) + DeletedLinks(base, listed), n)
  {
    hide Certified, Incidence, CreatedLinks, DeletedLinks, LinkSet;
    var changed := CreatedLinks(base, t) + DeletedLinks(base, t);
    var changed' := CreatedLinks(base, listed) + DeletedLinks(base, listed);
    ChangedAreDistinct(base, s, h, t, s', h');
    ChangedAreDistinct(base, s, h, listed, s', h');
    IncidenceCounts(changed, n);
    IncidenceCounts(changed', n);
    forall ln ensures ln in changed <==> ln in changed' {
      DifferenceIs(base, t, n, ln);
      DifferenceIs(base, listed, n, ln);
    }
    assert AtNode(changed, n) == AtNode(changed', n);
  }

  /** In every reachable state the newest plan, if any plan can be applied, previews the desired topology. */
  lemma NewestPreviewsDesired(l: Lab, i: nat, base: Topo)
    requires LabInv(l) && Applicable(l, i) && BaseOf(l) == Some(base)
    ensures Applicable(l, |l.plans| - 1) && l.plans[|l.plans| - 1].ops == Preview(base, l.desired)
  {
    hide SpecReady, Built, SnapshotsBuilt, Retention, Preview;
    assert l.plans[i].base <= l.plans[|l.plans| - 1].base;
  }

  /**
   What an apply does to the lab is what its plan previewed if and only if the plan lists the operations the newest
   plan lists: every plan on the deployed generation is accepted, and each deploys the newest one's topology.
   */
  lemma DeploysItsPreviewIff(l: Lab, i: nat, base: Topo, listed: Topo, l': Lab)
    requires LabInv(l) && Lists(l.desired, listed) && BaseOf(l) == Some(base)
    requires ApplyPlan(l, i, listed, Succeeded) == Some(l')
    ensures BaseOf(l') == Some(listed)
    ensures l.plans[i].ops == Preview(base, l.desired) <==> l.plans[i].ops == l.plans[|l.plans| - 1].ops
    ensures SameOps(l.plans[i].ops, Preview(base, listed)) <==> SameOps(l.plans[i].ops, l.plans[|l.plans| - 1].ops)
  {
    hide SpecReady, Built, SnapshotsBuilt, Retention, Save, Preview, Lists, PlansOrdered, NewestPlanFits;
    SucceededIs(l, i, listed, l');
    NewestPreviewsDesired(l, i, base);
    BaseIsBuilt(l);
    ListedPreview(base, l.desired, listed);
  }

  // ---------- never renumbered ----------

  /** The same device or link, wherever both topologies have it. */
  ghost predicate SameSurvivors(t: Topo, t': Topo) {
    && (forall x, y :: x in t.nodes && y in t'.nodes && x.name == y.name ==> x == y)
    && (forall x, y :: x in t.links && y in t'.links && x.name == y.name ==> x == y)
  }

  lemma ListsMembers(t: Topo, listed: Topo)
    requires Lists(t, listed)
    ensures SameRecords(t, listed)
  {
    forall x ensures x in t.nodes <==> x in listed.nodes { assert x in multiset(t.nodes) <==> x in multiset(listed.nodes); }
    forall x ensures x in t.links <==> x in listed.links { assert x in multiset(t.links) <==> x in multiset(listed.links); }
  }

  /** A regular plan followed by its apply keeps every surviving device and link exactly as deployed. */
  lemma ApplyKeepsSurvivors(l: Lab, base: Topo, planned: Lab, listed: Topo, l': Lab, base': Topo)
    requires LabInv(l) && BaseOf(l) == Some(base) && CreatePlan(l) == Some(planned) && Lists(planned.desired, listed)
    requires ApplyPlan(planned, |l.plans|, listed, Succeeded) == Some(l') && BaseOf(l') == Some(base')
    ensures SameSurvivors(base, base')
  {
    hide SpecReady, SnapshotsBuilt, Retention, Save, Preview, Lists, Rebuild, RestoreBase, NotRestored, Certified, ServersFit,
      SameRecords, ApplyPlan, Applicable, NewestPlanFits;
    PlanKeeps(l);
    BaseIsBuilt(l);
    SucceededIs(planned, |l.plans|, listed, l');
    var s, h :| Certified(base, s, h) && ServersFit(s);
    SpecIsDistinct(l.spec);
    RebuildKeepsSurvivors(l.spec, base, s, h);
    ListsMembers(planned.desired, listed);
    SurvivorsListed(base, planned.desired, listed);
  }

  lemma SpecIsDistinct(spec: TopologySpec)
    requires SpecReady(spec)
    ensures DistinctIds(spec.pods)
  {
  }

  lemma SurvivorsListed(base: Topo, t: Topo, listed: Topo)
    requires SameSurvivors(base, t) && SameRecords(t, listed)
    ensures SameSurvivors(base, listed)
  {
  }

  // ---------- converged ----------

  /** A topology with the shape its spec asks for. */
  ghost predicate Faithful(spec: TopologySpec, t: Topo) {
    exists s, h :: Certified(t, s, h) && Matches(spec, s)
  }

  lemma NumberedMatches(r: Restored, spec: TopologySpec)
    requires SlotsReady(r.rackSlots, r.maxRack) && DistinctIds(spec.pods)
    ensures Matches(spec, ShapeFor(r, spec))
  {
    hide SlotsReady;
    ShapeIsDistinct(r, spec);
  }

  /** A regular plan makes the desired topology faithful to the spec. */
  lemma PlanIsFaithful(l: Lab, l': Lab)
    requires LabInv(l) && CreatePlan(l) == Some(l')
    ensures Faithful(l'.spec, l'.desired)
  {
    hide SpecReady, SnapshotsBuilt, Retention, NewestPlanFits, Preview, Rebuild, NotRestored, Certified, ServersFit, Matches,
      SlotsReady, Inv, Agree;
    BaseIsBuilt(l);
    var base := BaseOf(l).value;
    var s, h :| Certified(base, s, h) && ServersFit(s);
    SpecIsDistinct(l.spec);
    RebuildIsCertified(l.spec, base, s, h);
    ReplayCertified(base, s, h);
    NumberedMatches(RestoreBase(base).value, l.spec);
    var st := Rebuild(l.spec, base).value;
    assert Certified(TopoOf(st), NewShape(l.spec, base), Holds(st.held, st.ports));
  }

  lemma RestoreOf(spec: TopologySpec, base: Topo)
    requires Rebuild(spec, base).Some?
    ensures RestoreBase(base).Some?
  {
  }

  lemma {:induction false} NothingNotRestored(records: seq<Record>, r: Restored)
    requires forall rec :: rec in records ==> !IsNew(r, rec)
    ensures NotRestored(records, r) == []
  {
    if records != [] {
      NothingNotRestored(records[..|records| - 1], r);
      assert records[|records| - 1] in records;
    }
  }

  /** Both kinds of plan call the same allocations new: those whose owner the base does not hold. */
  lemma {:induction false} OneNotionOfNew(base: Topo, s: Shape, h: Holds, records: seq<Record>)
    requires Certified(base, s, h)
    ensures RestoreBase(base).Some?
    ensures NotRestored(records, RestoreBase(base).value) == NotHeld(records, Owners(Derive(base)))
  {
    hide Certified, IsNew, RestoreBase, Derive, Owners;
    if records == [] {
      DeriveMatchesRestore(base, s, h, Record(RackAsnOf("", 0), 0));
    } else {
      OneNotionOfNew(base, s, h, records[..|records| - 1]);
      DeriveMatchesRestore(base, s, h, records[|records| - 1]);
    }
  }

  // ---------- what a call leaves alone ----------

  lemma {:induction false} NotHeldAre(records: seq<Record>, held: seq<Owner>, r: Restored, rec: Record)
    ensures rec in NotHeld(records, held) <==> rec in records && rec.owner !in held
    ensures rec in NotRestored(records, r) <==> rec in records && IsNew(r, rec)
  {
    if records != [] {
      NotHeldAre(records[..|records| - 1], held, r, rec);
      assert records == records[..|records| - 1] + [records[|records| - 1]];
    }
  }

  /** The records of a topology whose owner has none in the base. */
  ghost predicate NewRecord(base: Topo, t: Topo, rec: Record) {
    rec in Derive(t) && forall held :: held in Derive(base) ==> held.owner != rec.owner
  }

  lemma OwnersAre(records: seq<Record>, o: Owner)
    ensures o in Owners(records) <==> exists rec :: rec in records && rec.owner == o
  {
    if rec :| rec in records && rec.owner == o {
      var i :| 0 <= i < |records| && records[i] == rec;
      assert Owners(records)[i] == o;
    }
    if o in Owners(records) {
      var i :| 0 <= i < |records| && Owners(records)[i] == o;
      assert records[i] in records;
    }
  }

  /**
   Either kind of plan previews the difference to the topology it has made desired, and lists exactly the records of
   that topology whose owner has none in the deployed one.
   */
  lemma PlanListsNewRecords(l: Lab, g: nat, rec: Record)
    requires LabInv(l)
    ensures BaseOf(l).Some?
    ensures CreatePlan(l).Some? ==>
              var l' := CreatePlan(l).value;
              && |l'.plans| > 0 && l'.plans[|l'.plans| - 1].ops == Preview(BaseOf(l).value, l'.desired)
              && (rec in l'.plans[|l'.plans| - 1].allocations <==> NewRecord(BaseOf(l).value, l'.desired, rec))
    ensures CreateRollbackPlan(l, g).Some? ==>
              var l' := CreateRollbackPlan(l, g).value;
              && |l'.plans| > 0 && l'.plans[|l'.plans| - 1].ops == Preview(BaseOf(l).value, l'.desired)
              && (rec in l'.plans[|l'.plans| - 1].allocations <==> NewRecord(BaseOf(l).value, l'.desired, rec))
  {
    hide SpecReady, SnapshotsBuilt, Retention, NewestPlanFits, PlansOrdered, Preview, Rebuild, RestoreBase, NotRestored, NotHeld,
      Certified, ServersFit, Derive, IsNew, Owners;
    BaseIsBuilt(l);
    var base := BaseOf(l).value;
    var s, h :| Certified(base, s, h) && ServersFit(s);
    OwnersAre(Derive(base), rec.owner);
    SpecIsDistinct(l.spec);
    DeriveMatchesRestore(base, s, h, rec);
    var r := RestoreBase(base).value;
    if Rebuild(l.spec, base).Some? {
      var st := Rebuild(l.spec, base).value;
      NotHeldAre(st.records, [], r, rec);
      DeriveMatchesBuild(l.spec, base, s, h);
      assert rec in multiset(Derive(TopoOf(st))) <==> rec in multiset(st.records);
    }
    if CreateRollbackPlan(l, g).Some? {
      NotHeldAre(Derive(l.generations[g].topo), Owners(Derive(base)), r, rec);
    }
  }

  /** A plan leaves everything deployed alone, and the lab planning; only a rollback touches the spec. */
  lemma PlansTouchNothingDeployed(l: Lab, g: nat)
    ensures CreatePlan(l).Some? ==>
              var l' := CreatePlan(l).value;
              && l'.generation == l.generation && l'.generations == l.generations && l'.spec == l.spec && l'.phase == PhasePlanning
              && |l'.plans| == |l.plans| + 1 && l'.plans[..|l.plans|] == l.plans
              && l'.plans[|l.plans|].base == l.generation && !l'.plans[|l.plans|].applied
    ensures CreateRollbackPlan(l, g).Some? <==> l.generation != 0 && g != l.generation && g in l.generations && BaseOf(l).Some?
    ensures CreateRollbackPlan(l, g).Some? ==>
              var l' := CreateRollbackPlan(l, g).value;
              && l'.generation == l.generation && l'.generations == l.generations && l'.phase == PhasePlanning
              && l'.spec == l.generations[g].spec && l'.desired == l.generations[g].topo
              && |l'.plans| == |l.plans| + 1 && l'.plans[..|l.plans|] == l.plans
              && l'.plans[|l.plans|].base == l.generation && !l'.plans[|l.plans|].applied
  {
    hide Rebuild, RestoreBase, Preview, NotRestored, NotHeld, Derive;
  }

  /**
   An apply that succeeds moves the lab to the next generation, marks its plan and no other, and leaves the lab running;
   one that fails leaves the deployed generation and every plan as they were and the lab failed, having saved the new
   snapshot or not. Spec and desired state stay in every case.
   */
  lemma ApplyMovesOneGeneration(l: Lab, i: nat, listed: Topo, outcome: Outcome, l': Lab)
    requires ApplyPlan(l, i, listed, outcome) == Some(l')
    ensures l'.spec == l.spec && l'.desired == l.desired && |l'.plans| == |l.plans| && i < |l.plans|
    ensures l'.generation == (if outcome == Succeeded then l.generation + 1 else l.generation)
    ensures l'.phase == (if outcome == Succeeded then PhaseRunning else PhaseFailed)
    ensures forall j :: 0 <= j < |l.plans| ==>
              l'.plans[j] == if outcome == Succeeded && j == i then l.plans[j].(applied := true) else l.plans[j]
    ensures outcome == FailedEarly ==> l'.generations == l.generations
    ensures outcome != FailedEarly ==>
              l'.generations == Save(l.generations, l.generation + 1, Snapshot(l.spec, listed))
  {
    hide Save;
  }

  /** A snapshot is kept exactly while it is among the ten newest. */
  lemma KeptIffAmongNewest(generations: map<nat, Snapshot>, g: nat, snap: Snapshot, k: nat)
    ensures var all := generations[g := snap];
            && (k in Save(generations, g, snap) <==> k in all && |set j | j in all.Keys && j > k| < 10)
            && (k in Save(generations, g, snap) ==> Save(generations, g, snap)[k] == all[k])
  {
  }
}
