/**
 Fault scenarios on a deployed lab: injected, rolled back, recovered and deleted against driver calls that may
 fail. At most one applied fault per target is what lets recovery restore a fixed baseline.
 */
module Fault {
  import opened Wrappers
  import opened Fabric
  import opened PlanDiff
  import opened DeployTheorems

  datatype FaultType = NodeStop | NodeRestart | LinkDown | InterfaceDown | Impairment

  datatype Side = NoSide | SideA | SideB | Both

  datatype Target = OnNode(n: Name) | OnLink(ln: LinkName)

  datatype Impair = Impair(delayMs: int, jitterMs: int, loss: real, rateKbit: int)

  datatype Spec = Spec(ftype: FaultType, target: Target, side: Side, impair: Option<Impair>)

  datatype Scenario = Scenario(spec: Spec, applied: bool)

  /** An interface as the runtime holds it; what the platform leaves alone is up and unshaped. */
  datatype Iface = Iface(up: bool, qdisc: Option<Impair>)

  const BASELINE := Iface(true, None)

  function IfaceAt(ifaces: map<Port, Iface>, p: Port): Iface {
    if p in ifaces then ifaces[p] else BASELINE
  }

  // ---------- shapes ----------

  predicate TargetsNode(t: FaultType) {
    t == NodeStop || t == NodeRestart
  }

  predicate ValidImpairment(imp: Option<Impair>) {
    && imp.Some?
    && (imp.value.delayMs != 0 || imp.value.loss != 0.0 || imp.value.rateKbit != 0)
    && imp.value.delayMs >= 0 && imp.value.jitterMs >= 0 && imp.value.rateKbit >= 0
    && 0.0 <= imp.value.loss <= 100.0
    && (imp.value.jitterMs > 0 ==> imp.value.delayMs != 0)
  }

  /** `validateFaultShape`, after the target has been resolved. */
  predicate ValidShape(s: Spec) {
    && (s.ftype != Impairment ==> s.impair == None)
    && match s.ftype
       case NodeStop => s.side == NoSide
       case NodeRestart => s.side == NoSide
       case LinkDown => s.side == NoSide || s.side == Both
       case InterfaceDown => s.side == SideA || s.side == SideB
       case Impairment => ValidImpairment(s.impair)
  }

  /** An impairment that would change something, within its bounds. */
  predicate Shapes(imp: Impair) {
    && imp.delayMs >= 0 && imp.jitterMs >= 0 && imp.rateKbit >= 0 && imp.loss >= 0.0 && imp.loss <= 100.0
    && (imp.delayMs > 0 || (imp.jitterMs == 0 && (imp.loss > 0.0 || imp.rateKbit > 0)))
  }

  /**
   Exactly which faults are accepted: impairments have a delay, or else a loss or a rate and no jitter, on any side;
   nothing else is impaired, a device has no sides, a link goes down as a whole and an interface on one side only.
   */
  lemma ShapeIff(s: Spec)
    ensures ValidShape(s) <==>
            && (s.ftype == Impairment <==> s.impair.Some?)
            && (s.impair.Some? ==> Shapes(s.impair.value))
            && (TargetsNode(s.ftype) ==> s.side == NoSide)
            && (s.ftype == LinkDown ==> s.side != SideA && s.side != SideB)
            && (s.ftype == InterfaceDown ==> s.side != NoSide && s.side != Both)
  {
  }

  function Ends(s: Spec, link: Wire): seq<Port> {
    if s.ftype == LinkDown then [link.a, link.z]
    else
      match s.side
      case SideA => [link.a]
      case SideB => [link.z]
      case _ => [link.a, link.z]
  }

  /** What the fault makes of an interface, and what its recovery makes of it. */
  function Injected(s: Spec, i: Iface): Iface {
    if s.ftype == Impairment then i.(qdisc := s.impair) else i.(up := false)
  }

  function Recovered(s: Spec, i: Iface): Iface {
    if s.ftype == Impairment then i.(qdisc := None) else i.(up := true)
  }

  // ---------- the invariant ----------

  /** Every link has two interfaces of its own. */
  ghost predicate PortsApart(links: map<LinkName, Wire>) {
    && (forall ln :: ln in links ==> links[ln].a != links[ln].z)
    && forall l, l', p :: l in links && l' in links && OnLinkPort(links[l], p) && OnLinkPort(links[l'], p) ==> l == l'
  }

  predicate OnLinkPort(link: Wire, p: Port) {
    p == link.a || p == link.z
  }

  predicate Covers(sc: Scenario, links: map<LinkName, Wire>, p: Port) {
    && sc.applied && sc.spec.target.OnLink? && sc.spec.target.ln in links
    && p in Ends(sc.spec, links[sc.spec.target.ln])
  }

  ghost predicate Applicable(scenarios: map<nat, Scenario>, links: map<LinkName, Wire>) {
    forall id :: id in scenarios ==>
      var s := scenarios[id].spec;
      && ValidShape(s) && (s.target.OnNode? <==> TargetsNode(s.ftype)) && (s.target.OnLink? ==> s.target.ln in links)
  }

  /** No two applied faults share a target. */
  ghost predicate TargetsFree(scenarios: map<nat, Scenario>) {
    forall i, j ::
      (i in scenarios && j in scenarios && scenarios[i].applied && scenarios[j].applied
       && scenarios[i].spec.target == scenarios[j].spec.target)
      ==> i == j
  }

  /** An interface off its baseline is exactly as some applied fault has made it. */
  ghost predicate Covered(scenarios: map<nat, Scenario>, links: map<LinkName, Wire>, ifaces: map<Port, Iface>) {
    forall p :: IfaceAt(ifaces, p) != BASELINE ==>
      exists id :: id in scenarios && Covers(scenarios[id], links, p) && IfaceAt(ifaces, p) == Injected(scenarios[id].spec, BASELINE)
  }

  ghost predicate Inv(scenarios: map<nat, Scenario>, links: map<LinkName, Wire>, ifaces: map<Port, Iface>) {
    && PortsApart(links) && Applicable(scenarios, links) && TargetsFree(scenarios) && Covered(scenarios, links, ifaces)
  }

  /** An off-baseline interface has exactly one applied fault to answer for it. */
  lemma ExactlyOneCovers(scenarios: map<nat, Scenario>, links: map<LinkName, Wire>, ifaces: map<Port, Iface>, p: Port)
    requires Inv(scenarios, links, ifaces) && IfaceAt(ifaces, p) != BASELINE
    ensures exists id :: id in scenarios && Covers(scenarios[id], links, p)
    ensures forall i, j :: i in scenarios && j in scenarios && Covers(scenarios[i], links, p) && Covers(scenarios[j], links, p)
              ==> i == j
  {
    forall i, j | i in scenarios && j in scenarios && Covers(scenarios[i], links, p) && Covers(scenarios[j], links, p)
      ensures i == j
    {
      OneLinkPerPort(links, scenarios[i].spec.target.ln, scenarios[j].spec.target.ln, p);
    }
  }

  lemma OneLinkPerPort(links: map<LinkName, Wire>, l: LinkName, l': LinkName, p: Port)
    requires PortsApart(links) && l in links && l' in links && OnLinkPort(links[l], p) && OnLinkPort(links[l'], p)
    ensures l == l'
  {
  }

  lemma OffMeansHeld(scenarios: map<nat, Scenario>, links: map<LinkName, Wire>, ifaces: map<Port, Iface>, ln: LinkName, p: Port)
    requires PortsApart(links) && Covered(scenarios, links, ifaces)
    requires ln in links && OnLinkPort(links[ln], p) && IfaceAt(ifaces, p) != BASELINE
    ensures exists id :: id in scenarios && scenarios[id].applied && scenarios[id].spec.target == OnLink(ln)
  {
  }

  /** No applied fault holds the target. */
  ghost predicate Free(scenarios: map<nat, Scenario>, t: Target) {
    forall id :: id in scenarios && scenarios[id].applied ==> scenarios[id].spec.target != t
  }

  /** While no applied fault holds a link, both of its interfaces are at the baseline. */
  lemma FreeIsBaseline(scenarios: map<nat, Scenario>, links: map<LinkName, Wire>, ifaces: map<Port, Iface>, ln: LinkName, p: Port)
    requires Inv(scenarios, links, ifaces) && ln in links && OnLinkPort(links[ln], p) && Free(scenarios, OnLink(ln))
    ensures IfaceAt(ifaces, p) == BASELINE
  {
  }

  // ---------- what the operations do to the interfaces ----------

  /** Interfaces after the fault has been injected at the given ends. */
  function InjectAll(s: Spec, ends: seq<Port>, ifaces: map<Port, Iface>): map<Port, Iface> {
    if ends == [] then ifaces
    else
      var before := InjectAll(s, ends[..|ends| - 1], ifaces);
      var p := ends[|ends| - 1];
      before[p := Injected(s, IfaceAt(before, p))]
  }

  lemma {:induction false} InjectedAt(s: Spec, ends: seq<Port>, ifaces: map<Port, Iface>, p: Port)
    ensures IfaceAt(InjectAll(s, ends, ifaces), p) ==
            if p in ends then Injected(s, IfaceAt(ifaces, p)) else IfaceAt(ifaces, p)
  {
    if ends != [] {
      InjectedAt(s, ends[..|ends| - 1], ifaces, p);
      assert ends == ends[..|ends| - 1] + [ends[|ends| - 1]];
    }
  }

  /** Applying a fault to a free target keeps the invariant. */
  lemma InjectKeeps(scenarios: map<nat, Scenario>, links: map<LinkName, Wire>, ifaces: map<Port, Iface>, id: nat)
    requires Inv(scenarios, links, ifaces) && id in scenarios && Free(scenarios, scenarios[id].spec.target)
    requires scenarios[id].spec.target.OnLink?
    ensures var s := scenarios[id].spec;
            Inv(scenarios[id := Scenario(s, true)], links, InjectAll(s, Ends(s, links[s.target.ln]), ifaces))
  {
    var s := scenarios[id].spec;
    var ends := Ends(s, links[s.target.ln]);
    var after, now := scenarios[id := Scenario(s, true)], InjectAll(s, ends, ifaces);
    hide InjectAll, Injected, ValidShape;
    forall p | IfaceAt(now, p) != BASELINE
      ensures exists i :: i in after && Covers(after[i], links, p) && IfaceAt(now, p) == Injected(after[i].spec, BASELINE)
    {
      InjectedAt(s, ends, ifaces, p);
      if p in ends {
        FreeIsBaseline(scenarios, links, ifaces, s.target.ln, p);
        assert Covers(after[id], links, p);
      } else {
        var i :| i in scenarios && Covers(scenarios[i], links, p) && IfaceAt(ifaces, p) == Injected(scenarios[i].spec, BASELINE);
        assert Covers(after[i], links, p);
      }
    }
  }

  /** Every end either at the baseline again or as it was. */
  ghost predicate PartlyRecovered(before: map<Port, Iface>, after: map<Port, Iface>, ends: seq<Port>) {
    forall p :: IfaceAt(after, p) == IfaceAt(before, p) || (p in ends && IfaceAt(after, p) == BASELINE)
  }

  ghost predicate AllBaseline(ifaces: map<Port, Iface>, ends: seq<Port>) {
    forall p :: p in ends ==> IfaceAt(ifaces, p) == BASELINE
  }

  /** A recovery keeps the invariant, whether it frees the target or, having failed somewhere, does not. */
  lemma RecoverKeeps(scenarios: map<nat, Scenario>, links: map<LinkName, Wire>, ifaces: map<Port, Iface>,
                     after: map<Port, Iface>, id: nat, applied: bool)
    requires Inv(scenarios, links, ifaces) && id in scenarios && scenarios[id].applied && scenarios[id].spec.target.OnLink?
    requires PartlyRecovered(ifaces, after, Ends(scenarios[id].spec, links[scenarios[id].spec.target.ln]))
    requires !applied ==> AllBaseline(after, Ends(scenarios[id].spec, links[scenarios[id].spec.target.ln]))
    ensures Inv(scenarios[id := Scenario(scenarios[id].spec, applied)], links, after)
  {
    var s := scenarios[id].spec;
    var next := scenarios[id := Scenario(s, applied)];
    hide Injected, ValidShape;
    forall p | IfaceAt(after, p) != BASELINE
      ensures exists i :: i in next && Covers(next[i], links, p) && IfaceAt(after, p) == Injected(next[i].spec, BASELINE)
    {
      var i :| i in scenarios && Covers(scenarios[i], links, p) && IfaceAt(ifaces, p) == Injected(scenarios[i].spec, BASELINE);
      assert Covers(next[i], links, p);
    }
  }

  /** A record that holds nothing may come or go. */
  lemma IdleKeeps(scenarios: map<nat, Scenario>, links: map<LinkName, Wire>, ifaces: map<Port, Iface>, id: nat, sc: Scenario)
    requires Inv(scenarios, links, ifaces) && (id in scenarios ==> !scenarios[id].applied) && !sc.applied
    requires ValidShape(sc.spec) && (sc.spec.target.OnNode? <==> TargetsNode(sc.spec.ftype))
    requires sc.spec.target.OnLink? ==> sc.spec.target.ln in links
    ensures Inv(scenarios[id := sc], links, ifaces) && Inv(scenarios - {id}, links, ifaces)
  {
    var all := scenarios[id := sc];
    hide Injected, ValidShape;
    forall p | IfaceAt(ifaces, p) != BASELINE
      ensures exists i :: i in scenarios - {id} && Covers(scenarios[i], links, p) && IfaceAt(ifaces, p) == Injected(scenarios[i].spec, BASELINE)
    {
      var i :| i in scenarios && Covers(scenarios[i], links, p) && IfaceAt(ifaces, p) == Injected(scenarios[i].spec, BASELINE);
      assert i != id && Covers(all[i], links, p);
    }
    assert Covered(scenarios - {id}, links, ifaces);
    forall p | IfaceAt(ifaces, p) != BASELINE
      ensures exists i :: i in all && Covers(all[i], links, p) && IfaceAt(ifaces, p) == Injected(all[i].spec, BASELINE)
    {
      var i :| i in scenarios - {id} && Covers(scenarios[i], links, p) && IfaceAt(ifaces, p) == Injected(scenarios[i].spec, BASELINE);
      assert Covers(all[i], links, p);
    }
  }

  /** Setting a node fault's flag on a free target touches no interface. */
  lemma NodeFaultKeeps(scenarios: map<nat, Scenario>, links: map<LinkName, Wire>, ifaces: map<Port, Iface>, id: nat, applied: bool)
    requires Inv(scenarios, links, ifaces) && id in scenarios && scenarios[id].spec.target.OnNode?
    requires applied ==> Free(scenarios, scenarios[id].spec.target) || scenarios[id].applied
    ensures Inv(scenarios[id := Scenario(scenarios[id].spec, applied)], links, ifaces)
  {
    hide Injected, ValidShape;
    var next := scenarios[id := Scenario(scenarios[id].spec, applied)];
    forall p | IfaceAt(ifaces, p) != BASELINE
      ensures exists i :: i in next && Covers(next[i], links, p) && IfaceAt(ifaces, p) == Injected(next[i].spec, BASELINE)
    {
      var i :| i in scenarios && Covers(scenarios[i], links, p) && IfaceAt(ifaces, p) == Injected(scenarios[i].spec, BASELINE);
      assert Covers(next[i], links, p);
    }
  }

  // ---------- the interfaces of one link ----------

  /**
   What an injection does to the lab's interfaces: the ends the fault is on were at the baseline and are now down, or
   up and shaped with the impairment given; every other interface is as it was.
   */
  ghost predicate Altered(s: Spec, link: Wire, before: map<Port, Iface>, after: map<Port, Iface>) {
    forall p :: IfaceAt(after, p) ==
      if (p == link.a && (s.ftype == LinkDown || s.side != SideB)) || (p == link.z && (s.ftype == LinkDown || s.side != SideA))
      then (if s.ftype == Impairment then Iface(true, s.impair) else Iface(false, None))
      else IfaceAt(before, p)
  }

  /** What a recovery does: the ends the fault was on are up and unshaped, or as they were if it could not; no other moves. */
  ghost predicate Restored(s: Spec, link: Wire, before: map<Port, Iface>, after: map<Port, Iface>, ok: bool) {
    forall p ::
      if (p == link.a && (s.ftype == LinkDown || s.side != SideB)) || (p == link.z && (s.ftype == LinkDown || s.side != SideA))
      then IfaceAt(after, p) == Iface(true, None) || (!ok && IfaceAt(after, p) == IfaceAt(before, p))
      else IfaceAt(after, p) == IfaceAt(before, p)
  }

  lemma HeldLinkAltered(scenarios: map<nat, Scenario>, links: map<LinkName, Wire>, ifaces: map<Port, Iface>, id: nat)
    requires Inv(scenarios, links, ifaces) && id in scenarios && Free(scenarios, scenarios[id].spec.target)
    requires scenarios[id].spec.target.OnLink?
    ensures var s := scenarios[id].spec;
            s.target.ln in links
            && Altered(s, links[s.target.ln], ifaces, InjectAll(s, Ends(s, links[s.target.ln]), ifaces))
  {
    var s := scenarios[id].spec;
    var link := links[s.target.ln];
    hide InjectAll, ValidShape;
    forall p
      ensures IfaceAt(InjectAll(s, Ends(s, link), ifaces), p) ==
              if p in Ends(s, link) then Injected(s, BASELINE) else IfaceAt(ifaces, p)
    {
      InjectedAt(s, Ends(s, link), ifaces, p);
      if p in Ends(s, link) { FreeIsBaseline(scenarios, links, ifaces, s.target.ln, p); }
    }
  }

  lemma EndsRestored(s: Spec, link: Wire, before: map<Port, Iface>, after: map<Port, Iface>, ok: bool)
    requires PartlyRecovered(before, after, Ends(s, link)) && (ok ==> AllBaseline(after, Ends(s, link)))
    ensures Restored(s, link, before, after, ok)
  {
  }

  // ---------- the usecase ----------

  /** A node restart that stops its device and then cannot start it again. */
  ghost predicate CutRestart(scenarios: map<nat, Scenario>, deployed: bool, id: nat, stops: bool, starts: bool) {
    && id in scenarios && !scenarios[id].applied && scenarios[id].spec.ftype == NodeRestart
    && scenarios[id].spec.target.OnNode? && Free(scenarios, scenarios[id].spec.target) && deployed && stops && !starts
  }

  class FaultUsecase {
    const links: map<LinkName, Wire>
    const nodes: set<Name>
    const deployed: bool
    var scenarios: map<nat, Scenario>
    var ifaces: map<Port, Iface>
    var paused: set<Name>

    ghost predicate Valid()
      reads this
    {
      Inv(scenarios, links, ifaces)
    }

    constructor (links: map<LinkName, Wire>, nodes: set<Name>, deployed: bool)
      requires PortsApart(links)
      ensures Valid() && this.links == links && this.nodes == nodes && this.deployed == deployed
      ensures scenarios == map[] && ifaces == map[] && paused == {}
    {
      this.links, this.nodes, this.deployed := links, nodes, deployed;
      scenarios, ifaces, paused := map[], map[], {};
    }

    /** A driver call that succeeds or has no effect. */
    method SetEndpoint(p: Port, i: Iface) returns (ok: bool)
      modifies this`ifaces
      ensures ifaces == if ok then old(ifaces)[p := i] else old(ifaces)
    {
      ok := *;
      if ok {
        ifaces := ifaces[p := i];
      }
    }

    method CreateFaultScenario(id: nat, spec: Spec) returns (ok: bool)
      requires Valid() && id !in scenarios
      modifies this`scenarios
      ensures Valid()
      ensures ok <==> ValidShape(spec) && (if TargetsNode(spec.ftype) then spec.target.OnNode? && spec.target.n in nodes
                                           else spec.target.OnLink? && spec.target.ln in links)
      ensures scenarios == if ok then old(scenarios)[id := Scenario(spec, false)] else old(scenarios)
    {
      var found := if TargetsNode(spec.ftype) then spec.target.OnNode? && spec.target.n in nodes
                   else spec.target.OnLink? && spec.target.ln in links;
      if !found || !ValidShape(spec) {
        return false;
      }
      IdleKeeps(scenarios, links, ifaces, id, Scenario(spec, false));
      scenarios := scenarios[id := Scenario(spec, false)];
      return true;
    }

    /** `checkTargetFree`. */
    method CheckTargetFree(id: nat) returns (free: bool)
      requires id in scenarios
      ensures free <==> Free(scenarios - {id}, scenarios[id].spec.target)
    {
      var todo := scenarios.Keys - {id};
      while todo != {}
        invariant todo <= scenarios.Keys - {id}
        invariant forall other :: other in scenarios.Keys - {id} - todo && scenarios[other].applied ==>
                    scenarios[other].spec.target != scenarios[id].spec.target
        decreases todo
      {
        var other :| other in todo;
        if scenarios[other].applied && scenarios[other].spec.target == scenarios[id].spec.target {
          assert (scenarios - {id})[other].applied;
          return false;
        }
        todo := todo - {other};
      }
      return true;
    }

    /** The ends in order; a failure rolls back the ones already done. */
    method InjectLinkFault(id: nat) returns (ok: bool)
      requires Valid() && id in scenarios && scenarios[id].spec.target.OnLink? && Free(scenarios, scenarios[id].spec.target)
      modifies this`ifaces
      ensures ok ==> ifaces == InjectAll(scenarios[id].spec, Ends(scenarios[id].spec, links[scenarios[id].spec.target.ln]), old(ifaces))
      ensures ok ==> Altered(scenarios[id].spec, links[scenarios[id].spec.target.ln], old(ifaces), ifaces)
      ensures !ok ==> forall p :: IfaceAt(ifaces, p) == IfaceAt(old(ifaces), p)
    {
      HeldLinkAltered(scenarios, links, ifaces, id);
      hide InjectAll, Injected, Recovered, Altered;
      var s := scenarios[id].spec;
      var ends := Ends(s, links[s.target.ln]);
      assert InjectAll(s, ends[..0], ifaces) == ifaces by { InjectNone(s, ends, ifaces); }
      for i := 0 to |ends|
        invariant ifaces == InjectAll(s, ends[..i], old(ifaces))
      {
        InjectNext(s, ends, i, old(ifaces));
        ok := SetEndpoint(ends[i], Injected(s, IfaceAt(ifaces, ends[i])));
        if !ok {
          RollbackEndpoints(s, ends[..i]);
          forall p ensures IfaceAt(ifaces, p) == IfaceAt(old(ifaces), p) {
            InjectedAt(s, ends[..i], old(ifaces), p);
            if p in ends[..i] { FreeIsBaseline(scenarios, links, old(ifaces), s.target.ln, p); }
            RecoverUndoes(s);
          }
          return;
        }
      }
      assert ends[..|ends|] == ends;
      return true;
    }

    /** Restores the given ends; these calls are taken to succeed. */
    method RollbackEndpoints(s: Spec, ends: seq<Port>)
      modifies this`ifaces
      ensures forall p :: IfaceAt(ifaces, p) == if p in ends then Recovered(s, IfaceAt(old(ifaces), p)) else IfaceAt(old(ifaces), p)
    {
      for i := 0 to |ends|
        invariant forall p :: IfaceAt(ifaces, p) ==
                              if p in ends[..i] then Recovered(s, IfaceAt(old(ifaces), p)) else IfaceAt(old(ifaces), p)
      {
        assert ends[..i + 1] == ends[..i] + [ends[i]];
        RecoverTwice(s, IfaceAt(old(ifaces), ends[i]));
        ifaces := ifaces[ends[i] := Recovered(s, IfaceAt(ifaces, ends[i]))];
      }
      assert ends[..|ends|] == ends;
    }

    /**
     `ApplyFaultScenario`, with repository writes that succeed; `stops` and `starts` say what the node driver's two
     calls would answer. A restart whose start fails leaves the device paused, and no fault to recover it by.
     */
    method ApplyFaultScenario(id: nat, stops: bool, starts: bool) returns (ok: bool)
      requires Valid()
      modifies this`scenarios, this`ifaces, this`paused
      ensures Valid()
      ensures !ok ==> scenarios == old(scenarios) && forall p :: IfaceAt(ifaces, p) == IfaceAt(old(ifaces), p)
      ensures !ok ==> paused == if CutRestart(old(scenarios), deployed, id, stops, starts)
                                then old(paused) + {old(scenarios)[id].spec.target.n} else old(paused)
      ensures id in old(scenarios) && old(scenarios)[id].spec.target.OnNode? ==>
                ok == (old(scenarios)[id].applied
                       || (Free(old(scenarios), old(scenarios)[id].spec.target) && deployed
                           && stops && (old(scenarios)[id].spec.ftype == NodeRestart ==> starts)))
      ensures ok ==> id in old(scenarios)
      ensures ok && old(scenarios[id]).applied ==> scenarios == old(scenarios) && ifaces == old(ifaces) && paused == old(paused)
      ensures ok && !old(scenarios[id]).applied ==>
                var s := old(scenarios)[id].spec;
                && Free(old(scenarios), s.target) && deployed
                && scenarios == old(scenarios)[id := Scenario(s, s.ftype != NodeRestart)]
                && ifaces == (if s.target.OnLink? then InjectAll(s, Ends(s, links[s.target.ln]), old(ifaces)) else old(ifaces))
                && (s.target.OnLink? ==> s.target.ln in links && Altered(s, links[s.target.ln], old(ifaces), ifaces))
                && paused == (match s.ftype
                              case NodeStop => old(paused) + {s.target.n}
                              case NodeRestart => old(paused) - {s.target.n}
                              case _ => old(paused))
    {
      hide InjectAll, ValidShape, PortsApart, TargetsFree, Covered, Altered;
      if id !in scenarios {
        return false;
      }
      var s := scenarios[id].spec;
      if scenarios[id].applied {
        return true;
      }
      var free := CheckTargetFree(id);
      if !free || !deployed {
        return false;
      }
      OthersFree(scenarios, id);
      if s.target.OnLink? {
        ok := InjectLinkFault(id);
        if ok {
          InjectKeeps(scenarios, links, old(ifaces), id);
          scenarios := scenarios[id := Scenario(s, true)];
        } else {
          SameIfaces(scenarios, links, old(ifaces), ifaces);
        }
        return;
      }
      if !stops {
        return false;
      }
      paused := paused + {s.target.n};
      if s.ftype == NodeRestart {
        if !starts {
          return false;
        }
        paused := paused - {s.target.n};
      }
      ok := true;
      NodeFaultKeeps(scenarios, links, ifaces, id, s.ftype != NodeRestart);
      scenarios := scenarios[id := Scenario(s, s.ftype != NodeRestart)];
    }

    /** `RecoverFaultScenario`: both ends are tried, and the fault stays applied if either fails. */
    method RecoverFaultScenario(id: nat) returns (ok: bool)
      requires Valid()
      modifies this`scenarios, this`ifaces, this`paused
      ensures Valid() && scenarios.Keys == old(scenarios.Keys)
      ensures forall other :: other in scenarios && other != id ==> scenarios[other] == old(scenarios)[other]
      ensures ok ==> id in scenarios && scenarios[id] == Scenario(old(scenarios)[id].spec, false)
      ensures !ok ==> scenarios == old(scenarios)
      ensures id in scenarios && old(scenarios)[id].applied && old(scenarios)[id].spec.target.OnLink? ==>
                var ends := Ends(scenarios[id].spec, links[scenarios[id].spec.target.ln]);
                PartlyRecovered(old(ifaces), ifaces, ends) && (ok ==> AllBaseline(ifaces, ends))
      ensures id in scenarios && old(scenarios)[id].applied && old(scenarios)[id].spec.target.OnLink? ==>
                && old(scenarios)[id].spec.target.ln in links
                && Restored(old(scenarios)[id].spec, links[old(scenarios)[id].spec.target.ln], old(ifaces), ifaces, ok)
      ensures !(id in scenarios && old(scenarios)[id].applied && old(scenarios)[id].spec.target.OnLink?) ==> ifaces == old(ifaces)
      ensures paused == if ok && old(scenarios)[id].applied && old(scenarios)[id].spec.target.OnNode?
                        then old(paused) - {old(scenarios)[id].spec.target.n} else old(paused)
      ensures ok || (id in old(scenarios) && old(scenarios)[id].applied) <==>
              id in old(scenarios) && (old(scenarios)[id].applied || old(scenarios)[id].spec.ftype != NodeRestart)
    {
      hide ValidShape, PortsApart, TargetsFree, Injected, Recovered, Restored;
      if id !in scenarios {
        return false;
      }
      var s := scenarios[id].spec;
      if !scenarios[id].applied {
        return s.ftype != NodeRestart;
      }
      if s.target.OnNode? {
        ok := *;
        if ok {
          paused := paused - {s.target.n};
          NodeFaultKeeps(scenarios, links, ifaces, id, false);
          scenarios := scenarios[id := Scenario(s, false)];
        }
        return;
      }
      var ends := Ends(s, links[s.target.ln]);
      ok := true;
      ghost var before := ifaces;
      for i := 0 to |ends|
        invariant scenarios == old(scenarios) && paused == old(paused) && Inv(scenarios, links, before)
        invariant PartlyRecovered(before, ifaces, ends) && (ok ==> AllBaseline(ifaces, ends[..i]))
      {
        assert ends[..i + 1] == ends[..i] + [ends[i]];
        RecoversHeld(scenarios, links, before, id, ends[i]);
        var done := SetEndpoint(ends[i], Recovered(s, IfaceAt(ifaces, ends[i])));
        RecoversBaseline(s);
        ok := ok && done;
      }
      assert ends[..|ends|] == ends;
      EndsRestored(s, links[s.target.ln], before, ifaces, ok);
      RecoverKeeps(scenarios, links, before, ifaces, id, !ok);
      scenarios := scenarios[id := Scenario(s, !ok)];
    }

    /** `DeleteFaultScenario`: recovered first, so no fault outlives its record. */
    method DeleteFaultScenario(id: nat) returns (ok: bool)
      requires Valid()
      modifies this`scenarios, this`ifaces, this`paused
      ensures Valid()
      ensures ok ==> id in old(scenarios) && scenarios == old(scenarios) - {id}
      ensures !ok ==> scenarios == old(scenarios)
      ensures ok || (id in old(scenarios) && old(scenarios)[id].applied) <==> id in old(scenarios)
      ensures id in old(scenarios) && old(scenarios)[id].applied && old(scenarios)[id].spec.target.OnLink? ==>
                && old(scenarios)[id].spec.target.ln in links
                && Restored(old(scenarios)[id].spec, links[old(scenarios)[id].spec.target.ln], old(ifaces), ifaces, ok)
      ensures !(id in old(scenarios) && old(scenarios)[id].applied && old(scenarios)[id].spec.target.OnLink?) ==> ifaces == old(ifaces)
      ensures paused == if ok && old(scenarios)[id].applied && old(scenarios)[id].spec.target.OnNode?
                        then old(paused) - {old(scenarios)[id].spec.target.n} else old(paused)
    {
      hide ValidShape, PortsApart, TargetsFree, Covered, Restored;
      if id !in scenarios {
        return false;
      }
      if scenarios[id].applied {
        ok := RecoverFaultScenario(id);
        if !ok {
          return;
        }
      }
      IdleKeeps(scenarios, links, ifaces, id, scenarios[id]);
      scenarios := scenarios - {id};
      return true;
    }
  }

  lemma InjectNone(s: Spec, ends: seq<Port>, ifaces: map<Port, Iface>)
    ensures InjectAll(s, ends[..0], ifaces) == ifaces
  {
  }

  lemma InjectNext(s: Spec, ends: seq<Port>, i: nat, ifaces: map<Port, Iface>)
    requires i < |ends|
    ensures var before := InjectAll(s, ends[..i], ifaces);
            InjectAll(s, ends[..i + 1], ifaces) == before[ends[i] := Injected(s, IfaceAt(before, ends[i]))]
  {
    assert ends[..i + 1][..i] == ends[..i];
  }

  /** Recovering what was injected into a baseline interface gives the baseline back. */
  lemma RecoverUndoes(s: Spec)
    ensures Recovered(s, Injected(s, BASELINE)) == BASELINE
  {
  }

  lemma RecoverTwice(s: Spec, i: Iface)
    ensures Recovered(s, Recovered(s, i)) == Recovered(s, i)
  {
  }

  lemma RecoversBaseline(s: Spec)
    ensures Recovered(s, Injected(s, BASELINE)) == BASELINE && Recovered(s, BASELINE) == BASELINE
  {
  }

  /** An interface an applied fault holds is at the baseline or exactly as that fault made it. */
  lemma RecoversHeld(scenarios: map<nat, Scenario>, links: map<LinkName, Wire>, ifaces: map<Port, Iface>, id: nat, p: Port)
    requires Inv(scenarios, links, ifaces) && id in scenarios && Covers(scenarios[id], links, p)
    ensures IfaceAt(ifaces, p) == BASELINE || IfaceAt(ifaces, p) == Injected(scenarios[id].spec, BASELINE)
  {
    hide Injected;
    if IfaceAt(ifaces, p) != BASELINE {
      ExactlyOneCovers(scenarios, links, ifaces, p);
    }
  }

  lemma OthersFree(scenarios: map<nat, Scenario>, id: nat)
    requires id in scenarios && !scenarios[id].applied && Free(scenarios - {id}, scenarios[id].spec.target)
    ensures Free(scenarios, scenarios[id].spec.target)
  {
    forall other | other in scenarios && scenarios[other].applied ensures other in scenarios - {id} {
    }
  }

  lemma SameIfaces(scenarios: map<nat, Scenario>, links: map<LinkName, Wire>, ifaces: map<Port, Iface>, after: map<Port, Iface>)
    requires Inv(scenarios, links, ifaces) && forall p :: IfaceAt(after, p) == IfaceAt(ifaces, p)
    ensures Inv(scenarios, links, after)
  {
  }

  /** The two ways a link's interfaces are unique: on the fixed topology of a lab they always are. */
  lemma WiredPortsApart(t: Topo, links: map<LinkName, Wire>)
    requires Wired(t) && forall ln :: ln in links ==> exists l :: l in t.links && l.name == ln && WireOf(l) == links[ln]
    ensures PortsApart(links)
  {
    hide Wired;
    forall ln | ln in links ensures links[ln].a != links[ln].z {
      var l :| l in t.links && l.name == ln && WireOf(l) == links[ln];
      EndsDiffer(t, l);
    }
    forall ln, ln', p | ln in links && ln' in links && OnLinkPort(links[ln], p) && OnLinkPort(links[ln'], p)
      ensures ln == ln'
    {
      var l :| l in t.links && l.name == ln && WireOf(l) == links[ln];
      var l' :| l' in t.links && l'.name == ln' && WireOf(l') == links[ln'];
      PortOwner(t, l, l', p);
    }
  }

  /** Were the record of a successful injection not stored, its interfaces would be off with nothing to recover them. */
  lemma UnstoredInjectionUncovers(scenarios: map<nat, Scenario>, links: map<LinkName, Wire>, ifaces: map<Port, Iface>, id: nat)
    requires Inv(scenarios, links, ifaces) && id in scenarios && Free(scenarios, scenarios[id].spec.target)
    requires scenarios[id].spec.target.OnLink?
    ensures var s := scenarios[id].spec; !Covered(scenarios, links, InjectAll(s, Ends(s, links[s.target.ln]), ifaces))
  {
    var s := scenarios[id].spec;
    var ln := s.target.ln;
    var ends := Ends(s, links[ln]);
    var after := InjectAll(s, ends, ifaces);
    InjectedAt(s, ends, ifaces, ends[0]);
    FreeIsBaseline(scenarios, links, ifaces, ln, ends[0]);
    assert IfaceAt(after, ends[0]) != BASELINE;
    EndIsPort(s, links[ln], ends[0]);
    hide InjectAll, Injected, ValidShape, Ends, PortsApart, Covered, TargetsFree, Applicable, OnLinkPort, IfaceAt;
    if Covered(scenarios, links, after) {
      OffMeansHeld(scenarios, links, after, ln, ends[0]);
    }
  }

  lemma EndIsPort(s: Spec, link: Wire, p: Port)
    requires p in Ends(s, link)
    ensures OnLinkPort(link, p)
  {
  }
}
