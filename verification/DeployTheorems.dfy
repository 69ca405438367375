/**
 What an apply does to a running lab: a complete run of the compiled increment leaves exactly the containers
 and veth pairs of the new topology, from the old one or from anything failed runs may have left, without
 stopping a surviving container or cutting a surviving pair. All of it holds exactly when the links common
 to both topologies sit on the same interfaces, which a rebuild guarantees and a rollback does not.
 */
module DeployTheorems {
  import opened Wrappers
  import opened Sequences
  import opened Fabric
  import opened Script
  import opened BuildInvariant
  import opened Certification
  import opened RebuildTheorems
  import opened WellFormedness
  import opened PlanDiff
  import opened Deploy

  /** The veth pairs of a topology. */
  function Pairs(t: Topo): set<Wire> {
    set l | l in t.links :: WireOf(l)
  }

  /** Links common to both topologies sit on the same interfaces. */
  ghost predicate SamePorts(base: Topo, res: Topo) {
    forall l, l' :: l in base.links && l' in res.links && l.name == l'.name ==> WireOf(l) == WireOf(l')
  }

  /** The increment is the compiled difference of the two topologies. */
  ghost predicate Compiled(inc: Increment, base: Topo, res: Topo) {
    && inc.addNodes == CreatedNodes(base, res) && inc.removeNodes == DeletedNodes(base, res)
    && inc.addLinks == WireList(NewLinks(res.links, LinkSet(base.links)))
  }

  /** Pairs of links present before and after. */
  function Kept(base: Topo, res: Topo): set<Wire> {
    set l | l in base.links && l.name in LinkSet(res.links) :: WireOf(l)
  }

  /** Anything failed runs of the increment may leave, the untouched base included. */
  ghost predicate Underway(base: Topo, res: Topo, w: World) {
    && NodeSet(base.nodes) * NodeSet(res.nodes) <= w.containers <= NodeSet(base.nodes) + NodeSet(res.nodes)
    && Kept(base, res) <= w.wires <= Pairs(base) + Pairs(res)
    && w.stopped !! NodeSet(base.nodes) * NodeSet(res.nodes)
    && w.lost !! Kept(base, res)
  }

  /** The parts of well-formedness that wiring depends on. */
  ghost predicate Wired(t: Topo) {
    Distinct(LinkNames(t.links)) && EndsExist(t) && InterfacesUnique(t)
  }

  lemma CertifiedIsWired(t: Topo, s: Shape, h: Holds)
    requires Certified(t, s, h)
    ensures Wired(t)
  {
    CertifiedLinks(t, s, h);
  }

  // ---------- what the increment lists ----------

  lemma {:induction false} InNewLinks(links: seq<Link>, inBase: set<LinkName>, l: Link)
    ensures l in NewLinks(links, inBase) <==> l in links && l.name !in inBase
  {
    if links != [] {
      InNewLinks(links[..|links| - 1], inBase, l);
      assert links == links[..|links| - 1] + [links[|links| - 1]];
    }
  }

  lemma InWireList(links: seq<Link>, w: Wire)
    ensures w in WireList(links) <==> exists l :: l in links && WireOf(l) == w
  {
    if l :| l in links && WireOf(l) == w {
      var i :| 0 <= i < |links| && links[i] == l;
      assert WireList(links)[i] == w;
    }
  }

  lemma AddedLinks(inc: Increment, base: Topo, res: Topo, w: Wire)
    requires Compiled(inc, base, res)
    ensures w in inc.addLinks <==> exists l :: l in res.links && l.name !in LinkSet(base.links) && WireOf(l) == w
  {
    var links := NewLinks(res.links, LinkSet(base.links));
    InWireList(links, w);
    forall l { InNewLinks(res.links, LinkSet(base.links), l); }
  }

  lemma ListedNodes(inc: Increment, base: Topo, res: Topo)
    requires Compiled(inc, base, res)
    ensures Elements(inc.addNodes) == NodeSet(res.nodes) - NodeSet(base.nodes)
    ensures Elements(inc.removeNodes) == NodeSet(base.nodes) - NodeSet(res.nodes)
  {
    forall n { NodeSetIs(base.nodes, n); }
    forall n { NodeSetIs(res.nodes, n); }
    forall n { InMissing(NodeNames(res.nodes), NodeSet(base.nodes), n); }
    forall n { InMissing(NodeNames(base.nodes), NodeSet(res.nodes), n); }
  }

  /** An interface of a wired topology belongs to one of its links. */
  lemma PortOwner(t: Topo, l: Link, l': Link, p: Port)
    requires Wired(t) && l in t.links && l' in t.links && OnPort(WireOf(l), p) && OnPort(WireOf(l'), p)
    ensures l == l'
  {
    assert exists e :: EndOf(l, e).node == p.node && EndOf(l, e).eth == p.eth by {
      assert EndOf(l, false) == l.a && EndOf(l, true) == l.z;
    }
    assert exists e :: EndOf(l', e).node == p.node && EndOf(l', e).eth == p.eth by {
      assert EndOf(l', false) == l'.a && EndOf(l', true) == l'.z;
    }
  }

  lemma EndsDiffer(t: Topo, l: Link)
    requires Wired(t) && l in t.links
    ensures WireOf(l).a != WireOf(l).z
  {
    assert EndOf(l, false) == l.a && EndOf(l, true) == l.z;
  }

  /** The links of an increment towards a wired topology never contend for an interface. */
  lemma AddedPortsDisjoint(inc: Increment, base: Topo, res: Topo)
    requires Compiled(inc, base, res) && Wired(res)
    ensures PortsDisjoint(inc.addLinks)
  {
    hide Wired, Compiled;
    forall w | w in inc.addLinks ensures w.a != w.z {
      AddedLinks(inc, base, res, w);
      var l :| l in res.links && WireOf(l) == w;
      EndsDiffer(res, l);
    }
    forall w, w', p | w in inc.addLinks && w' in inc.addLinks && OnPort(w, p) && OnPort(w', p)
      ensures w == w'
    {
      AddedLinks(inc, base, res, w);
      AddedLinks(inc, base, res, w');
      var l :| l in res.links && WireOf(l) == w;
      var l' :| l' in res.links && WireOf(l') == w';
      PortOwner(res, l, l', p);
    }
  }

  /** A surviving pair never meets a new or removed device, nor an interface of a new link. */
  lemma KeptIsUntouched(inc: Increment, base: Topo, res: Topo, w: Wire)
    requires Compiled(inc, base, res) && Wired(base) && Wired(res) && SamePorts(base, res) && w in Kept(base, res)
    ensures w in Pairs(res) && w !in inc.addLinks && Untouched(w, inc)
  {
    hide Compiled, InterfacesUnique;
    ListedNodes(inc, base, res);
    var l :| l in base.links && l.name in LinkSet(res.links) && WireOf(l) == w;
    var l' :| l' in res.links && l'.name == l.name;
    assert WireOf(l') == w;
    EndsListed(base, l);
    EndsListed(res, l');
    if TouchesPorts(w, PortsOf(inc.addLinks)) {
      var p := if w.a in PortsOf(inc.addLinks) then w.a else w.z;
      var x := PortUser(inc.addLinks, p);
      AddedLinks(inc, base, res, x);
      var l'' :| l'' in res.links && l''.name !in LinkSet(base.links) && WireOf(l'') == x;
      PortOwner(res, l', l'', p);
    }
    if w in inc.addLinks {
      AddedIsNew(inc, base, res, l');
    }
  }

  lemma AddedIsNew(inc: Increment, base: Topo, res: Topo, l: Link)
    requires Compiled(inc, base, res) && Wired(res) && l in res.links && WireOf(l) in inc.addLinks
    ensures l.name !in LinkSet(base.links)
  {
    hide Compiled, Wired;
    AddedLinks(inc, base, res, WireOf(l));
    var l' :| l' in res.links && l'.name !in LinkSet(base.links) && WireOf(l') == WireOf(l);
    PortOwner(res, l, l', WireOf(l).a);
  }

  lemma EndsListed(t: Topo, l: Link)
    requires EndsExist(t) && l in t.links
    ensures l.a.node in NodeSet(t.nodes) && l.z.node in NodeSet(t.nodes)
  {
    NodeSetIs(t.nodes, l.a.node);
    NodeSetIs(t.nodes, l.z.node);
  }

  /**
   A complete run leaves exactly the new containers if and only if it starts with every survivor running and
   nothing outside the two topologies: what an abandoned increment created, another one does not clean up.
   */
  lemma ContainersExactIff(inc: Increment, base: Topo, res: Topo, containers: set<Name>)
    requires Compiled(inc, base, res)
    ensures FinalContainers(containers, inc) == NodeSet(res.nodes) <==>
            NodeSet(base.nodes) * NodeSet(res.nodes) <= containers <= NodeSet(base.nodes) + NodeSet(res.nodes)
  {
    hide Compiled, NodeSet;
    ListedNodes(inc, base, res);
    var b, r := NodeSet(base.nodes), NodeSet(res.nodes);
    assert FinalContainers(containers, inc) == (containers + (r - b)) - (b - r);
    if (containers + (r - b)) - (b - r) == r {
      forall n | n in containers ensures n in b + r { assert n in (containers + (r - b)) - (b - r) || n in b - r; }
      forall n | n in b * r ensures n in containers { assert n in (containers + (r - b)) - (b - r); }
    }
  }

  /**
   An instance for any lab: a run towards `res` is cut short right after its first phase has created one device, and
   the lab is then taken to a topology without that device. The run was an allowed one, and the container stays.
   */
  lemma AbandonedContainerStays(inc: Increment, base: Topo, res: Topo, n: Name, inc': Increment, res': Topo)
    requires Compiled(inc, base, res) && Compiled(inc', base, res')
    requires n in NodeSet(res.nodes) && n !in NodeSet(base.nodes) && n !in NodeSet(res'.nodes)
    requires Wired(base)
    ensures var w0 := World(NodeSet(base.nodes), Pairs(base), {}, {});
            var w := World(NodeSet(base.nodes) + {n}, Pairs(base), {}, {});
            && Creating(w0, w, Elements(inc.addNodes), Elements(inc.addNodes) - {n}, {}) && CutShort(w0, w, inc)
            && n in FinalContainers(w.containers, inc') && FinalContainers(w.containers, inc') != NodeSet(res'.nodes)
  {
    hide Compiled, NodeSet, Pairs, Wired;
    ListedNodes(inc, base, res);
    ListedNodes(inc', base, res');
    var w0 := World(NodeSet(base.nodes), Pairs(base), {}, {});
    var w := World(NodeSet(base.nodes) + {n}, Pairs(base), {}, {});
    forall x | x in Pairs(base) ensures !TouchesNodes(x, {n}) { PairEndsListed(base, x); }
    var ns := Elements(inc.addNodes);
    assert ns - (ns - {n}) == {n} && {} + {n} == {n};
    assert w0.containers - {} == w0.containers;
    assert WithoutNodes(w0.wires, {n}) == w0.wires;
    assert Creating(w0, w, ns, ns - {n}, {});
    StoppedInPhaseOne(w0, w, inc);
  }

  lemma PairEndsListed(t: Topo, x: Wire)
    requires Wired(t) && x in Pairs(t)
    ensures x.a.node in NodeSet(t.nodes) && x.z.node in NodeSet(t.nodes)
  {
    hide NodeSet, InterfacesUnique;
    var l :| l in t.links && WireOf(l) == x;
    EndsListed(t, l);
  }

  // ---------- refinement and retries ----------

  /** A run cut short anywhere leaves a state another run can start from, and no survivor was harmed. */
  lemma CutShortIsUnderway(inc: Increment, base: Topo, res: Topo, w0: World, w: World)
    requires Compiled(inc, base, res) && Wired(base) && Wired(res) && SamePorts(base, res)
    requires Underway(base, res, w0) && CutShort(w0, w, inc)
    ensures Underway(base, res, w)
  {
    hide Compiled, Wired, SamePorts, Kept, Untouched;
    ListedNodes(inc, base, res);
    forall x | x in Kept(base, res) ensures x in w.wires && x !in w.lost {
      KeptIsUntouched(inc, base, res, x);
    }
    forall x | x in inc.addLinks ensures x in Pairs(res) {
      AddedLinks(inc, base, res, x);
    }
  }

  /** A complete run from any such state leaves exactly the new topology. */
  lemma CompleteRunIsExact(inc: Increment, base: Topo, res: Topo, w: World)
    requires Compiled(inc, base, res) && Wired(base) && Wired(res) && SamePorts(base, res) && !Stranded(base, res)
    requires Underway(base, res, w)
    ensures FinalContainers(w.containers, inc) == NodeSet(res.nodes)
    ensures FinalWires(w.wires, inc) == Pairs(res)
  {
    hide Compiled, Wired, SamePorts, Kept, Underway, FinalWires;
    ListedNodes(inc, base, res);
    UnderwayContainers(base, res, w);
    forall x ensures x in FinalWires(w.wires, inc) <==> x in Pairs(res) {
      if x in FinalWires(w.wires, inc) { FinalIsNew(inc, base, res, w, x); }
      if x in Pairs(res) { NewIsFinal(inc, base, res, w, x); }
    }
  }

  lemma UnderwayContainers(base: Topo, res: Topo, w: World)
    requires Underway(base, res, w)
    ensures NodeSet(base.nodes) * NodeSet(res.nodes) <= w.containers <= NodeSet(base.nodes) + NodeSet(res.nodes)
  {
  }

  lemma FinalIsNew(inc: Increment, base: Topo, res: Topo, w: World, x: Wire)
    requires Compiled(inc, base, res) && Wired(base) && Wired(res) && SamePorts(base, res) && !Stranded(base, res)
    requires Underway(base, res, w) && x in FinalWires(w.wires, inc)
    ensures x in Pairs(res)
  {
    hide Compiled, Wired, SamePorts, PortsOf;
    ListedNodes(inc, base, res);
    AddedLinks(inc, base, res, x);
    if x !in Pairs(res) {
      var l :| l in base.links && WireOf(l) == x;
      WiredEnds(base);
      EndsListed(base, l);
      if l.name in LinkSet(res.links) {
        assert x in Kept(base, res);
        KeptIsUntouched(inc, base, res, x);
      }
    }
  }

  lemma WiredEnds(t: Topo)
    requires Wired(t)
    ensures EndsExist(t)
  {
  }

  lemma NewIsFinal(inc: Increment, base: Topo, res: Topo, w: World, x: Wire)
    requires Compiled(inc, base, res) && Wired(base) && Wired(res) && SamePorts(base, res)
    requires Underway(base, res, w) && x in Pairs(res)
    ensures x in FinalWires(w.wires, inc)
  {
    hide Compiled, Wired, PortsOf;
    ListedNodes(inc, base, res);
    var l :| l in res.links && WireOf(l) == x;
    WiredEnds(res);
    EndsListed(res, l);
    if l.name in LinkSet(base.links) {
      var l' :| l' in base.links && l'.name == l.name;
      assert WireOf(l') == x && x in Kept(base, res);
      KeptIsUntouched(inc, base, res, x);
    } else {
      AddedLinks(inc, base, res, x);
    }
  }

  /** Two certified topologies never strand a link, so compiling their difference cannot fail on one. */
  lemma NothingIsStranded(base: Topo, s: Shape, h: Holds, res: Topo, s': Shape, h': Holds)
    requires Certified(base, s, h) && Certified(res, s', h')
    ensures !Stranded(base, res)
  {
    hide Certified, LinkSet, NodeSet;
    forall l | l in base.links && l.a.node in NodeSet(res.nodes) && l.z.node in NodeSet(res.nodes)
      ensures l.name in LinkSet(res.links)
    {
      NamesOfLink(base, s, h, l);
      CertifiedLinks(base, s, h);
      NodeSetIs(res.nodes, l.a.node);
      NodeSetIs(res.nodes, l.z.node);
      LinkSetIs(res.links, l.name);
      LinkListed(base, l);
      LinkSetIs(base.links, l.name);
      LinkGoesWithAnEnd(base, s, h, res, s', h', l.name);
    }
  }

  lemma LinkListed(t: Topo, l: Link)
    requires l in t.links
    ensures l.name in LinkSet(t.links)
  {
  }

  /** The base itself is where a first run starts. */
  lemma BaseIsUnderway(base: Topo, res: Topo)
    ensures Underway(base, res, World(NodeSet(base.nodes), Pairs(base), {}, {}))
  {
  }

  /**
   Exactness, decided: between any two certified topologies, a complete run on the wiring of the base leaves
   the new topology if and only if the links common to both sit on the same interfaces.
   */
  lemma ExactIffSamePorts(inc: Increment, base: Topo, s: Shape, h: Holds, res: Topo, s': Shape, h': Holds)
    requires Certified(base, s, h) && Certified(res, s', h') && Compiled(inc, base, res)
    ensures FinalContainers(NodeSet(base.nodes), inc) == NodeSet(res.nodes)
    ensures FinalWires(Pairs(base), inc) == Pairs(res) <==> SamePorts(base, res)
  {
    hide Certified, Compiled, SamePorts, Wired, FinalWires, Underway;
    ListedNodes(inc, base, res);
    CertifiedIsWired(base, s, h);
    CertifiedIsWired(res, s', h');
    NothingIsStranded(base, s, h, res, s', h');
    if SamePorts(base, res) {
      BaseIsUnderway(base, res);
      CompleteRunIsExact(inc, base, res, World(NodeSet(base.nodes), Pairs(base), {}, {}));
    }
    if FinalWires(Pairs(base), inc) == Pairs(res) {
      ExactNeedsSamePorts(inc, base, res);
    }
  }

  lemma ExactNeedsSamePorts(inc: Increment, base: Topo, res: Topo)
    requires Wired(base) && Wired(res) && Compiled(inc, base, res) && Pairs(res) <= FinalWires(Pairs(base), inc)
    ensures SamePorts(base, res)
  {
    hide Compiled, Wired;
    forall l, l' | l in base.links && l' in res.links && l.name == l'.name
      ensures WireOf(l) == WireOf(l')
    {
      assert WireOf(l') in Pairs(res);
      AddedLinks(inc, base, res, WireOf(l'));
      if WireOf(l') in inc.addLinks {
        AddedIsNew(inc, base, res, l');
      }
      var l'' :| l'' in base.links && WireOf(l'') == WireOf(l');
      SamePairSameName(base, res, l'', l');
      OneLinkPerName(base, l, l'');
    }
  }

  lemma SamePairSameName(base: Topo, res: Topo, l: Link, l': Link)
    requires Wired(base) && Wired(res) && l in base.links && l' in res.links && WireOf(l) == WireOf(l')
    ensures l.name == l'.name
  {
    hide InterfacesUnique;
  }

  lemma OneLinkPerName(t: Topo, l: Link, l': Link)
    requires Wired(t) && l in t.links && l' in t.links && l.name == l'.name
    ensures l == l'
  {
    hide EndsExist, InterfacesUnique;
    var i :| 0 <= i < |t.links| && t.links[i] == l;
    var j :| 0 <= j < |t.links| && t.links[j] == l';
    assert LinkNames(t.links)[i] == LinkNames(t.links)[j];
  }

  /** A regular plan always meets the condition: survivors keep their interfaces. */
  lemma RegularPlanKeepsPorts(base: Topo, s: Shape, h: Holds, res: Topo, s': Shape, h': Holds)
    requires Certified(base, s, h) && Certified(res, s', h') && Agree(h, h')
    ensures SamePorts(base, res)
  {
    hide Certified, Agree;
    SurvivorsUnchanged(base, s, h, res, s', h');
  }

  /**
   Applying a regular plan: any number of failed runs, then perhaps one that completes. Survivors keep running
   and surviving pairs are never cut, whatever happens; a completed run leaves exactly the new topology.
   */
  method ApplyWithRetries(rt: Runtime, inc: Increment, base: Topo, res: Topo, retries: nat,
                          ghost s: Shape, ghost h: Holds, ghost s': Shape, ghost h': Holds)
    returns (ok: bool)
    requires Certified(base, s, h) && Certified(res, s', h') && Agree(h, h') && Compiled(inc, base, res)
    requires Underway(base, res, rt.Now())
    modifies rt
    ensures Underway(base, res, rt.Now())
    ensures ok ==> rt.containers == NodeSet(res.nodes) && rt.wires == Pairs(res)
  {
    hide Certified, Agree, Compiled, Underway, Wired, SamePorts, CutShort, FinalWires, FinalContainers;
    CertifiedIsWired(base, s, h);
    CertifiedIsWired(res, s', h');
    RegularPlanKeepsPorts(base, s, h, res, s', h');
    NothingIsStranded(base, s, h, res, s', h');
    AddedPortsDisjoint(inc, base, res);
    ok := false;
    var left := retries + 1;
    while !ok && left > 0
      invariant Underway(base, res, rt.Now())
      invariant ok ==> rt.containers == NodeSet(res.nodes) && rt.wires == Pairs(res)
      decreases left
    {
      ghost var before := rt.Now();
      CompleteRunIsExact(inc, base, res, before);
      ok := rt.DeployIncrement(inc);
      CutShortIsUnderway(inc, base, res, before, rt.Now());
      left := left - 1;
    }
  }
}
