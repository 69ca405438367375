/**
 What a plan's preview says, and that the apply does the same: every operation list, increment, restore scope
 and prune set is one and the same set of differences; for a rebuild no surviving device is ever reported as
 changed, and rebuilding what is deployed previews nothing.
 */
module PlanTheorems {
  import opened Wrappers
  import opened Sequences
  import opened Fabric
  import opened Script
  import opened Build
  import opened BuildInvariant
  import opened Certification
  import opened RebuildTheorems
  import opened WellFormedness
  import opened PlanDiff
  import opened DeployTheorems

  // ---------- reading the operation list ----------

  /** The update a preview has for a surviving device, if any. */
  ghost predicate Updated(base: Topo, res: Topo, n: Name, k: nat, changed: bool) {
    && k == Incidence(CreatedLinks(base, res) + DeletedLinks(base, res), n)
    && (changed || k != 0)
    && exists node :: node in res.nodes && node.name == n && FindNode(base.nodes, n).Some?
         && changed == (FindNode(base.nodes, n).value.spec != node.spec)
  }

  lemma InCreateNodes(ns: seq<Name>, op: PlanOp)
    ensures op in CreateNodes(ns) <==> op.CreateNode? && op.n in ns
    ensures op in DeleteNodes(ns) <==> op.DeleteNode? && op.n in ns
  {
    if op.CreateNode? && op.n in ns {
      var i :| 0 <= i < |ns| && ns[i] == op.n;
      assert CreateNodes(ns)[i] == op;
    }
    if op.DeleteNode? && op.n in ns {
      var i :| 0 <= i < |ns| && ns[i] == op.n;
      assert DeleteNodes(ns)[i] == op;
    }
  }

  lemma InCreateLinks(ls: seq<LinkName>, op: PlanOp)
    ensures op in CreateLinks(ls) <==> op.CreateLink? && op.ln in ls
    ensures op in DeleteLinks(ls) <==> op.DeleteLink? && op.ln in ls
  {
    if op.CreateLink? && op.ln in ls {
      var i :| 0 <= i < |ls| && ls[i] == op.ln;
      assert CreateLinks(ls)[i] == op;
    }
    if op.DeleteLink? && op.ln in ls {
      var i :| 0 <= i < |ls| && ls[i] == op.ln;
      assert DeleteLinks(ls)[i] == op;
    }
  }

  lemma {:induction false} InUpdates(base: seq<Node>, nodes: seq<Node>, changed: seq<LinkName>, op: PlanOp)
    ensures op in Updates(base, nodes, changed) <==> exists node :: node in nodes && op in UpdateOf(base, node, changed)
  {
    if nodes != [] {
      InUpdates(base, nodes[..|nodes| - 1], changed, op);
      assert nodes == nodes[..|nodes| - 1] + [nodes[|nodes| - 1]];
      assert nodes[|nodes| - 1] in nodes;
    }
  }

  /** The preview, operation by operation. */
  lemma PreviewIs(base: Topo, res: Topo, op: PlanOp)
    ensures op in Preview(base, res) <==>
            match op
            case CreateNode(n) => n in NodeSet(res.nodes) - NodeSet(base.nodes)
            case DeleteNode(n) => n in NodeSet(base.nodes) - NodeSet(res.nodes)
            case CreateLink(ln) => ln in LinkSet(res.links) - LinkSet(base.links)
            case DeleteLink(ln) => ln in LinkSet(base.links) - LinkSet(res.links)
            case UpdateNode(n, k, changed) => Updated(base, res, n, k, changed)
  {
    hide Incidence, FindNode, CreateNodes, DeleteNodes, CreateLinks, DeleteLinks, Updates, NodeSet, LinkSet;
    var created, deleted := CreatedLinks(base, res), DeletedLinks(base, res);
    InCreateNodes(CreatedNodes(base, res), op);
    InCreateNodes(DeletedNodes(base, res), op);
    InCreateLinks(created, op);
    InCreateLinks(deleted, op);
    InUpdates(base.nodes, res.nodes, created + deleted, op);
    match op
    case CreateNode(n) => DifferenceIs(base, res, n, LinkName(n, n));
    case DeleteNode(n) => DifferenceIs(base, res, n, LinkName(n, n));
    case CreateLink(ln) => DifferenceIs(base, res, ln.a, ln);
    case DeleteLink(ln) => DifferenceIs(base, res, ln.a, ln);
    case UpdateNode(_, _, _) =>
  }

  lemma DifferenceIs(base: Topo, res: Topo, n: Name, ln: LinkName)
    ensures n in CreatedNodes(base, res) <==> n in NodeSet(res.nodes) - NodeSet(base.nodes)
    ensures n in DeletedNodes(base, res) <==> n in NodeSet(base.nodes) - NodeSet(res.nodes)
    ensures ln in CreatedLinks(base, res) <==> ln in LinkSet(res.links) - LinkSet(base.links)
    ensures ln in DeletedLinks(base, res) <==> ln in LinkSet(base.links) - LinkSet(res.links)
  {
    hide NodeSet, LinkSet, NodeNames, LinkNames;
    InMissing(NodeNames(res.nodes), NodeSet(base.nodes), n);
    InMissing(NodeNames(base.nodes), NodeSet(res.nodes), n);
    InMissing(LinkNames(res.links), LinkSet(base.links), ln);
    InMissing(LinkNames(base.links), LinkSet(res.links), ln);
    NodeSetIs(base.nodes, n);
    NodeSetIs(res.nodes, n);
    LinkSetIs(base.links, ln);
    LinkSetIs(res.links, ln);
  }

  // ---------- one difference, five readers ----------

  /**
   The operations previewed, the increment executed, the devices given their programs back and the records
   pruned all name the same devices and links.
   */
  lemma OneDifference(base: Topo, res: Topo, inc: Increment, scope: seq<Node>, goneNodes: set<Name>, goneLinks: set<LinkName>)
    requires Compiled(inc, base, res)
    requires NodeNames(scope) == Missing(NodeNames(res.nodes), NodeSet(base.nodes))
    requires goneNodes == Elements(DeletedNodes(base, res)) && goneLinks == Elements(DeletedLinks(base, res))
    ensures forall n :: CreateNode(n) in Preview(base, res) <==> n in inc.addNodes
    ensures forall n :: CreateNode(n) in Preview(base, res) <==> n in NodeSet(scope)
    ensures forall n :: DeleteNode(n) in Preview(base, res) <==> n in inc.removeNodes
    ensures forall n :: DeleteNode(n) in Preview(base, res) <==> n in goneNodes
    ensures forall ln :: DeleteLink(ln) in Preview(base, res) <==> ln in goneLinks
    ensures forall w :: w in inc.addLinks <==>
                        exists l :: l in res.links && CreateLink(l.name) in Preview(base, res)
                                    && w == Wire(Port(l.a.node, l.a.eth), Port(l.z.node, l.z.eth))
  {
    hide Preview, Incidence, FindNode, Missing;
    forall n
      ensures CreateNode(n) in Preview(base, res) <==> n in inc.addNodes
      ensures CreateNode(n) in Preview(base, res) <==> n in NodeSet(scope)
      ensures DeleteNode(n) in Preview(base, res) <==> n in inc.removeNodes
      ensures DeleteNode(n) in Preview(base, res) <==> n in goneNodes
    {
      PreviewIs(base, res, CreateNode(n));
      PreviewIs(base, res, DeleteNode(n));
      DifferenceIs(base, res, n, LinkName(n, n));
      NodeSetIs(scope, n);
    }
    forall ln ensures DeleteLink(ln) in Preview(base, res) <==> ln in goneLinks {
      PreviewIs(base, res, DeleteLink(ln));
      DifferenceIs(base, res, ln.a, ln);
    }
    forall w
      ensures w in inc.addLinks <==>
              exists l :: l in res.links && CreateLink(l.name) in Preview(base, res)
                          && w == Wire(Port(l.a.node, l.a.eth), Port(l.z.node, l.z.eth))
    {
      AddedLinks(inc, base, res, w);
      forall l | l in res.links ensures CreateLink(l.name) in Preview(base, res) <==> l.name !in LinkSet(base.links) {
        PreviewIs(base, res, CreateLink(l.name));
      }
    }
  }

  /** The kinds of operation come one after the other. */
  function Rank(op: PlanOp): nat {
    match op
    case CreateNode(_) => 0
    case CreateLink(_) => 1
    case DeleteLink(_) => 2
    case DeleteNode(_) => 3
    case UpdateNode(_, _, _) => 4
  }

  ghost predicate Ranked(ops: seq<PlanOp>, low: nat, high: nat) {
    && (forall i :: 0 <= i < |ops| ==> low <= Rank(ops[i]) <= high)
    && forall i, j :: 0 <= i < j < |ops| ==> Rank(ops[i]) <= Rank(ops[j])
  }

  lemma RankedConcat(xs: seq<PlanOp>, ys: seq<PlanOp>, low: nat, mid: nat, high: nat)
    requires Ranked(xs, low, mid) && Ranked(ys, mid, high) && low <= mid <= high
    ensures Ranked(xs + ys, low, high)
  {
  }

  lemma {:induction false} UpdatesRanked(base: seq<Node>, nodes: seq<Node>, changed: seq<LinkName>)
    ensures Ranked(Updates(base, nodes, changed), 4, 4)
  {
    if nodes != [] {
      UpdatesRanked(base, nodes[..|nodes| - 1], changed);
      RankedConcat(Updates(base, nodes[..|nodes| - 1], changed), UpdateOf(base, nodes[|nodes| - 1], changed), 4, 4, 4);
    }
  }

  /** A preview lists created devices, created links, deleted links, deleted devices and updates, in this order. */
  lemma PreviewInOrder(base: Topo, res: Topo)
    ensures Ranked(Preview(base, res), 0, 4)
  {
    hide Ranked, Missing, Updates, Incidence, FindNode;
    var changed := CreatedLinks(base, res) + DeletedLinks(base, res);
    OneKindRanked(CreatedNodes(base, res), CreatedLinks(base, res));
    OneKindRanked(DeletedNodes(base, res), DeletedLinks(base, res));
    UpdatesRanked(base.nodes, res.nodes, changed);
    var nodes, links := CreateNodes(CreatedNodes(base, res)), CreateLinks(CreatedLinks(base, res));
    var gone, removed := DeleteLinks(DeletedLinks(base, res)), DeleteNodes(DeletedNodes(base, res));
    WiderRanked(nodes, 0, 1);
    WiderRanked(links, 1, 2);
    WiderRanked(gone, 2, 3);
    WiderRanked(removed, 3, 4);
    RankedConcat(nodes, links, 0, 1, 2);
    RankedConcat(nodes + links, gone, 0, 2, 3);
    RankedConcat(nodes + links + gone, removed, 0, 3, 4);
    RankedConcat(nodes + links + gone + removed, Updates(base.nodes, res.nodes, changed), 0, 4, 4);
  }

  lemma OneKindRanked(ns: seq<Name>, ls: seq<LinkName>)
    ensures Ranked(CreateNodes(ns), 0, 0) && Ranked(CreateLinks(ls), 1, 1)
    ensures Ranked(DeleteLinks(ls), 2, 2) && Ranked(DeleteNodes(ns), 3, 3)
  {
  }

  lemma WiderRanked(ops: seq<PlanOp>, low: nat, high: nat)
    requires Ranked(ops, low, low) && low <= high
    ensures Ranked(ops, low, high)
  {
  }

  lemma {:induction false} UpdatesDistinct(base: seq<Node>, nodes: seq<Node>, changed: seq<LinkName>)
    requires Distinct(NodeNames(nodes))
    ensures Distinct(Updates(base, nodes, changed))
    ensures forall op :: op in Updates(base, nodes, changed) ==> op.UpdateNode? && op.n in NodeNames(nodes)
  {
    if nodes != [] {
      var init, last := nodes[..|nodes| - 1], nodes[|nodes| - 1];
      assert NodeNames(nodes) == NodeNames(init) + [last.name];
      DistinctAppend(NodeNames(init), last.name);
      UpdatesDistinct(base, init, changed);
      DistinctConcat(Updates(base, init, changed), UpdateOf(base, last, changed));
    }
  }

  /** Between topologies that list nothing twice, no operation is previewed twice. */
  lemma PreviewHasNoRepeats(base: Topo, res: Topo)
    requires Distinct(NodeNames(base.nodes)) && Distinct(LinkNames(base.links))
    requires Distinct(NodeNames(res.nodes)) && Distinct(LinkNames(res.links))
    ensures Distinct(Preview(base, res))
  {
    hide Missing, Updates, Incidence, FindNode, NodeNames, LinkNames, NodeSet, LinkSet;
    var changed := CreatedLinks(base, res) + DeletedLinks(base, res);
    MissingDistinct(NodeNames(res.nodes), NodeSet(base.nodes));
    MissingDistinct(NodeNames(base.nodes), NodeSet(res.nodes));
    MissingDistinct(LinkNames(res.links), LinkSet(base.links));
    MissingDistinct(LinkNames(base.links), LinkSet(res.links));
    UpdatesDistinct(base.nodes, res.nodes, changed);
    var nodes, links := CreateNodes(CreatedNodes(base, res)), CreateLinks(CreatedLinks(base, res));
    var gone, removed := DeleteLinks(DeletedLinks(base, res)), DeleteNodes(DeletedNodes(base, res));
    DistinctConcat(nodes, links);
    DistinctConcat(nodes + links, gone);
    DistinctConcat(nodes + links + gone, removed);
    DistinctConcat(nodes + links + gone + removed, Updates(base.nodes, res.nodes, changed));
  }

  // ---------- what survivors are told ----------

  lemma {:induction false} InReloads(nodes: seq<Node>, inBase: set<Name>, oldConf: map<Name, string>, newConf: map<Name, string>, n: Name)
    ensures n in Reloads(nodes, inBase, oldConf, newConf) <==>
            && n in NodeSet(nodes) && n in inBase
            && (n !in oldConf || n !in newConf || oldConf[n] != newConf[n])
  {
    if nodes != [] {
      InReloads(nodes[..|nodes| - 1], inBase, oldConf, newConf, n);
      assert nodes == nodes[..|nodes| - 1] + [nodes[|nodes| - 1]];
      assert nodes[|nodes| - 1] in nodes;
    }
  }

  /** An increment reloads exactly the survivors whose rendered config changed or whose old one cannot be read. */
  lemma ReloadsIff(base: Topo, res: Topo, oldConf: map<Name, string>, newConf: map<Name, string>, reloadNodes: seq<Name>, n: Name)
    requires reloadNodes == Reloads(res.nodes, NodeSet(base.nodes), oldConf, newConf) && ConfigsReadable(base, res, newConf)
    ensures n in reloadNodes <==>
            && n in NodeSet(base.nodes) && n in NodeSet(res.nodes)
            && (n in oldConf ==> oldConf[n] != newConf[n])
  {
    InReloads(res.nodes, NodeSet(base.nodes), oldConf, newConf, n);
  }

  /** The two commands that put an interface into the rack's VLAN, one after the other. */
  ghost predicate AttachesAt(cmds: seq<Command>, k: nat, eth: nat) {
    k + 1 < |cmds| && cmds[k] == SetMaster(eth) && cmds[k + 1] == VlanAdd(eth, 1000)
  }

  /** The links of the list from a device to a server, in order. */
  function ServedBy(links: seq<Link>, n: Name): seq<Link> {
    if links == [] then []
    else
      var l := links[|links| - 1];
      ServedBy(links[..|links| - 1], n) + if l.z.node.ServerName? && l.a.node == n then [l] else []
  }

  lemma {:induction false} InServedBy(links: seq<Link>, n: Name, l: Link)
    ensures l in ServedBy(links, n) <==> l in links && l.z.node.ServerName? && l.a.node == n
  {
    if links != [] {
      InServedBy(links[..|links| - 1], n, l);
      assert links == links[..|links| - 1] + [links[|links| - 1]];
    }
  }

  /** The commands for the links of a list are two for each link to a server, on the device's own interface. */
  ghost predicate AttachesAll(cmds: seq<Command>, served: seq<Link>) {
    |cmds| == 2 * |served| && forall i :: 0 <= i < |served| ==> AttachesAt(cmds, 2 * i, served[i].a.eth)
  }

  lemma {:induction false} ExecAttaches(links: seq<Link>, n: Name)
    requires LinksPlain(Topo([], links))
    ensures AttachesAll(ExecFor(links, n), ServedBy(links, n))
  {
    if links != [] {
      var init, l := links[..|links| - 1], links[|links| - 1];
      assert links == init + [l] && l in links;
      assert forall x :: x in init ==> x in links;
      ExecAttaches(init, n);
    }
  }

  /**
   A survivor is told to attach exactly the new links from it to servers, each on its own interface and in two
   commands; so a new server behind a surviving leaf is attached there. A new device is told nothing.
   */
  lemma NewServersAreAttached(base: Topo, s: Shape, h: Holds, res: Topo, s': Shape, h': Holds,
                              exec: map<Name, seq<Command>>, n: Name, l: Link)
    requires Certified(base, s, h) && Certified(res, s', h')
    requires forall x :: Commands(exec, x) ==
                         if x in NodeSet(base.nodes) then ExecFor(NewLinks(res.links, LinkSet(base.links)), x) else []
    ensures n !in NodeSet(base.nodes) ==> Commands(exec, n) == []
    ensures n in NodeSet(base.nodes) ==>
              AttachesAll(Commands(exec, n), ServedBy(NewLinks(res.links, LinkSet(base.links)), n))
    ensures l in ServedBy(NewLinks(res.links, LinkSet(base.links)), n) <==>
            l in res.links && l.name !in LinkSet(base.links) && l.z.node.ServerName? && l.a.node == n
    ensures l in res.links && l.z.node.ServerName? && l.z.node !in NodeSet(base.nodes) ==> l.name !in LinkSet(base.links)
  {
    hide Certified, NodeSet, LinkSet, LinksPlain, AttachesAll;
    var links := NewLinks(res.links, LinkSet(base.links));
    CertifiedLinksPlain(res, s', h');
    assert LinksPlain(Topo([], links)) by {
      forall x | x in links ensures x in res.links { InNewLinks(res.links, LinkSet(base.links), x); }
      SomeLinksPlain(res, links);
    }
    ExecAttaches(links, n);
    InServedBy(links, n, l);
    InNewLinks(res.links, LinkSet(base.links), l);
    if l in res.links && l.name in LinkSet(base.links) {
      NamesOfLink(res, s', h', l);
      BaseLinkEnds(base, s, h, l.name);
    }
  }

  lemma SomeLinksPlain(t: Topo, links: seq<Link>)
    requires LinksPlain(t) && forall x :: x in links ==> x in t.links
    ensures LinksPlain(Topo([], links))
  {
  }

  lemma BaseLinkEnds(base: Topo, s: Shape, h: Holds, ln: LinkName)
    requires Certified(base, s, h) && ln in LinkSet(base.links)
    ensures ln.a in NodeSet(base.nodes) && ln.z in NodeSet(base.nodes)
  {
    hide NodeSet, LinkSet, HoldsFit, DistinctPods, NodeOf, LinkOf, HasNode;
    LinkSetIs(base.links, ln);
    NodeSetIs(base.nodes, ln.a);
    NodeSetIs(base.nodes, ln.z);
  }

  // ---------- updates ----------

  function AtNode(ls: seq<LinkName>, n: Name): set<LinkName> {
    set ln | ln in ls && (ln.a == n || ln.z == n)
  }

  /** For links with two ends, each listed once, the counter is the number of changed links at the node. */
  lemma {:induction false} IncidenceCounts(ls: seq<LinkName>, n: Name)
    requires Distinct(ls) && forall ln :: ln in ls ==> ln.a != ln.z
    ensures Incidence(ls, n) == |AtNode(ls, n)|
  {
    if ls == [] {
      assert AtNode(ls, n) == {};
    } else {
      hide Distinct, AtNode;
      var init, last := ls[..|ls| - 1], ls[|ls| - 1];
      assert ls == init + [last];
      DistinctAppend(init, last);
      IncidenceCounts(init, n);
      AtNodeNext(init, last, n);
    }
  }

  lemma AtNodeNext(ls: seq<LinkName>, ln: LinkName, n: Name)
    requires ln !in ls
    ensures |AtNode(ls + [ln], n)| == |AtNode(ls, n)| + if ln.a == n || ln.z == n then 1 else 0
  {
    if ln.a == n || ln.z == n {
      assert AtNode(ls + [ln], n) == AtNode(ls, n) + {ln};
    } else {
      assert AtNode(ls + [ln], n) == AtNode(ls, n);
    }
  }

  lemma ChangedAreDistinct(base: Topo, s: Shape, h: Holds, res: Topo, s': Shape, h': Holds)
    requires Certified(base, s, h) && Certified(res, s', h')
    ensures var changed := CreatedLinks(base, res) + DeletedLinks(base, res);
            && Distinct(changed) && forall ln :: ln in changed ==> ln.a != ln.z
  {
    hide NodesCertified, HoldsFit, DistinctPods, LinkOf, Missing, LinkSet, LinkNames, HasNode;
    MissingDistinct(LinkNames(res.links), LinkSet(base.links));
    MissingDistinct(LinkNames(base.links), LinkSet(res.links));
    forall ln | ln in CreatedLinks(base, res) ensures HasLink(s', ln) && ln !in DeletedLinks(base, res) {
      InMissing(LinkNames(res.links), LinkSet(base.links), ln);
      InMissing(LinkNames(base.links), LinkSet(res.links), ln);
      LinkSetIs(res.links, ln);
    }
    forall ln | ln in DeletedLinks(base, res) ensures HasLink(s, ln) {
      InMissing(LinkNames(base.links), LinkSet(res.links), ln);
    }
    DistinctConcat(CreatedLinks(base, res), DeletedLinks(base, res));
  }

  /**
   In a regular plan no survivor's own spec changes: it is updated exactly when some of its links were
   created or deleted, and the preview counts them.
   */
  lemma RegularUpdates(base: Topo, s: Shape, h: Holds, res: Topo, s': Shape, h': Holds, n: Name, k: nat, changed: bool)
    requires Certified(base, s, h) && Certified(res, s', h') && Agree(h, h')
    ensures UpdateNode(n, k, changed) in Preview(base, res) <==>
            && !changed && k > 0 && n in NodeSet(base.nodes) && n in NodeSet(res.nodes)
            && k == |AtNode(CreatedLinks(base, res) + DeletedLinks(base, res), n)|
  {
    hide Certified, Agree, Preview, Incidence, FindNode, CreatedLinks, DeletedLinks, AtNode;
    PreviewIs(base, res, UpdateNode(n, k, changed));
    ChangedAreDistinct(base, s, h, res, s', h');
    IncidenceCounts(CreatedLinks(base, res) + DeletedLinks(base, res), n);
    SurvivorsUnchanged(base, s, h, res, s', h');
    FindNodeIs(base.nodes, n);
    if n in NodeSet(base.nodes) && n in NodeSet(res.nodes) {
      var node :| node in res.nodes && node.name == n;
      assert FindNode(base.nodes, n).value == node;
    }
  }

  /** Rebuilding the deployed spec on what it deployed previews nothing at all. */
  lemma FixpointPreviewsNothing(spec: TopologySpec, base: Topo, s: Shape, h: Holds)
    requires Certified(base, s, h) && Matches(spec, s)
    ensures Rebuild(spec, base).Some? && Preview(base, TopoOf(Rebuild(spec, base).value)) == []
  {
    hide Certified, Matches, Rebuild;
    RebuildReproduces(spec, base, s, h);
    SameRecordsPreviewNothing(base, s, h, TopoOf(Rebuild(spec, base).value));
  }

  lemma SameRecordsPreviewNothing(base: Topo, s: Shape, h: Holds, res: Topo)
    requires Certified(base, s, h) && SameRecords(base, res)
    ensures Preview(base, res) == []
  {
    hide Preview, Incidence, FindNode, CreatedLinks, DeletedLinks, Certified;
    var created, deleted := CreatedLinks(base, res), DeletedLinks(base, res);
    assert NodeSet(base.nodes) == NodeSet(res.nodes) && LinkSet(base.links) == LinkSet(res.links);
    forall ln: LinkName ensures ln !in created + deleted { DifferenceIs(base, res, ln.a, ln); }
    EmptyCounts(created + deleted);
    forall op ensures op !in Preview(base, res) {
      PreviewIs(base, res, op);
      if op.UpdateNode? {
        FindNodeIs(base.nodes, op.n);
        OneNodePerName(base, s, h);
      }
    }
    NoElements(Preview(base, res));
  }

  lemma OneNodePerName(t: Topo, s: Shape, h: Holds)
    requires Certified(t, s, h)
    ensures forall x, y :: x in t.nodes && y in t.nodes && x.name == y.name ==> x == y
  {
  }

  lemma EmptyCounts(ls: seq<LinkName>)
    requires forall ln :: ln !in ls
    ensures forall n :: Incidence(ls, n) == 0
  {
    NoElements(ls);
  }

  /** Between certified topologies only an unreadable rendered config can make the compilation fail. */
  lemma CompilesIffReadable(base: Topo, s: Shape, h: Holds, res: Topo, s': Shape, h': Holds, newConf: map<Name, string>)
    requires Certified(base, s, h) && Certified(res, s', h')
    ensures Stranded(base, res) || !ConfigsReadable(base, res, newConf)
            <==> exists n :: n in NodeSet(base.nodes) && n in NodeSet(res.nodes) && n !in newConf
  {
    hide Certified, Stranded;
    NothingIsStranded(base, s, h, res, s', h');
  }
}
