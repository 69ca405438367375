/**
 The two readings of a change: the operation list a plan previews, and the increment an apply executes. Both
 are computed here with the loops of the controller, against one notion of difference.
 */
module PlanDiff {
  import opened Wrappers
  import opened Sequences
  import opened Fabric
  import opened Script
  import opened Certification
  import opened RebuildTheorems

  // ---------- differences ----------

  /** The elements not in the given set, in order. */
  function Missing<K>(xs: seq<K>, present: set<K>): seq<K> {
    if xs == [] then []
    else
      var x := xs[|xs| - 1];
      Missing(xs[..|xs| - 1], present) + if x in present then [] else [x]
  }

  lemma {:induction false} InMissing<K>(xs: seq<K>, present: set<K>, x: K)
    ensures x in Missing(xs, present) <==> x in xs && x !in present
  {
    if xs != [] {
      InMissing(xs[..|xs| - 1], present, x);
      assert xs == xs[..|xs| - 1] + [xs[|xs| - 1]];
    }
  }

  lemma {:induction false} MissingDistinct<K>(xs: seq<K>, present: set<K>)
    requires Distinct(xs)
    ensures Distinct(Missing(xs, present))
  {
    if xs != [] {
      var init, last := xs[..|xs| - 1], xs[|xs| - 1];
      assert xs == init + [last];
      DistinctAppend(init, last);
      MissingDistinct(init, present);
      InMissing(init, present, last);
      DistinctAppend(Missing(init, present), last);
    }
  }

  function Elements<K(==)>(xs: seq<K>): set<K> {
    set x | x in xs
  }

  function NodeSet(nodes: seq<Node>): set<Name> {
    set n | n in nodes :: n.name
  }

  function LinkSet(links: seq<Link>): set<LinkName> {
    set l | l in links :: l.name
  }

  lemma NodeSetIs(nodes: seq<Node>, n: Name)
    ensures n in NodeSet(nodes) <==> n in NodeNames(nodes)
  {
    if n in NodeSet(nodes) {
      var node :| node in nodes && node.name == n;
      var i :| 0 <= i < |nodes| && nodes[i] == node;
      assert NodeNames(nodes)[i] == n;
    }
    if n in NodeNames(nodes) {
      var i :| 0 <= i < |nodes| && NodeNames(nodes)[i] == n;
      assert nodes[i] in nodes && nodes[i].name == n;
    }
  }

  lemma LinkSetIs(links: seq<Link>, ln: LinkName)
    ensures ln in LinkSet(links) <==> ln in LinkNames(links)
  {
    if ln in LinkSet(links) {
      var link :| link in links && link.name == ln;
      var i :| 0 <= i < |links| && links[i] == link;
      assert LinkNames(links)[i] == ln;
    }
    if ln in LinkNames(links) {
      var i :| 0 <= i < |links| && LinkNames(links)[i] == ln;
      assert links[i] in links && links[i].name == ln;
    }
  }

  // ---------- the preview ----------

  datatype PlanOp =
    | CreateNode(n: Name)
    | CreateLink(ln: LinkName)
    | DeleteLink(ln: LinkName)
    | DeleteNode(n: Name)
    | UpdateNode(n: Name, linkChanges: nat, specChanged: bool)

  /** How many ends of the listed links are on the node. */
  function Incidence(ls: seq<LinkName>, n: Name): nat {
    if ls == [] then 0
    else
      var ln := ls[|ls| - 1];
      Incidence(ls[..|ls| - 1], n) + (if ln.a == n then 1 else 0) + if ln.z == n then 1 else 0
  }

  function CreateNodes(ns: seq<Name>): seq<PlanOp> {
    seq(|ns|, i requires 0 <= i < |ns| => CreateNode(ns[i]))
  }

  function DeleteNodes(ns: seq<Name>): seq<PlanOp> {
    seq(|ns|, i requires 0 <= i < |ns| => DeleteNode(ns[i]))
  }

  function CreateLinks(ls: seq<LinkName>): seq<PlanOp> {
    seq(|ls|, i requires 0 <= i < |ls| => CreateLink(ls[i]))
  }

  function DeleteLinks(ls: seq<LinkName>): seq<PlanOp> {
    seq(|ls|, i requires 0 <= i < |ls| => DeleteLink(ls[i]))
  }

  /** The base's record of a device; the last one listed if a name repeats, as in a map filled in order. */
  function FindNode(nodes: seq<Node>, n: Name): Option<Node> {
    if nodes == [] then None
    else if nodes[|nodes| - 1].name == n then Some(nodes[|nodes| - 1])
    else FindNode(nodes[..|nodes| - 1], n)
  }

  lemma {:induction false} FindNodeIs(nodes: seq<Node>, n: Name)
    ensures FindNode(nodes, n).Some? <==> n in NodeSet(nodes)
    ensures FindNode(nodes, n).Some? ==> FindNode(nodes, n).value in nodes && FindNode(nodes, n).value.name == n
  {
    if nodes != [] {
      FindNodeIs(nodes[..|nodes| - 1], n);
      assert nodes == nodes[..|nodes| - 1] + [nodes[|nodes| - 1]];
      assert nodes[|nodes| - 1] in nodes;
    }
  }

  function UpdateOf(base: seq<Node>, node: Node, changed: seq<LinkName>): seq<PlanOp> {
    match FindNode(base, node.name)
    case None => []
    case Some(was) =>
      var k := Incidence(changed, node.name);
      if was.spec == node.spec && k == 0 then [] else [UpdateNode(node.name, k, was.spec != node.spec)]
  }

  function Updates(base: seq<Node>, nodes: seq<Node>, changed: seq<LinkName>): seq<PlanOp> {
    if nodes == [] then []
    else Updates(base, nodes[..|nodes| - 1], changed) + UpdateOf(base, nodes[|nodes| - 1], changed)
  }

  function CreatedLinks(base: Topo, res: Topo): seq<LinkName> {
    Missing(LinkNames(res.links), LinkSet(base.links))
  }

  function DeletedLinks(base: Topo, res: Topo): seq<LinkName> {
    Missing(LinkNames(base.links), LinkSet(res.links))
  }

  function CreatedNodes(base: Topo, res: Topo): seq<Name> {
    Missing(NodeNames(res.nodes), NodeSet(base.nodes))
  }

  function DeletedNodes(base: Topo, res: Topo): seq<Name> {
    Missing(NodeNames(base.nodes), NodeSet(res.nodes))
  }

  function Preview(base: Topo, res: Topo): seq<PlanOp> {
    CreateNodes(CreatedNodes(base, res)) + CreateLinks(CreatedLinks(base, res))
    + DeleteLinks(DeletedLinks(base, res)) + DeleteNodes(DeletedNodes(base, res))
    + Updates(base.nodes, res.nodes, CreatedLinks(base, res) + DeletedLinks(base, res))
  }

  lemma MissingNext<K>(xs: seq<K>, present: set<K>, i: nat)
    requires i < |xs|
    ensures Missing(xs[..i + 1], present) == Missing(xs[..i], present) + if xs[i] in present then [] else [xs[i]]
  {
    assert xs[..i + 1][..i] == xs[..i];
  }

  lemma IncidenceNext(ls: seq<LinkName>, ln: LinkName, n: Name)
    ensures Incidence(ls + [ln], n) == Incidence(ls, n) + (if ln.a == n then 1 else 0) + if ln.z == n then 1 else 0
  {
  }

  lemma {:induction false} IncidenceConcat(ls: seq<LinkName>, ms: seq<LinkName>, n: Name)
    ensures Incidence(ls + ms, n) == Incidence(ls, n) + Incidence(ms, n)
  {
    if ms == [] {
      assert ls + ms == ls;
    } else {
      IncidenceConcat(ls, ms[..|ms| - 1], n);
      assert ls + ms == (ls + ms[..|ms| - 1]) + [ms[|ms| - 1]];
      IncidenceNext(ls + ms[..|ms| - 1], ms[|ms| - 1], n);
    }
  }

  function Count(touched: map<Name, nat>, n: Name): nat {
    if n in touched then touched[n] else 0
  }

  /** One end of a changed link counts for its node if that node survives. */
  function Touch(touched: map<Name, nat>, n: Name, survives: bool): map<Name, nat> {
    if survives then touched[n := Count(touched, n) + 1] else touched
  }

  ghost predicate Counted(touched: map<Name, nat>, ls: seq<LinkName>, survivors: set<Name>) {
    forall n :: n in survivors ==> Count(touched, n) == Incidence(ls, n)
  }

  lemma CountedNext(touched: map<Name, nat>, ls: seq<LinkName>, ln: LinkName, a: bool, z: bool, survivors: set<Name>)
    requires Counted(touched, ls, survivors)
    requires (ln.a in survivors ==> a) && (ln.z in survivors ==> z)
    ensures Counted(Touch(Touch(touched, ln.a, a), ln.z, z), ls + [ln], survivors)
  {
  }

  /** `planChanges`: what a plan will create, delete and update. */
  method PlanChanges(base: Topo, res: Topo) returns (ops: seq<PlanOp>)
    ensures ops == Preview(base, res)
  {
    hide Missing, Incidence, Counted, Touch, FindNode;
    var nodeInBase, nodeInRes := NodeSet(base.nodes), NodeSet(res.nodes);
    var linkInBase, linkInRes := LinkSet(base.links), LinkSet(res.links);
    ghost var survivors := nodeInBase * nodeInRes;
    var created, touched: map<Name, nat> := [], map[];
    ghost var names := NodeNames(res.nodes);
    NothingMissing(names, nodeInBase);
    for i := 0 to |res.nodes|
      invariant created == CreateNodes(Missing(names[..i], nodeInBase))
    {
      MissingNext(names, nodeInBase, i);
      if res.nodes[i].name !in nodeInBase {
        created := created + [CreateNode(res.nodes[i].name)];
      }
    }
    assert names[..|names|] == names;
    var newLinks: seq<LinkName>, newOps := [], [];
    names := [];
    ghost var linkNames := LinkNames(res.links);
    NothingMissing(linkNames, linkInBase);
    NothingCounted(survivors);
    for i := 0 to |res.links|
      invariant newLinks == Missing(linkNames[..i], linkInBase) && newOps == CreateLinks(newLinks)
      invariant Counted(touched, newLinks, survivors)
    {
      MissingNext(linkNames, linkInBase, i);
      var ln := res.links[i].name;
      if ln !in linkInBase {
        newOps := newOps + [CreateLink(ln)];
        CountedNext(touched, newLinks, ln, ln.a in nodeInBase, ln.z in nodeInBase, survivors);
        touched := Touch(Touch(touched, ln.a, ln.a in nodeInBase), ln.z, ln.z in nodeInBase);
        newLinks := newLinks + [ln];
      }
    }
    assert linkNames[..|linkNames|] == linkNames;
    var goneLinks: seq<LinkName>, goneOps := [], [];
    linkNames := LinkNames(base.links);
    NothingMissing(linkNames, linkInRes);
    assert newLinks + [] == newLinks;
    for i := 0 to |base.links|
      invariant goneLinks == Missing(linkNames[..i], linkInRes) && goneOps == DeleteLinks(goneLinks)
      invariant Counted(touched, newLinks + goneLinks, survivors)
    {
      MissingNext(linkNames, linkInRes, i);
      var ln := base.links[i].name;
      if ln !in linkInRes {
        goneOps := goneOps + [DeleteLink(ln)];
        var a, z := ln.a in nodeInRes && ln.a in nodeInBase, ln.z in nodeInRes && ln.z in nodeInBase;
        CountedNext(touched, newLinks + goneLinks, ln, a, z, survivors);
        touched := Touch(Touch(touched, ln.a, a), ln.z, z);
        assert newLinks + goneLinks + [ln] == newLinks + (goneLinks + [ln]);
        goneLinks := goneLinks + [ln];
      }
    }
    assert linkNames[..|linkNames|] == linkNames;
    var deleted := [];
    names := NodeNames(base.nodes);
    NothingMissing(names, nodeInRes);
    for i := 0 to |base.nodes|
      invariant deleted == DeleteNodes(Missing(names[..i], nodeInRes))
    {
      MissingNext(names, nodeInRes, i);
      if base.nodes[i].name !in nodeInRes {
        deleted := deleted + [DeleteNode(base.nodes[i].name)];
      }
    }
    assert names[..|names|] == names;
    var updates := [];
    for i := 0 to |res.nodes|
      invariant updates == Updates(base.nodes, res.nodes[..i], newLinks + goneLinks)
    {
      assert res.nodes[..i + 1][..i] == res.nodes[..i];
      var node := res.nodes[i];
      var was := FindNode(base.nodes, node.name);
      FindNodeIs(base.nodes, node.name);
      if was.Some? {
        CountOf(touched, newLinks + goneLinks, survivors, node.name);
        var k := Count(touched, node.name);
        if was.value.spec != node.spec || k != 0 {
          updates := updates + [UpdateNode(node.name, k, was.value.spec != node.spec)];
        }
      }
    }
    assert res.nodes[..|res.nodes|] == res.nodes;
    ops := created + newOps + goneOps + deleted + updates;
  }

  lemma NothingMissing<K>(xs: seq<K>, present: set<K>)
    ensures Missing(xs[..0], present) == []
  {
  }

  lemma NothingCounted(survivors: set<Name>)
    ensures Counted(map[], [], survivors)
  {
  }

  lemma CountOf(touched: map<Name, nat>, ls: seq<LinkName>, survivors: set<Name>, n: Name)
    requires Counted(touched, ls, survivors) && n in survivors
    ensures Count(touched, n) == Incidence(ls, n)
  {
  }

  // ---------- the increment ----------

  datatype Port = Port(node: Name, eth: nat)

  datatype Wire = Wire(a: Port, z: Port)

  /** Delta commands on a surviving leaf: put the port into the VLAN bridge. */
  datatype Command = SetMaster(eth: nat) | VlanAdd(eth: nat, vlan: nat)

  datatype Increment = Increment(
    addNodes: seq<Name>, addLinks: seq<Wire>, nodeExec: map<Name, seq<Command>>,
    reloadNodes: seq<Name>, removeNodes: seq<Name>)

  function WireOf(link: Link): Wire {
    Wire(Port(link.a.node, link.a.eth), Port(link.z.node, link.z.eth))
  }

  function AccessPortAttach(link: Link): seq<Command> {
    [SetMaster(link.a.eth), VlanAdd(link.a.eth, link.vlanId)]
  }

  /** The links the base does not have, in order. */
  function NewLinks(links: seq<Link>, inBase: set<LinkName>): seq<Link> {
    if links == [] then []
    else
      var l := links[|links| - 1];
      NewLinks(links[..|links| - 1], inBase) + if l.name in inBase then [] else [l]
  }

  function WireList(links: seq<Link>): seq<Wire> {
    seq(|links|, i requires 0 <= i < |links| => WireOf(links[i]))
  }

  /** The commands new access ports ask of one surviving leaf. */
  function ExecFor(links: seq<Link>, n: Name): seq<Command> {
    if links == [] then []
    else
      var l := links[|links| - 1];
      ExecFor(links[..|links| - 1], n) + if l.kind == ServerAccess && l.a.node == n then AccessPortAttach(l) else []
  }

  /** A removed link between two survivors, which no container removal would take down. */
  ghost predicate Stranded(base: Topo, res: Topo) {
    exists l :: l in base.links && l.name !in LinkSet(res.links)
      && l.a.node in NodeSet(res.nodes) && l.z.node in NodeSet(res.nodes)
  }

  /** Survivors whose rendered config changed or whose old one cannot be read. */
  function Reloads(nodes: seq<Node>, inBase: set<Name>, oldConf: map<Name, string>, newConf: map<Name, string>): seq<Name> {
    if nodes == [] then []
    else
      var n := nodes[|nodes| - 1].name;
      Reloads(nodes[..|nodes| - 1], inBase, oldConf, newConf)
      + if n in inBase && (n !in oldConf || n !in newConf || oldConf[n] != newConf[n]) then [n] else []
  }

  ghost predicate ConfigsReadable(base: Topo, res: Topo, newConf: map<Name, string>) {
    forall n :: n in NodeSet(res.nodes) && n in NodeSet(base.nodes) ==> n in newConf
  }

  function Commands(exec: map<Name, seq<Command>>, n: Name): seq<Command> {
    if n in exec then exec[n] else []
  }

  ghost predicate ExecFits(exec: map<Name, seq<Command>>, links: seq<Link>, inBase: set<Name>) {
    forall n :: Commands(exec, n) == if n in inBase then ExecFor(links, n) else []
  }

  lemma ExecNext(exec: map<Name, seq<Command>>, links: seq<Link>, l: Link, inBase: set<Name>)
    requires ExecFits(exec, links, inBase)
    ensures var exec' := if l.kind == ServerAccess && l.a.node in inBase
                         then exec[l.a.node := Commands(exec, l.a.node) + AccessPortAttach(l)] else exec;
            ExecFits(exec', links + [l], inBase)
  {
  }

  lemma NewLinksNext(links: seq<Link>, inBase: set<LinkName>, i: nat)
    requires i < |links|
    ensures NewLinks(links[..i + 1], inBase) == NewLinks(links[..i], inBase) + if links[i].name in inBase then [] else [links[i]]
  {
    assert links[..i + 1][..i] == links[..i];
  }

  lemma WireListNext(links: seq<Link>, l: Link)
    ensures WireList(links + [l]) == WireList(links) + [WireOf(l)]
  {
  }

  /** No listed link is gone while both of its ends stay. */
  ghost predicate NoneStranded(links: seq<Link>, newLink: set<LinkName>, newNode: set<Name>) {
    forall l :: l in links ==> l.name in newLink || l.a.node !in newNode || l.z.node !in newNode
  }

  ghost predicate Readable(nodes: seq<Node>, inBase: set<Name>, newConf: map<Name, string>) {
    forall node :: node in nodes && node.name in inBase ==> node.name in newConf
  }

  lemma ReadableIs(base: Topo, res: Topo, newConf: map<Name, string>)
    ensures Readable(res.nodes, NodeSet(base.nodes), newConf) <==> ConfigsReadable(base, res, newConf)
    ensures NoneStranded(base.links, LinkSet(res.links), NodeSet(res.nodes)) <==> !Stranded(base, res)
  {
  }

  lemma SplitAt<T>(xs: seq<T>, i: nat)
    requires i < |xs|
    ensures xs[..i + 1] == xs[..i] + [xs[i]]
  {
  }

  lemma ReloadsNext(nodes: seq<Node>, inBase: set<Name>, oldConf: map<Name, string>, newConf: map<Name, string>, i: nat)
    requires i < |nodes|
    ensures var n := nodes[i].name;
            Reloads(nodes[..i + 1], inBase, oldConf, newConf)
            == Reloads(nodes[..i], inBase, oldConf, newConf)
               + if n in inBase && (n !in oldConf || n !in newConf || oldConf[n] != newConf[n]) then [n] else []
  {
    assert nodes[..i + 1][..i] == nodes[..i];
  }

  /** `buildIncrement`: the diff compiled into what the agent has to do; `None` is an error. */
  method BuildIncrement(base: Topo, res: Topo, oldConf: map<Name, string>, newConf: map<Name, string>)
    returns (result: Option<Increment>)
    ensures result.None? <==> Stranded(base, res) || !ConfigsReadable(base, res, newConf)
    ensures result.Some? ==>
              var inc := result.value;
              && inc.addNodes == CreatedNodes(base, res) && inc.removeNodes == DeletedNodes(base, res)
              && inc.addLinks == WireList(NewLinks(res.links, LinkSet(base.links)))
              && inc.reloadNodes == Reloads(res.nodes, NodeSet(base.nodes), oldConf, newConf)
              && (forall n :: Commands(inc.nodeExec, n) ==
                    if n in NodeSet(base.nodes) then ExecFor(NewLinks(res.links, LinkSet(base.links)), n) else [])
  {
    hide Missing, ExecFits, NewLinks, WireList, Reloads, NodeSet, LinkSet, Stranded, ConfigsReadable;
    var baseNode, newNode := NodeSet(base.nodes), NodeSet(res.nodes);
    var baseLink, newLink := LinkSet(base.links), LinkSet(res.links);
    ReadableIs(base, res, newConf);
    var addNodes, addLinks, removeNodes, reloadNodes := [], [], [], [];
    var nodeExec: map<Name, seq<Command>> := map[];
    ghost var names := NodeNames(res.nodes);
    NothingAdded(names, baseNode, res.links, baseLink, res.nodes, oldConf, newConf);
    for i := 0 to |res.nodes|
      invariant addNodes == Missing(names[..i], baseNode)
    {
      MissingNext(names, baseNode, i);
      if res.nodes[i].name !in baseNode {
        addNodes := addNodes + [res.nodes[i].name];
      }
    }
    assert names[..|names|] == names;
    ghost var added: seq<Link> := [];
    for i := 0 to |res.links|
      invariant added == NewLinks(res.links[..i], baseLink) && addLinks == WireList(added)
      invariant ExecFits(nodeExec, added, baseNode)
    {
      NewLinksNext(res.links, baseLink, i);
      var l := res.links[i];
      if l.name !in baseLink {
        addLinks := addLinks + [WireOf(l)];
        WireListNext(added, l);
        ExecNext(nodeExec, added, l, baseNode);
        if l.kind == ServerAccess && l.a.node in baseNode {
          nodeExec := nodeExec[l.a.node := Commands(nodeExec, l.a.node) + AccessPortAttach(l)];
        }
        added := added + [l];
      }
    }
    assert res.links[..|res.links|] == res.links;
    for i := 0 to |base.links|
      invariant NoneStranded(base.links[..i], newLink, newNode)
    {
      SplitAt(base.links, i);
      var l := base.links[i];
      if l.name !in newLink && l.a.node in newNode && l.z.node in newNode {
        return None;
      }
    }
    assert base.links[..|base.links|] == base.links;
    removeNodes := RemovedNodes(base.nodes, newNode);
    for i := 0 to |res.nodes|
      invariant reloadNodes == Reloads(res.nodes[..i], baseNode, oldConf, newConf)
      invariant Readable(res.nodes[..i], baseNode, newConf)
    {
      SplitAt(res.nodes, i);
      ReloadsNext(res.nodes, baseNode, oldConf, newConf, i);
      var n := res.nodes[i].name;
      if n in baseNode {
        if n !in newConf {
          return None;
        }
        if n !in oldConf || oldConf[n] != newConf[n] {
          reloadNodes := reloadNodes + [n];
        }
      }
    }
    assert res.nodes[..|res.nodes|] == res.nodes;
    ExecIs(nodeExec, added, baseNode);
    return Some(Increment(addNodes, addLinks, nodeExec, reloadNodes, removeNodes));
  }

  method RemovedNodes(nodes: seq<Node>, newNode: set<Name>) returns (removeNodes: seq<Name>)
    ensures removeNodes == Missing(NodeNames(nodes), newNode)
  {
    removeNodes := [];
    ghost var names := NodeNames(nodes);
    for i := 0 to |nodes|
      invariant removeNodes == Missing(names[..i], newNode)
    {
      MissingNext(names, newNode, i);
      if nodes[i].name !in newNode {
        removeNodes := removeNodes + [nodes[i].name];
      }
    }
    assert names[..|names|] == names;
  }

  lemma ExecIs(exec: map<Name, seq<Command>>, links: seq<Link>, inBase: set<Name>)
    requires ExecFits(exec, links, inBase)
    ensures forall n :: Commands(exec, n) == if n in inBase then ExecFor(links, n) else []
  {
  }

  lemma NothingAdded(names: seq<Name>, baseNode: set<Name>, links: seq<Link>, baseLink: set<LinkName>, nodes: seq<Node>,
                     oldConf: map<Name, string>, newConf: map<Name, string>)
    ensures Missing(names[..0], baseNode) == [] && NewLinks(links[..0], baseLink) == [] && WireList([]) == []
    ensures ExecFits(map[], [], baseNode) && Reloads(nodes[..0], baseNode, oldConf, newConf) == []
  {
  }

  // ---------- scope and pruning ----------

  /** `restoreScope`: the devices whose containers a deploy created added. */
  method RestoreScope(base: Option<Topo>, nodes: seq<Node>) returns (scope: seq<Node>)
    ensures base.None? ==> scope == nodes
    ensures base.Some? ==> NodeNames(scope) == Missing(NodeNames(nodes), NodeSet(base.value.nodes))
    ensures forall node :: node in scope ==> node in nodes
  {
    if base.None? {
      return nodes;
    }
    var inBase := NodeSet(base.value.nodes);
    scope := [];
    for i := 0 to |nodes|
      invariant NodeNames(scope) == Missing(NodeNames(nodes)[..i], inBase)
      invariant forall node :: node in scope ==> node in nodes
    {
      MissingNext(NodeNames(nodes), inBase, i);
      if nodes[i].name !in inBase {
        scope := scope + [nodes[i]];
      }
    }
    assert NodeNames(nodes)[..|nodes|] == NodeNames(nodes);
  }

  /** `pruneRemovedResources`: the device and link names whose dependent records go. */
  method RemovedResources(base: Option<Topo>, res: Topo) returns (nodes: set<Name>, links: set<LinkName>)
    ensures base.None? ==> nodes == {} && links == {}
    ensures base.Some? ==>
              && nodes == Elements(DeletedNodes(base.value, res))
              && links == Elements(DeletedLinks(base.value, res))
  {
    nodes, links := {}, {};
    if base.None? {
      return;
    }
    var b := base.value;
    var nodeKept, linkKept := NodeSet(res.nodes), LinkSet(res.links);
    ghost var names, linkNames := NodeNames(b.nodes), LinkNames(b.links);
    for i := 0 to |b.nodes|
      invariant nodes == Elements(Missing(names[..i], nodeKept))
    {
      MissingNext(names, nodeKept, i);
      if b.nodes[i].name !in nodeKept {
        nodes := nodes + {b.nodes[i].name};
      }
    }
    assert names[..|names|] == names;
    for i := 0 to |b.links|
      invariant links == Elements(Missing(linkNames[..i], linkKept))
    {
      MissingNext(linkNames, linkKept, i);
      if b.links[i].name !in linkKept {
        links := links + {b.links[i].name};
      }
    }
    assert linkNames[..|linkNames|] == linkNames;
  }
}
