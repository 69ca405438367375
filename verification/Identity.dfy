/**
 Identity across plans: a rebuilt row whose name is already stored takes over that row's metadata and status in
 place, links follow the identities of their ends, and a rollback resets what it brings back.
 */
module Identity {
  import opened Wrappers
  import opened Sequences
  import opened Fabric
  import opened Generations

  datatype Meta<N> = Meta(id: nat, name: N, phase: Phase, observed: nat)

  datatype NodeRow = NodeRow(meta: Meta<Name>, status: int, spec: NodeSpec)

  datatype LinkRow = LinkRow(meta: Meta<LinkName>, status: int, aId: nat, zId: nat, link: Link)

  // ---------- what carrying over means ----------

  /** What a row is known by: everything but its spec. */
  datatype Tag<N> = Tag(meta: Meta<N>, status: int)

  function NodeTag(r: NodeRow): Tag<Name> {
    Tag(r.meta, r.status)
  }

  function LinkTag(r: LinkRow): Tag<LinkName> {
    Tag(r.meta, r.status)
  }

  function NodeTags(rows: seq<NodeRow>): seq<Tag<Name>> {
    seq(|rows|, i requires 0 <= i < |rows| => NodeTag(rows[i]))
  }

  function LinkTags(rows: seq<LinkRow>): seq<Tag<LinkName>> {
    seq(|rows|, i requires 0 <= i < |rows| => LinkTag(rows[i]))
  }

  /** The stored row of a name; the last one should it be stored twice. */
  ghost predicate StoredAt<N>(cur: seq<Tag<N>>, n: N, k: int) {
    0 <= k < |cur| && cur[k].meta.name == n && forall j :: k < j < |cur| ==> cur[j].meta.name != n
  }

  ghost predicate Stored<N>(cur: seq<Tag<N>>, n: N) {
    exists c :: c in cur && c.meta.name == n
  }

  /** A built row whose name is stored takes over the whole of that row's tag; any other keeps its own. */
  ghost predicate Carries<N>(now: Tag<N>, built: Tag<N>, cur: seq<Tag<N>>) {
    if Stored(cur, built.meta.name) then exists k :: StoredAt(cur, built.meta.name, k) && now == cur[k]
    else now == built
  }

  ghost predicate AllCarry<N>(after: seq<Tag<N>>, built: seq<Tag<N>>, cur: seq<Tag<N>>) {
    |after| == |built| && forall i :: 0 <= i < |built| ==> Carries(after[i], built[i], cur)
  }

  // ---------- the rows found by name ----------

  /** The row a map filled in order holds for a name. */
  function FindRow(rows: seq<NodeRow>, n: Name): Option<NodeRow> {
    if rows == [] then None
    else if rows[|rows| - 1].meta.name == n then Some(rows[|rows| - 1])
    else FindRow(rows[..|rows| - 1], n)
  }

  function FindLinkRow(rows: seq<LinkRow>, n: LinkName): Option<LinkRow> {
    if rows == [] then None
    else if rows[|rows| - 1].meta.name == n then Some(rows[|rows| - 1])
    else FindLinkRow(rows[..|rows| - 1], n)
  }

  lemma {:induction false} FindRowIs(rows: seq<NodeRow>, n: Name)
    ensures FindRow(rows, n).Some? <==> exists r :: r in rows && r.meta.name == n
    ensures FindRow(rows, n).Some? ==> FindRow(rows, n).value in rows && FindRow(rows, n).value.meta.name == n
  {
    if rows != [] {
      FindRowIs(rows[..|rows| - 1], n);
      assert rows == rows[..|rows| - 1] + [rows[|rows| - 1]];
      assert rows[|rows| - 1] in rows;
    }
  }

  lemma {:induction false} FindLinkRowIs(rows: seq<LinkRow>, n: LinkName)
    ensures FindLinkRow(rows, n).Some? <==> exists r :: r in rows && r.meta.name == n
    ensures FindLinkRow(rows, n).Some? ==> FindLinkRow(rows, n).value in rows && FindLinkRow(rows, n).value.meta.name == n
  {
    if rows != [] {
      FindLinkRowIs(rows[..|rows| - 1], n);
      assert rows == rows[..|rows| - 1] + [rows[|rows| - 1]];
      assert rows[|rows| - 1] in rows;
    }
  }

  // ---------- carrying over ----------

  function CarryNode(n: NodeRow, cur: seq<NodeRow>): NodeRow {
    match FindRow(cur, n.meta.name)
    case Some(c) => n.(meta := c.meta, status := c.status)
    case None => n
  }

  function IdNamed(rows: seq<NodeRow>, n: Name): nat {
    match FindRow(rows, n)
    case Some(r) => r.meta.id
    case None => 0
  }

  function CarryLink(l: LinkRow, cur: seq<LinkRow>, nodes: seq<NodeRow>): LinkRow {
    var kept := match FindLinkRow(cur, l.meta.name)
                case Some(c) => l.(meta := c.meta, status := c.status)
                case None => l;
    kept.(aId := IdNamed(nodes, l.link.a.node), zId := IdNamed(nodes, l.link.z.node))
  }

  /** `carryOverIdentity`; the identity map is filled after each row has taken over its stored one. */
  method CarryOverIdentity(nodes: array<NodeRow>, links: array<LinkRow>, curNodes: seq<NodeRow>, curLinks: seq<LinkRow>)
    modifies nodes, links
    ensures forall i :: 0 <= i < nodes.Length ==> nodes[i] == CarryNode(old(nodes[i]), curNodes)
    ensures forall i :: 0 <= i < links.Length ==> links[i] == CarryLink(old(links[i]), curLinks, nodes[..])
    ensures AllCarry(NodeTags(nodes[..]), NodeTags(old(nodes[..])), NodeTags(curNodes))
    ensures AllCarry(LinkTags(links[..]), LinkTags(old(links[..])), LinkTags(curLinks))
    ensures forall i :: 0 <= i < nodes.Length ==> nodes[i].spec == old(nodes[i]).spec
    ensures forall i :: 0 <= i < links.Length ==> links[i].link == old(links[i]).link
  {
    hide FindRow, FindLinkRow, AllCarry;
    var idByName: map<Name, nat> := map[];
    NoRow();
    for i := 0 to nodes.Length
      invariant forall j :: 0 <= j < i ==> nodes[j] == CarryNode(old(nodes[j]), curNodes)
      invariant forall j :: i <= j < nodes.Length ==> nodes[j] == old(nodes[j])
      invariant links[..] == old(links[..])
      invariant forall n :: (if n in idByName then idByName[n] else 0) == IdNamed(nodes[..i], n)
    {
      ghost var done := nodes[..i];
      nodes[i] := CarryNode(nodes[i], curNodes);
      idByName := idByName[nodes[i].meta.name := nodes[i].meta.id];
      assert nodes[..i + 1] == done + [nodes[i]];
      IdNext(done, nodes[i]);
    }
    assert nodes[..nodes.Length] == nodes[..];
    ghost var carried := nodes[..];
    for i := 0 to links.Length
      invariant nodes[..] == carried
      invariant forall j :: 0 <= j < i ==> links[j] == CarryLink(old(links[j]), curLinks, carried)
      invariant forall j :: i <= j < links.Length ==> links[j] == old(links[j])
    {
      var l := links[i];
      var found := FindLinkRow(curLinks, l.meta.name);
      if found.Some? {
        l := l.(meta := found.value.meta, status := found.value.status);
      }
      var a, z := l.link.a.node, l.link.z.node;
      links[i] := l.(aId := if a in idByName then idByName[a] else 0, zId := if z in idByName then idByName[z] else 0);
    }
    NodesCarry(nodes[..], old(nodes[..]), curNodes);
    LinksCarry(links[..], old(links[..]), curLinks, carried);
  }

  lemma NodesCarry(after: seq<NodeRow>, built: seq<NodeRow>, cur: seq<NodeRow>)
    requires |after| == |built| && forall i :: 0 <= i < |built| ==> after[i] == CarryNode(built[i], cur)
    ensures AllCarry(NodeTags(after), NodeTags(built), NodeTags(cur))
  {
    hide Carries, CarryNode;
    forall i | 0 <= i < |built| ensures Carries(NodeTags(after)[i], NodeTags(built)[i], NodeTags(cur)) {
      NodeCarries(built[i], cur);
    }
  }

  lemma LinksCarry(after: seq<LinkRow>, built: seq<LinkRow>, cur: seq<LinkRow>, nodes: seq<NodeRow>)
    requires |after| == |built| && forall i :: 0 <= i < |built| ==> after[i] == CarryLink(built[i], cur, nodes)
    ensures AllCarry(LinkTags(after), LinkTags(built), LinkTags(cur))
  {
    hide Carries, CarryLink;
    forall i | 0 <= i < |built| ensures Carries(LinkTags(after)[i], LinkTags(built)[i], LinkTags(cur)) {
      LinkCarries(built[i], cur, nodes);
    }
  }

  lemma NodeCarries(n: NodeRow, cur: seq<NodeRow>)
    ensures Carries(NodeTag(CarryNode(n, cur)), NodeTag(n), NodeTags(cur))
  {
    hide FindRow;
    var found, tags := FindRow(cur, n.meta.name), NodeTags(cur);
    FindRowLast(cur, n.meta.name);
    if found.Some? {
      var k :| StoredAt(tags, n.meta.name, k) && cur[k] == found.value;
      assert tags[k] == NodeTag(found.value);
      assert tags[k] in tags && tags[k].meta.name == n.meta.name by { StoredName(tags, n.meta.name, k); }
    }
  }

  lemma StoredName<N>(cur: seq<Tag<N>>, n: N, k: int)
    requires StoredAt(cur, n, k)
    ensures 0 <= k < |cur| && cur[k].meta.name == n
  {
  }

  lemma {:induction false} FindRowLast(rows: seq<NodeRow>, n: Name)
    ensures FindRow(rows, n).Some? ==> exists k :: StoredAt(NodeTags(rows), n, k) && rows[k] == FindRow(rows, n).value
    ensures FindRow(rows, n).None? ==> !Stored(NodeTags(rows), n)
  {
    if rows != [] {
      var init, last := rows[..|rows| - 1], rows[|rows| - 1];
      FindRowLast(init, n);
      assert NodeTags(rows) == NodeTags(init) + [NodeTag(last)];
      if last.meta.name == n {
        assert StoredAt(NodeTags(rows), n, |init|);
      } else if FindRow(init, n).Some? {
        var k :| StoredAt(NodeTags(init), n, k) && init[k] == FindRow(init, n).value;
        assert StoredAt(NodeTags(rows), n, k) && rows[k] == init[k];
      }
    }
  }

  lemma LinkCarries(l: LinkRow, cur: seq<LinkRow>, nodes: seq<NodeRow>)
    ensures Carries(LinkTag(CarryLink(l, cur, nodes)), LinkTag(l), LinkTags(cur))
  {
    hide FindLinkRow, FindRow;
    var found, tags := FindLinkRow(cur, l.meta.name), LinkTags(cur);
    FindLinkRowLast(cur, l.meta.name);
    if found.Some? {
      var k :| StoredAt(tags, l.meta.name, k) && cur[k] == found.value;
      assert tags[k] == LinkTag(found.value);
      assert tags[k] in tags && tags[k].meta.name == l.meta.name by { StoredName(tags, l.meta.name, k); }
    }
  }

  lemma {:induction false} FindLinkRowLast(rows: seq<LinkRow>, n: LinkName)
    ensures FindLinkRow(rows, n).Some? ==> exists k :: StoredAt(LinkTags(rows), n, k) && rows[k] == FindLinkRow(rows, n).value
    ensures FindLinkRow(rows, n).None? ==> !Stored(LinkTags(rows), n)
  {
    if rows != [] {
      var init, last := rows[..|rows| - 1], rows[|rows| - 1];
      FindLinkRowLast(init, n);
      assert LinkTags(rows) == LinkTags(init) + [LinkTag(last)];
      if last.meta.name == n {
        assert StoredAt(LinkTags(rows), n, |init|);
      } else if FindLinkRow(init, n).Some? {
        var k :| StoredAt(LinkTags(init), n, k) && init[k] == FindLinkRow(init, n).value;
        assert StoredAt(LinkTags(rows), n, k) && rows[k] == init[k];
      }
    }
  }

  lemma NoRow()
    ensures forall n :: FindRow([], n) == None
  {
  }

  lemma IdNext(rows: seq<NodeRow>, r: NodeRow)
    ensures forall n :: IdNamed(rows + [r], n) == if n == r.meta.name then r.meta.id else IdNamed(rows, n)
  {
  }

  // ---------- what it promises ----------

  ghost predicate OneRowPerName(rows: seq<NodeRow>) {
    forall i, j :: 0 <= i < j < |rows| ==> rows[i].meta.name != rows[j].meta.name
  }

  ghost predicate IdsDiffer(rows: seq<NodeRow>) {
    forall i, j :: 0 <= i < j < |rows| ==> rows[i].meta.id != rows[j].meta.id
  }

  ghost predicate CarriedFrom(after: seq<NodeRow>, built: seq<NodeRow>, cur: seq<NodeRow>) {
    |after| == |built| && forall i :: 0 <= i < |built| ==> after[i] == CarryNode(built[i], cur)
  }

  /** The built spec and name always stay; the identity is the stored one exactly when the name is stored. */
  lemma CarriedRow(n: NodeRow, cur: seq<NodeRow>)
    requires forall c :: c in cur ==> c.meta.id != n.meta.id
    ensures var m := CarryNode(n, cur);
            && m.spec == n.spec && m.meta.name == n.meta.name
            && (m.meta.id != n.meta.id <==> exists c :: c in cur && c.meta.name == n.meta.name)
  {
    FindRowIs(cur, n.meta.name);
  }

  /** Identities stay distinct when the stored ones are and the built ones are new. */
  lemma CarriedIdsDiffer(after: seq<NodeRow>, built: seq<NodeRow>, cur: seq<NodeRow>)
    requires CarriedFrom(after, built, cur) && OneRowPerName(built) && IdsDiffer(built)
    requires OneRowPerName(cur) && IdsDiffer(cur)
    requires forall n, c :: n in built && c in cur ==> n.meta.id != c.meta.id
    ensures OneRowPerName(after) && IdsDiffer(after)
  {
    hide FindRow;
    forall i: nat, j: nat | i < j < |after|
      ensures after[i].meta.name != after[j].meta.name && after[i].meta.id != after[j].meta.id
    {
      FindRowIs(cur, built[i].meta.name);
      FindRowIs(cur, built[j].meta.name);
      assert built[i] in built && built[j] in built;
      if FindRow(cur, built[i].meta.name).Some? && FindRow(cur, built[j].meta.name).Some? {
        var x, y := FindRow(cur, built[i].meta.name).value, FindRow(cur, built[j].meta.name).value;
        var k :| 0 <= k < |cur| && cur[k] == x;
        var l :| 0 <= l < |cur| && cur[l] == y;
        assert k != l;
        if k < l { assert cur[k].meta.id != cur[l].meta.id; } else { assert cur[l].meta.id != cur[k].meta.id; }
      }
    }
  }

  // The same for links, and in one form for both kinds of row.

  ghost predicate NamesDiffer<N>(tags: seq<Tag<N>>) {
    forall i, j :: 0 <= i < j < |tags| ==> tags[i].meta.name != tags[j].meta.name
  }

  ghost predicate TagIdsDiffer<N>(tags: seq<Tag<N>>) {
    forall i, j :: 0 <= i < j < |tags| ==> tags[i].meta.id != tags[j].meta.id
  }

  /** A carried row keeps its name, and its identity changes exactly when the name is stored. */
  lemma CarriedTag<N>(now: Tag<N>, built: Tag<N>, cur: seq<Tag<N>>)
    requires Carries(now, built, cur) && forall c :: c in cur ==> c.meta.id != built.meta.id
    ensures now.meta.name == built.meta.name
    ensures now.meta.id != built.meta.id <==> Stored(cur, built.meta.name)
    ensures Stored(cur, built.meta.name) ==> now in cur
  {
  }

  /** Links, too: the built link stays, and its identity, phase and status are the stored ones exactly when its name is. */
  lemma CarriedLink(after: seq<LinkRow>, built: seq<LinkRow>, cur: seq<LinkRow>, i: nat)
    requires AllCarry(LinkTags(after), LinkTags(built), LinkTags(cur)) && i < |built| == |after|
    requires forall c :: c in cur ==> c.meta.id != built[i].meta.id
    ensures after[i].meta.name == built[i].meta.name
    ensures after[i].meta.id != built[i].meta.id <==> exists c :: c in cur && c.meta.name == built[i].meta.name
    ensures if exists c :: c in cur && c.meta.name == built[i].meta.name
            then exists c :: c in cur && c.meta.name == built[i].meta.name && after[i].meta == c.meta && after[i].status == c.status
            else after[i].meta == built[i].meta && after[i].status == built[i].status
  {
    hide Carries, Stored;
    LinkTagsAre(cur, built[i].meta.name);
    assert LinkTags(after)[i] == LinkTag(after[i]) && LinkTags(built)[i] == LinkTag(built[i]);
    CarriedTag(LinkTag(after[i]), LinkTag(built[i]), LinkTags(cur));
    if !Stored(LinkTags(cur), built[i].meta.name) { NotStored(LinkTag(after[i]), LinkTag(built[i]), LinkTags(cur)); }
  }

  lemma NotStored<N>(now: Tag<N>, built: Tag<N>, cur: seq<Tag<N>>)
    requires Carries(now, built, cur) && !Stored(cur, built.meta.name)
    ensures now == built
  {
  }

  lemma LinkTagsAre(rows: seq<LinkRow>, n: LinkName)
    ensures Stored(LinkTags(rows), n) <==> exists r :: r in rows && r.meta.name == n
    ensures forall t :: t in LinkTags(rows) <==> exists r :: r in rows && LinkTag(r) == t
  {
    forall t ensures t in LinkTags(rows) <==> exists r :: r in rows && LinkTag(r) == t {
      if r :| r in rows && LinkTag(r) == t {
        var i :| 0 <= i < |rows| && rows[i] == r;
        assert LinkTags(rows)[i] == t;
      }
    }
    if r :| r in rows && r.meta.name == n { assert LinkTag(r) in LinkTags(rows); }
  }

  /** Identities stay distinct when the stored ones are and the built ones are new. */
  lemma CarriedTagsDiffer<N>(after: seq<Tag<N>>, built: seq<Tag<N>>, cur: seq<Tag<N>>)
    requires AllCarry(after, built, cur) && NamesDiffer(built) && TagIdsDiffer(built) && NamesDiffer(cur) && TagIdsDiffer(cur)
    requires forall b, c :: b in built && c in cur ==> b.meta.id != c.meta.id
    ensures NamesDiffer(after) && TagIdsDiffer(after)
  {
    hide Carries;
    forall i: nat, j: nat | i < j < |after|
      ensures after[i].meta.name != after[j].meta.name && after[i].meta.id != after[j].meta.id
    {
      assert built[i] in built && built[j] in built;
      CarriedTag(after[i], built[i], cur);
      CarriedTag(after[j], built[j], cur);
      if Stored(cur, built[i].meta.name) && Stored(cur, built[j].meta.name) {
        var k :| 0 <= k < |cur| && cur[k] == after[i];
        var l :| 0 <= l < |cur| && cur[l] == after[j];
      } else if !Stored(cur, built[i].meta.name) && !Stored(cur, built[j].meta.name) {
        NotStored(after[i], built[i], cur);
        NotStored(after[j], built[j], cur);
      } else if !Stored(cur, built[i].meta.name) {
        NotStored(after[i], built[i], cur);
      } else {
        NotStored(after[j], built[j], cur);
      }
    }
  }

  lemma CarriedLinkIdsDiffer(after: seq<LinkRow>, built: seq<LinkRow>, cur: seq<LinkRow>)
    requires AllCarry(LinkTags(after), LinkTags(built), LinkTags(cur))
    requires NamesDiffer(LinkTags(built)) && TagIdsDiffer(LinkTags(built))
    requires NamesDiffer(LinkTags(cur)) && TagIdsDiffer(LinkTags(cur))
    requires forall b, c :: b in built && c in cur ==> b.meta.id != c.meta.id
    ensures forall i, j :: 0 <= i < j < |after| ==> after[i].meta.name != after[j].meta.name && after[i].meta.id != after[j].meta.id
  {
    hide Carries, AllCarry, Stored;
    LinkTagsAre(built, LinkName(ExternalName(0), ExternalName(0)));
    LinkTagsAre(cur, LinkName(ExternalName(0), ExternalName(0)));
    CarriedTagsDiffer(LinkTags(after), LinkTags(built), LinkTags(cur));
    forall i, j | 0 <= i < j < |after|
      ensures after[i].meta.name != after[j].meta.name && after[i].meta.id != after[j].meta.id
    {
      assert LinkTags(after)[i].meta != LinkTags(after)[j].meta;
    }
  }

  /** Over two plans a stored identity survives if and only if the first of them still had the name. */
  lemma TagThroughTwoPlans<N>(cur: seq<Tag<N>>, built1: seq<Tag<N>>, rows1: seq<Tag<N>>, built: Tag<N>, now: Tag<N>, k: int)
    requires AllCarry(rows1, built1, cur) && Carries(now, built, rows1) && StoredAt(cur, built.meta.name, k)
    requires forall c :: c in cur + rows1 ==> c.meta.id != built.meta.id
    ensures now.meta.id == cur[k].meta.id <==> Stored(built1, built.meta.name)
    ensures Stored(built1, built.meta.name) ==> now == cur[k]
  {
    var n := built.meta.name;
    hide Carries, StoredAt;
    StoredName(cur, n, k);
    assert cur[k] in cur && cur[k] in cur + rows1;
    NamesCarriedTag(rows1, built1, cur, n);
    if Stored(rows1, n) {
      var l := WhereStored(now, built, rows1);
      assert rows1[l] in rows1 && rows1[l].meta.name == n by { StoredName(rows1, n, l); }
      SameStored(rows1[l], built1[l], cur, n, k);
    } else {
      NotStored(now, built, rows1);
    }
  }

  lemma WhereStored<N>(now: Tag<N>, built: Tag<N>, cur: seq<Tag<N>>) returns (k: int)
    requires Carries(now, built, cur) && Stored(cur, built.meta.name)
    ensures StoredAt(cur, built.meta.name, k) && now == cur[k]
  {
    k :| StoredAt(cur, built.meta.name, k) && now == cur[k];
  }

  lemma SameStored<N>(now: Tag<N>, built: Tag<N>, cur: seq<Tag<N>>, n: N, k: int)
    requires Carries(now, built, cur) && now.meta.name == n && StoredAt(cur, n, k)
    ensures now == cur[k]
  {
  }

  lemma NamesCarriedTag<N>(after: seq<Tag<N>>, built: seq<Tag<N>>, cur: seq<Tag<N>>, n: N)
    requires AllCarry(after, built, cur)
    ensures Stored(after, n) <==> Stored(built, n)
  {
    forall i | 0 <= i < |built| ensures after[i].meta.name == built[i].meta.name {
      assert Carries(after[i], built[i], cur);
    }
    hide Carries;
    if t :| t in after && t.meta.name == n {
      var i :| 0 <= i < |after| && after[i] == t;
      assert built[i] in built;
    }
    if t :| t in built && t.meta.name == n {
      var i :| 0 <= i < |built| && built[i] == t;
      assert after[i] in after;
    }
  }

  /** The same of links: dropped by one plan, even one never applied, a link comes back under a new identity. */
  lemma LinkIdentityThroughTwoPlans(cur: seq<LinkRow>, built1: seq<LinkRow>, rows1: seq<LinkRow>, built: LinkRow, now: LinkRow, k: nat)
    requires AllCarry(LinkTags(rows1), LinkTags(built1), LinkTags(cur)) && Carries(LinkTag(now), LinkTag(built), LinkTags(rows1))
    requires k < |cur| && cur[k].meta.name == built.meta.name && NamesDiffer(LinkTags(cur))
    requires forall c :: c in cur || c in rows1 ==> c.meta.id != built.meta.id
    ensures now.meta.id == cur[k].meta.id <==> exists b :: b in built1 && b.meta.name == built.meta.name
    ensures (exists b :: b in built1 && b.meta.name == built.meta.name) ==> now.meta == cur[k].meta && now.status == cur[k].status
  {
    hide Carries, AllCarry, Stored;
    var tags := LinkTags(cur);
    assert StoredAt(tags, built.meta.name, k) by {
      assert tags[k] == LinkTag(cur[k]);
      forall j | k < j < |tags| ensures tags[j].meta.name != built.meta.name { assert tags[k].meta.name != tags[j].meta.name; }
    }
    LinkTagsAre(built1, built.meta.name);
    LinkTagsAre(cur, built.meta.name);
    LinkTagsAre(rows1, built.meta.name);
    TagThroughTwoPlans(tags, LinkTags(built1), LinkTags(rows1), LinkTag(built), LinkTag(now), k);
  }

  /** Each end of a link names the identity its device ended up with. */
  lemma EndsFollow(l: LinkRow, cur: seq<LinkRow>, nodes: seq<NodeRow>, r: NodeRow)
    requires OneRowPerName(nodes) && r in nodes
    ensures r.meta.name == l.link.a.node ==> CarryLink(l, cur, nodes).aId == r.meta.id
    ensures r.meta.name == l.link.z.node ==> CarryLink(l, cur, nodes).zId == r.meta.id
    ensures CarryLink(l, cur, nodes).link == l.link
  {
    hide FindRow, FindLinkRow;
    FindRowIs(nodes, l.link.a.node);
    FindRowIs(nodes, l.link.z.node);
    var i :| 0 <= i < |nodes| && nodes[i] == r;
    forall x | x in nodes && x.meta.name == r.meta.name ensures x == r {
      var j :| 0 <= j < |nodes| && nodes[j] == x;
    }
  }

  /**
   Identity survives as long as the name stays desired from plan to plan; once a plan drops it, even one never
   applied, bringing it back gives it the new identity.
   */
  lemma IdentityThroughTwoPlans(n: NodeRow, rows0: seq<NodeRow>, rows1: seq<NodeRow>, built1: seq<NodeRow>)
    requires CarriedFrom(rows1, built1, rows0) && OneRowPerName(built1) && n.meta.name in RowNames(rows0)
    requires forall c :: c in rows0 + rows1 ==> c.meta.id != n.meta.id
    ensures var kept := FindRow(rows0, n.meta.name);
            && kept.Some?
            && (CarryNode(n, rows1).meta.id == kept.value.meta.id <==> n.meta.name in RowNames(built1))
  {
    hide FindRow;
    FindRowIs(rows0, n.meta.name);
    FindRowIs(rows1, n.meta.name);
    NamesCarried(rows1, built1, rows0);
    assert forall r :: r in rows0 || r in rows1 ==> r in rows0 + rows1;
    if n.meta.name in RowNames(built1) {
      var b :| b in built1 && b.meta.name == n.meta.name;
      var i :| 0 <= i < |built1| && built1[i] == b;
      assert rows1[i] in rows1 && rows1[i].meta == FindRow(rows0, n.meta.name).value.meta;
      var r := FindRow(rows1, n.meta.name).value;
      var j :| 0 <= j < |rows1| && rows1[j] == r;
      FindRowIs(rows0, built1[j].meta.name);
      assert i == j;
    }
  }

  lemma NamesCarried(after: seq<NodeRow>, built: seq<NodeRow>, cur: seq<NodeRow>)
    requires CarriedFrom(after, built, cur)
    ensures RowNames(after) == RowNames(built)
  {
    hide FindRow;
    forall i | 0 <= i < |built| ensures after[i].meta.name == built[i].meta.name {
      FindRowIs(cur, built[i].meta.name);
    }
    forall n ensures n in RowNames(after) <==> n in RowNames(built) {
      if r :| r in after && r.meta.name == n {
        var i :| 0 <= i < |after| && after[i] == r;
        assert built[i] in built;
      }
      if r :| r in built && r.meta.name == n {
        var i :| 0 <= i < |built| && built[i] == r;
        assert after[i] in after;
      }
    }
  }

  function RowNames(rows: seq<NodeRow>): set<Name> {
    set r | r in rows :: r.meta.name
  }

  // ---------- what a rollback brings back ----------

  function ResetNode(n: NodeRow, cur: seq<NodeRow>): NodeRow {
    if FindRow(cur, n.meta.name).Some? then n
    else n.(meta := n.meta.(phase := PhasePending, observed := 0), status := 0)
  }

  /** `resetReAddedResources`, on the nodes: what is not stored starts over, under its snapshot's identity. */
  method ResetReAddedNodes(nodes: array<NodeRow>, cur: seq<NodeRow>)
    modifies nodes
    ensures forall i :: 0 <= i < nodes.Length ==> nodes[i] == ResetNode(old(nodes[i]), cur)
  {
    hide FindRow;
    for i := 0 to nodes.Length
      invariant forall j :: 0 <= j < i ==> nodes[j] == ResetNode(old(nodes[j]), cur)
      invariant forall j :: i <= j < nodes.Length ==> nodes[j] == old(nodes[j])
    {
      FindRowIs(cur, nodes[i].meta.name);
      if nodes[i].meta.name !in RowNames(cur) {
        nodes[i] := nodes[i].(meta := nodes[i].meta.(phase := PhasePending, observed := 0), status := 0);
      }
    }
  }

  /** Carrying over and then resetting keeps the snapshot's identity of whatever comes back, and nothing else of it. */
  lemma BroughtBackStartsOver(n: NodeRow, cur: seq<NodeRow>)
    ensures var m := ResetNode(CarryNode(n, cur), cur);
            if n.meta.name in RowNames(cur) then exists c :: c in cur && m == NodeRow(c.meta, c.status, n.spec)
            else m == NodeRow(Meta(n.meta.id, n.meta.name, PhasePending, 0), 0, n.spec)
  {
    hide FindRow;
    FindRowIs(cur, n.meta.name);
    if n.meta.name in RowNames(cur) {
      var c := FindRow(cur, n.meta.name).value;
      assert c in cur && CarryNode(n, cur) == NodeRow(c.meta, c.status, n.spec);
    }
  }

  function LinkRowNames(rows: seq<LinkRow>): set<LinkName> {
    set r | r in rows :: r.meta.name
  }

  /** `resetReAddedResources`, on the links. */
  method ResetReAddedLinks(links: array<LinkRow>, cur: seq<LinkRow>)
    modifies links
    ensures forall i :: 0 <= i < links.Length ==>
              var was := old(links[i]);
              if exists c :: c in cur && c.meta.name == was.meta.name then links[i] == was
              else
                && links[i].meta == Meta(was.meta.id, was.meta.name, PhasePending, 0) && links[i].status == 0
                && links[i].link == was.link && links[i].aId == was.aId && links[i].zId == was.zId
  {
    for i := 0 to links.Length
      invariant forall j :: i <= j < links.Length ==> links[j] == old(links[j])
      invariant forall j :: 0 <= j < i ==>
                  var was := old(links[j]);
                  if exists c :: c in cur && c.meta.name == was.meta.name then links[j] == was
                  else
                    && links[j].meta == Meta(was.meta.id, was.meta.name, PhasePending, 0) && links[j].status == 0
                    && links[j].link == was.link && links[j].aId == was.aId && links[j].zId == was.zId
    {
      if links[i].meta.name !in LinkRowNames(cur) {
        links[i] := links[i].(meta := links[i].meta.(phase := PhasePending, observed := 0), status := 0);
      }
    }
  }
}
