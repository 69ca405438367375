/** The item sequence of a build has no repetitions, and contains exactly what the shape calls for. */
module ScriptFacts {
  import opened Sequences
  import opened Fabric
  import opened Script

  lemma ItemsAre(s: Shape, x: Item)
    requires DistinctPods(s)
    ensures x in Items(s) <==> HasItem(s, x)
  {
    var supers := Supers(s.supers);
    InCore(s, x);
    InPodsItems(supers, s.pods, x);
    if x in PodsItems(supers, s.pods) {
      var p :| p in s.pods && InPod(supers, p, x);
      PodItemsBelong(s, p, x);
    }
    if HasItem(s, x) && x !in CoreItems(s) {
      var p := PodOfItem(s, x);
      assert InPod(supers, p, x);
    }
  }

  lemma InCore(s: Shape, x: Item)
    ensures x in CoreItems(s) <==>
            HasItem(s, x) && (if x.WireItem? then x.ln.z.EdgeName? || x.ln.z.SuperName? else x.RouterItem? && !x.n.SpineName?)
  {
    hide Routers, Mesh, Externals, Edges, Supers;
    var ext, edges, supers := Externals(s.externals), Edges(s.edges), Supers(s.supers);
    InRouters(ext, x);
    InRouters(edges, x);
    InRouters(supers, x);
    InMesh(ext, edges, x);
    InMesh(edges, supers, x);
    if x.RouterItem? {
      CoreNames(s, x.n);
    } else if x.WireItem? {
      CoreNames(s, x.ln.a);
      CoreNames(s, x.ln.z);
    }
  }

  lemma CoreNames(s: Shape, n: Name)
    ensures n in Externals(s.externals) <==> n.ExternalName? && HasNode(s, n)
    ensures n in Edges(s.edges) <==> n.EdgeName? && HasNode(s, n)
    ensures n in Supers(s.supers) <==> n.SuperName? && HasNode(s, n)
  {
    NamesAre(s.externals, "", 0, n);
    NamesAre(s.edges, "", 0, n);
    NamesAre(s.supers, "", 0, n);
  }

  lemma PodItemsBelong(s: Shape, p: PodShape, x: Item)
    requires p in s.pods && InPod(Supers(s.supers), p, x)
    ensures HasItem(s, x)
  {
    hide Spines, Servers, Supers;
    if x.RouterItem? {
      NamesAre(p.spines, p.name, 0, x.n);
      assert Hosts(p, x.n);
    } else if x.WireItem? {
      WireBelongs(s, p, x.ln);
    }
  }

  lemma WireBelongs(s: Shape, p: PodShape, ln: LinkName)
    requires p in s.pods && InPod(Supers(s.supers), p, WireItem(ln))
    ensures HasLink(s, ln)
  {
    hide Spines, Servers, Supers;
    NamesAre(p.spines, p.name, 0, ln.a);
    NamesAre(p.spines, p.name, 0, ln.z);
    if ln.a in Supers(s.supers) && ln.z in Spines(p.name, p.spines) {
      CoreNames(s, ln.a);
      assert Hosts(p, ln.z);
    } else {
      var r :| r in p.racks && InRack(p.name, r, p.servers, Spines(p.name, p.spines), WireItem(ln));
      NamesAre(p.servers, p.name, r, ln.z);
      assert Hosts(p, ln.z) && Hosts(p, ln.a);
    }
  }

  /** The pod a non-core item belongs to; distinct pod names make it one pod for both ends of a link. */
  lemma PodOfItem(s: Shape, x: Item) returns (p: PodShape)
    requires DistinctPods(s) && HasItem(s, x) && x !in CoreItems(s)
    ensures p in s.pods && InPod(Supers(s.supers), p, x)
  {
    InCore(s, x);
    if x.RouterItem? {
      p :| p in s.pods && Hosts(p, x.n);
      NamesAre(p.spines, p.name, 0, x.n);
    } else if x.RackItem? {
      p :| p in s.pods && p.name == x.pod && x.rack in p.racks && x.servers == p.servers;
      assert InRack(p.name, x.rack, p.servers, Spines(p.name, p.spines), x);
    } else {
      p :| p in s.pods && Hosts(p, x.ln.z);
      WireOfPod(s, p, x.ln);
    }
  }

  lemma WireOfPod(s: Shape, p: PodShape, ln: LinkName)
    requires DistinctPods(s) && HasLink(s, ln) && p in s.pods && Hosts(p, ln.z)
    ensures InPod(Supers(s.supers), p, WireItem(ln))
  {
    var spines := Spines(p.name, p.spines);
    if ln.a.SuperName? {
      CoreNames(s, ln.a);
      NamesAre(p.spines, p.name, 0, ln.z);
    } else {
      if ln.a.SpineName? {
        SamePod(s, p, ln.a);
        NamesAre(p.spines, p.name, 0, ln.a);
      } else if ln.z.ServerName? {
        NamesAre(p.servers, p.name, ln.z.rack, ln.z);
      }
      assert ln.z.rack in p.racks && InRack(p.name, ln.z.rack, p.servers, spines, WireItem(ln));
    }
  }

  lemma SamePod(s: Shape, p: PodShape, n: Name)
    requires DistinctPods(s) && p in s.pods && n.SpineName? && n.pod == p.name && HasNode(s, n)
    ensures Hosts(p, n)
  {
  }

  // ---------- no repetitions ----------

  /** What two different items of a build must not share: a rack is identified by its number alone. */
  function Key(x: Item): Item {
    if x.RackItem? then RackItem("", x.rack, 0) else x
  }

  ghost predicate OneEach(xs: seq<Item>) {
    forall i, j :: 0 <= i < j < |xs| ==> Key(xs[i]) != Key(xs[j])
  }

  ghost predicate Apart(xs: seq<Item>, ys: seq<Item>) {
    forall x, y :: x in xs && y in ys ==> Key(x) != Key(y)
  }

  lemma OneEachConcat(xs: seq<Item>, ys: seq<Item>)
    requires OneEach(xs) && OneEach(ys) && Apart(xs, ys)
    ensures OneEach(xs + ys)
  {
  }

  lemma {:induction false} CoreNamesDiffer(n: nat)
    ensures Distinct(Externals(n)) && Distinct(Edges(n)) && Distinct(Supers(n))
  {
    if n > 0 {
      hide Distinct;
      CoreNamesDiffer(n - 1);
      NamesAre(n - 1, "", 0, ExternalName(n));
      NamesAre(n - 1, "", 0, EdgeName(n));
      NamesAre(n - 1, "", 0, SuperName(n));
      DistinctAppend(Externals(n - 1), ExternalName(n));
      DistinctAppend(Edges(n - 1), EdgeName(n));
      DistinctAppend(Supers(n - 1), SuperName(n));
    } else {
      assert Distinct<Name>([]);
    }
  }

  lemma {:induction false} PodNamesDiffer(n: nat, pod: string, rack: nat)
    ensures Distinct(Spines(pod, n)) && Distinct(Servers(pod, rack, n))
  {
    if n > 0 {
      hide Distinct;
      PodNamesDiffer(n - 1, pod, rack);
      NamesAre(n - 1, pod, rack, SpineName(pod, n));
      NamesAre(n - 1, pod, rack, ServerName(pod, rack, n));
      DistinctAppend(Spines(pod, n - 1), SpineName(pod, n));
      DistinctAppend(Servers(pod, rack, n - 1), ServerName(pod, rack, n));
    } else {
      assert Distinct<Name>([]);
    }
  }

  lemma {:induction false} RoutersDiffer(ns: seq<Name>)
    requires Distinct(ns)
    ensures OneEach(Routers(ns))
  {
    if ns != [] {
      var init, last := ns[..|ns| - 1], ns[|ns| - 1];
      RoutersDiffer(init);
      forall x { InRouters(init, x); }
      assert last !in init;
      OneEachConcat(Routers(init), [RouterItem(last)]);
    }
  }

  lemma {:induction false} RowDiffers(a: Name, zs: seq<Name>)
    requires Distinct(zs)
    ensures OneEach(Row(a, zs))
  {
    if zs != [] {
      var init, last := zs[..|zs| - 1], zs[|zs| - 1];
      RowDiffers(a, init);
      forall x { InRow(a, init, x); }
      assert last !in init;
      OneEachConcat(Row(a, init), [WireItem(LinkName(a, last))]);
    }
  }

  lemma {:induction false} MeshDiffers(xs: seq<Name>, zs: seq<Name>)
    requires Distinct(xs) && Distinct(zs)
    ensures OneEach(Mesh(xs, zs))
  {
    if xs != [] {
      var init, last := xs[..|xs| - 1], xs[|xs| - 1];
      MeshDiffers(init, zs);
      RowDiffers(last, zs);
      forall x { InMesh(init, zs, x); }
      forall x { InRow(last, zs, x); }
      assert last !in init;
      OneEachConcat(Mesh(init, zs), Row(last, zs));
    }
  }

  lemma {:induction false} UplinksDiffer(spines: seq<Name>, pod: string, rack: nat)
    requires Distinct(spines)
    ensures OneEach(Uplinks(spines, pod, rack))
  {
    if spines != [] {
      var init, last := spines[..|spines| - 1], spines[|spines| - 1];
      UplinksDiffer(init, pod, rack);
      forall x { InUplinks(init, pod, rack, x); }
      assert last !in init;
      OneEachConcat(Uplinks(init, pod, rack),
                    [WireItem(LinkName(last, LeafAName(pod, rack))), WireItem(LinkName(last, LeafBName(pod, rack)))]);
    }
  }

  lemma {:induction false} AccessLinksDiffer(pod: string, rack: nat, n: nat)
    ensures OneEach(AccessLinks(pod, rack, n))
  {
    if n > 0 {
      AccessLinksDiffer(pod, rack, n - 1);
      forall x { InAccessLinks(pod, rack, n - 1, x); }
      forall z { NamesAre(n - 1, pod, rack, z); }
      OneEachConcat(AccessLinks(pod, rack, n - 1),
                    [WireItem(LinkName(LeafAName(pod, rack), ServerName(pod, rack, n))),
                     WireItem(LinkName(LeafBName(pod, rack), ServerName(pod, rack, n)))]);
    }
  }

  lemma RackItemsDiffer(pod: string, rack: nat, servers: nat, n: nat)
    ensures OneEach(RackItems(pod, rack, servers, Spines(pod, n)))
  {
    var spines := Spines(pod, n);
    var peer := [WireItem(LinkName(LeafAName(pod, rack), LeafBName(pod, rack)))];
    hide Spines, Servers, Uplinks, AccessLinks;
    PodNamesDiffer(n, pod, rack);
    UplinksDiffer(spines, pod, rack);
    AccessLinksDiffer(pod, rack, servers);
    forall x { InUplinks(spines, pod, rack, x); }
    forall x { InAccessLinks(pod, rack, servers, x); }
    forall a { NamesAre(n, pod, rack, a); }
    forall z { NamesAre(servers, pod, rack, z); }
    OneEachConcat([RackItem(pod, rack, servers)], Uplinks(spines, pod, rack));
    OneEachConcat([RackItem(pod, rack, servers)] + Uplinks(spines, pod, rack), peer);
    OneEachConcat([RackItem(pod, rack, servers)] + Uplinks(spines, pod, rack) + peer, AccessLinks(pod, rack, servers));
  }

  /** Items of two racks differ: each names its rack. */
  function RackOf(x: Item): nat {
    match x
    case RackItem(_, r, _) => r
    case RouterItem(_) => 0
    case WireItem(ln) => if IsLeaf(ln.z) || ln.z.ServerName? then ln.z.rack else 0
  }

  lemma RackItemsCarryRack(pod: string, rack: nat, servers: nat, spines: seq<Name>, x: Item)
    requires x in RackItems(pod, rack, servers, spines)
    ensures RackOf(x) == rack && !x.RouterItem? && (x.WireItem? ==> IsLeaf(x.ln.z) || x.ln.z.ServerName?)
  {
    InRackItems(pod, rack, servers, spines, x);
    if x.WireItem? {
      NamesAre(servers, pod, rack, x.ln.z);
    }
  }

  lemma {:induction false} RacksItemsCarryRack(pod: string, racks: seq<nat>, servers: nat, spines: seq<Name>, x: Item)
    requires x in RacksItems(pod, racks, servers, spines)
    ensures RackOf(x) in racks && !x.RouterItem? && (x.WireItem? ==> IsLeaf(x.ln.z) || x.ln.z.ServerName?)
  {
    var init, last := racks[..|racks| - 1], racks[|racks| - 1];
    if x in RacksItems(pod, init, servers, spines) {
      RacksItemsCarryRack(pod, init, servers, spines, x);
    } else {
      RackItemsCarryRack(pod, last, servers, spines, x);
    }
  }

  lemma {:induction false} RacksItemsDiffer(pod: string, racks: seq<nat>, servers: nat, n: nat)
    requires forall i, j :: 0 <= i < j < |racks| ==> racks[i] < racks[j]
    ensures OneEach(RacksItems(pod, racks, servers, Spines(pod, n)))
  {
    if racks != [] {
      var spines := Spines(pod, n);
      var init, last := racks[..|racks| - 1], racks[|racks| - 1];
      RacksItemsDiffer(pod, init, servers, n);
      RackItemsDiffer(pod, last, servers, n);
      forall x, y | x in RacksItems(pod, init, servers, spines) && y in RackItems(pod, last, servers, spines)
        ensures Key(x) != Key(y)
      {
        RacksItemsCarryRack(pod, init, servers, spines, x);
        RackItemsCarryRack(pod, last, servers, spines, y);
      }
      OneEachConcat(RacksItems(pod, init, servers, spines), RackItems(pod, last, servers, spines));
    }
  }

  lemma PodItemsDiffer(supers: nat, p: PodShape)
    requires forall i, j :: 0 <= i < j < |p.racks| ==> p.racks[i] < p.racks[j]
    ensures OneEach(PodItems(Supers(supers), p))
  {
    hide Routers, Mesh, RacksItems, Spines, Supers, OneEach;
    var spines := Spines(p.name, p.spines);
    PodNamesDiffer(p.spines, p.name, 0);
    CoreNamesDiffer(supers);
    RoutersDiffer(spines);
    MeshDiffers(Supers(supers), spines);
    RacksItemsDiffer(p.name, p.racks, p.servers, p.spines);
    forall x { InRouters(spines, x); }
    forall x { InMesh(Supers(supers), spines, x); }
    OneEachConcat(Routers(spines), Mesh(Supers(supers), spines));
    forall x, y | x in Routers(spines) + Mesh(Supers(supers), spines)
                  && y in RacksItems(p.name, p.racks, p.servers, spines)
      ensures Key(x) != Key(y)
    {
      RacksItemsCarryRack(p.name, p.racks, p.servers, spines, y);
      if x.WireItem? { NamesAre(p.spines, p.name, 0, x.ln.z); }
    }
    OneEachConcat(Routers(spines) + Mesh(Supers(supers), spines), RacksItems(p.name, p.racks, p.servers, spines));
  }

  /** An item of a pod names the pod, or one of its racks. */
  lemma PodItemsCarryPod(supers: nat, p: PodShape, x: Item)
    requires x in PodItems(Supers(supers), p)
    ensures x.RouterItem? ==> x.n.SpineName? && x.n.pod == p.name
    ensures x.RackItem? ==> x.rack in p.racks
    ensures x.WireItem? ==> !x.ln.z.EdgeName? && !x.ln.z.SuperName? && PodOf(x.ln.z) == p.name
  {
    hide PodItems, Spines, Supers, Servers;
    InPodItems(Supers(supers), p, x);
    if x.RouterItem? {
      NamesAre(p.spines, p.name, 0, x.n);
    } else if x.WireItem? {
      NamesAre(p.spines, p.name, 0, x.ln.z);
      forall r | r in p.racks { NamesAre(p.servers, p.name, r, x.ln.z); }
    }
  }

  lemma {:induction false} PodsItemsCarryPod(supers: nat, pods: seq<PodShape>, x: Item)
    returns (p: PodShape)
    requires x in PodsItems(Supers(supers), pods)
    ensures p in pods
    ensures x.RouterItem? ==> x.n.SpineName? && x.n.pod == p.name
    ensures x.RackItem? ==> x.rack in p.racks
    ensures x.WireItem? ==> !x.ln.z.EdgeName? && !x.ln.z.SuperName? && PodOf(x.ln.z) == p.name
  {
    var init, last := pods[..|pods| - 1], pods[|pods| - 1];
    if x in PodsItems(Supers(supers), init) {
      p := PodsItemsCarryPod(supers, init, x);
    } else {
      PodItemsCarryPod(supers, last, x);
      p := last;
    }
  }

  lemma {:induction false} PodsItemsDiffer(s: Shape, k: nat)
    requires DistinctPods(s) && k <= |s.pods|
    ensures OneEach(PodsItems(Supers(s.supers), s.pods[..k]))
  {
    var supers := Supers(s.supers);
    if k > 0 {
      var init, last := s.pods[..k - 1], s.pods[k - 1];
      assert s.pods[..k][..k - 1] == init;
      PodsItemsDiffer(s, k - 1);
      PodItemsDiffer(s.supers, last);
      forall x, y | x in PodsItems(supers, init) && y in PodItems(supers, last)
        ensures Key(x) != Key(y)
      {
        var p := PodsItemsCarryPod(s.supers, init, x);
        PodItemsCarryPod(s.supers, last, y);
      }
      OneEachConcat(PodsItems(supers, init), PodItems(supers, last));
    }
  }

  lemma CoreDiffers(s: Shape)
    ensures OneEach(CoreItems(s))
  {
    var ext, edges, supers := Externals(s.externals), Edges(s.edges), Supers(s.supers);
    CoreNamesDiffer(s.externals);
    CoreNamesDiffer(s.edges);
    CoreNamesDiffer(s.supers);
    RoutersDiffer(ext);
    RoutersDiffer(edges);
    RoutersDiffer(supers);
    MeshDiffers(ext, edges);
    MeshDiffers(edges, supers);
    forall x { InRouters(ext, x); }
    forall x { InRouters(edges, x); }
    forall x { InRouters(supers, x); }
    forall x { InMesh(ext, edges, x); }
    forall x { InMesh(edges, supers, x); }
    forall n { CoreNames(s, n); }
    OneEachConcat(Routers(ext), Routers(edges));
    OneEachConcat(Routers(ext) + Routers(edges), Routers(supers));
    OneEachConcat(Routers(ext) + Routers(edges) + Routers(supers), Mesh(ext, edges));
    OneEachConcat(Routers(ext) + Routers(edges) + Routers(supers) + Mesh(ext, edges), Mesh(edges, supers));
  }

  lemma ItemsDiffer(s: Shape)
    requires DistinctPods(s)
    ensures OneEach(Items(s))
  {
    CoreDiffers(s);
    PodsItemsDiffer(s, |s.pods|);
    assert s.pods[..|s.pods|] == s.pods;
    forall x, y | x in CoreItems(s) && y in PodsItems(Supers(s.supers), s.pods)
      ensures Key(x) != Key(y)
    {
      InCore(s, x);
      var p := PodsItemsCarryPod(s.supers, s.pods, y);
    }
    OneEachConcat(CoreItems(s), PodsItems(Supers(s.supers), s.pods));
  }
}
