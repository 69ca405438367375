/**
 The order in which a build visits its devices and links, as one sequence of items, and what that
 sequence contains: every device of the shape once, and every link the tier adjacency asks for once.
 */
module Script {
  import opened Fabric

  /** A pod with its racks' global numbers already settled, in slot order. */
  datatype PodShape = PodShape(name: string, spines: nat, racks: seq<nat>, servers: nat)

  datatype Shape = Shape(externals: nat, edges: nat, supers: nat, pods: seq<PodShape>)

  datatype Item = RouterItem(n: Name) | RackItem(pod: string, rack: nat, servers: nat) | WireItem(ln: LinkName)

  /** The devices of one pod. */
  predicate Hosts(p: PodShape, n: Name) {
    match n
    case SpineName(pod, i) => p.name == pod && 1 <= i <= p.spines
    case LeafAName(pod, rack) => p.name == pod && rack in p.racks
    case LeafBName(pod, rack) => p.name == pod && rack in p.racks
    case ServerName(pod, rack, i) => p.name == pod && rack in p.racks && 1 <= i <= p.servers
    case _ => false
  }

  predicate HasNode(s: Shape, n: Name) {
    match n
    case ExternalName(i) => 1 <= i <= s.externals
    case EdgeName(i) => 1 <= i <= s.edges
    case SuperName(i) => 1 <= i <= s.supers
    case _ => exists p :: p in s.pods && Hosts(p, n)
  }

  /** The links of a shape: exactly the adjacency induced on its devices. */
  predicate HasLink(s: Shape, ln: LinkName) {
    Adjacent(ln) && HasNode(s, ln.a) && HasNode(s, ln.z)
  }

  predicate HasItem(s: Shape, x: Item) {
    match x
    case RouterItem(n) => IsRouter(n) && HasNode(s, n)
    case RackItem(pod, rack, servers) =>
      exists p :: p in s.pods && p.name == pod && rack in p.racks && servers == p.servers
    case WireItem(ln) => HasLink(s, ln)
  }

  /** Pod names are distinct and a rack number is used once in the whole lab. */
  ghost predicate DistinctPods(s: Shape) {
    && (forall k, l :: 0 <= k < l < |s.pods| ==> s.pods[k].name != s.pods[l].name)
    && (forall k, i, j :: 0 <= k < |s.pods| && 0 <= i < j < |s.pods[k].racks| ==>
          s.pods[k].racks[i] < s.pods[k].racks[j])
    && (forall k, l, r :: 0 <= k < l < |s.pods| && r in s.pods[k].racks ==> r !in s.pods[l].racks)
  }

  // ---------- the loops of a build ----------

  function Externals(n: nat): seq<Name> {
    if n == 0 then [] else Externals(n - 1) + [ExternalName(n)]
  }

  function Edges(n: nat): seq<Name> {
    if n == 0 then [] else Edges(n - 1) + [EdgeName(n)]
  }

  function Supers(n: nat): seq<Name> {
    if n == 0 then [] else Supers(n - 1) + [SuperName(n)]
  }

  function Spines(pod: string, n: nat): seq<Name> {
    if n == 0 then [] else Spines(pod, n - 1) + [SpineName(pod, n)]
  }

  function Servers(pod: string, rack: nat, n: nat): seq<Name> {
    if n == 0 then [] else Servers(pod, rack, n - 1) + [ServerName(pod, rack, n)]
  }

  function Routers(ns: seq<Name>): seq<Item> {
    if ns == [] then [] else Routers(ns[..|ns| - 1]) + [RouterItem(ns[|ns| - 1])]
  }

  function Row(a: Name, zs: seq<Name>): seq<Item> {
    if zs == [] then [] else Row(a, zs[..|zs| - 1]) + [WireItem(LinkName(a, zs[|zs| - 1]))]
  }

  function Mesh(xs: seq<Name>, zs: seq<Name>): seq<Item> {
    if xs == [] then [] else Mesh(xs[..|xs| - 1], zs) + Row(xs[|xs| - 1], zs)
  }

  /** Each spine to both leaves of a rack. */
  function Uplinks(spines: seq<Name>, pod: string, rack: nat): seq<Item> {
    if spines == [] then []
    else
      var sp := spines[|spines| - 1];
      Uplinks(spines[..|spines| - 1], pod, rack)
      + [WireItem(LinkName(sp, LeafAName(pod, rack))), WireItem(LinkName(sp, LeafBName(pod, rack)))]
  }

  /** One bond member from each server to each leaf of its rack. */
  function AccessLinks(pod: string, rack: nat, n: nat): seq<Item> {
    if n == 0 then []
    else
      AccessLinks(pod, rack, n - 1)
      + [WireItem(LinkName(LeafAName(pod, rack), ServerName(pod, rack, n))),
         WireItem(LinkName(LeafBName(pod, rack), ServerName(pod, rack, n)))]
  }

  function RackItems(pod: string, rack: nat, servers: nat, spines: seq<Name>): seq<Item> {
    [RackItem(pod, rack, servers)] + Uplinks(spines, pod, rack)
    + [WireItem(LinkName(LeafAName(pod, rack), LeafBName(pod, rack)))] + AccessLinks(pod, rack, servers)
  }

  function RacksItems(pod: string, racks: seq<nat>, servers: nat, spines: seq<Name>): seq<Item> {
    if racks == [] then []
    else
      RacksItems(pod, racks[..|racks| - 1], servers, spines)
      + RackItems(pod, racks[|racks| - 1], servers, spines)
  }

  function PodItems(supers: seq<Name>, p: PodShape): seq<Item> {
    var spines := Spines(p.name, p.spines);
    Routers(spines) + Mesh(supers, spines) + RacksItems(p.name, p.racks, p.servers, spines)
  }

  function PodsItems(supers: seq<Name>, pods: seq<PodShape>): seq<Item> {
    if pods == [] then [] else PodsItems(supers, pods[..|pods| - 1]) + PodItems(supers, pods[|pods| - 1])
  }

  function CoreItems(s: Shape): seq<Item> {
    Routers(Externals(s.externals)) + Routers(Edges(s.edges)) + Routers(Supers(s.supers))
    + Mesh(Externals(s.externals), Edges(s.edges)) + Mesh(Edges(s.edges), Supers(s.supers))
  }

  function Items(s: Shape): seq<Item> {
    CoreItems(s) + PodsItems(Supers(s.supers), s.pods)
  }

  // ---------- what the sequence contains ----------

  lemma {:induction false} NamesAre(n: nat, pod: string, rack: nat, x: Name)
    ensures x in Externals(n) <==> x.ExternalName? && 1 <= x.i <= n
    ensures x in Edges(n) <==> x.EdgeName? && 1 <= x.i <= n
    ensures x in Supers(n) <==> x.SuperName? && 1 <= x.i <= n
    ensures x in Spines(pod, n) <==> x.SpineName? && x.pod == pod && 1 <= x.i <= n
    ensures x in Servers(pod, rack, n) <==> x.ServerName? && x.pod == pod && x.rack == rack && 1 <= x.i <= n
  {
    if n > 0 {
      NamesAre(n - 1, pod, rack, x);
    }
  }

  lemma {:induction false} InRouters(ns: seq<Name>, x: Item)
    ensures x in Routers(ns) <==> x.RouterItem? && x.n in ns
  {
    if ns != [] {
      InRouters(ns[..|ns| - 1], x);
      assert ns == ns[..|ns| - 1] + [ns[|ns| - 1]];
    }
  }

  lemma {:induction false} InRow(a: Name, zs: seq<Name>, x: Item)
    ensures x in Row(a, zs) <==> x.WireItem? && x.ln.a == a && x.ln.z in zs
  {
    if zs != [] {
      InRow(a, zs[..|zs| - 1], x);
      assert zs == zs[..|zs| - 1] + [zs[|zs| - 1]];
    }
  }

  lemma {:induction false} InMesh(xs: seq<Name>, zs: seq<Name>, x: Item)
    ensures x in Mesh(xs, zs) <==> x.WireItem? && x.ln.a in xs && x.ln.z in zs
  {
    if xs != [] {
      InMesh(xs[..|xs| - 1], zs, x);
      InRow(xs[|xs| - 1], zs, x);
      assert xs == xs[..|xs| - 1] + [xs[|xs| - 1]];
    }
  }

  lemma {:induction false} InUplinks(spines: seq<Name>, pod: string, rack: nat, x: Item)
    ensures x in Uplinks(spines, pod, rack) <==>
            x.WireItem? && x.ln.a in spines && x.ln.z in [LeafAName(pod, rack), LeafBName(pod, rack)]
  {
    if spines != [] {
      InUplinks(spines[..|spines| - 1], pod, rack, x);
      assert spines == spines[..|spines| - 1] + [spines[|spines| - 1]];
    }
  }

  lemma {:induction false} InAccessLinks(pod: string, rack: nat, n: nat, x: Item)
    ensures x in AccessLinks(pod, rack, n) <==>
            && x.WireItem? && x.ln.a in [LeafAName(pod, rack), LeafBName(pod, rack)]
            && x.ln.z in Servers(pod, rack, n)
  {
    if n > 0 {
      InAccessLinks(pod, rack, n - 1, x);
    }
  }

  predicate InRack(pod: string, rack: nat, servers: nat, spines: seq<Name>, x: Item) {
    match x
    case RouterItem(_) => false
    case RackItem(p, r, n) => p == pod && r == rack && n == servers
    case WireItem(ln) =>
      var leaves := [LeafAName(pod, rack), LeafBName(pod, rack)];
      || (ln.a in spines && ln.z in leaves)
      || (ln.a == leaves[0] && ln.z == leaves[1])
      || (ln.a in leaves && ln.z in Servers(pod, rack, servers))
  }

  lemma InRackItems(pod: string, rack: nat, servers: nat, spines: seq<Name>, x: Item)
    ensures x in RackItems(pod, rack, servers, spines) <==> InRack(pod, rack, servers, spines, x)
  {
    InUplinks(spines, pod, rack, x);
    InAccessLinks(pod, rack, servers, x);
  }

  lemma {:induction false} InRacksItems(pod: string, racks: seq<nat>, servers: nat, spines: seq<Name>, x: Item)
    ensures x in RacksItems(pod, racks, servers, spines) <==>
            exists r :: r in racks && InRack(pod, r, servers, spines, x)
  {
    if racks != [] {
      var last := racks[|racks| - 1];
      InRacksItems(pod, racks[..|racks| - 1], servers, spines, x);
      InRackItems(pod, last, servers, spines, x);
      assert racks == racks[..|racks| - 1] + [last];
      assert last in racks;
    }
  }

  predicate InPod(supers: seq<Name>, p: PodShape, x: Item) {
    var spines := Spines(p.name, p.spines);
    || (x.RouterItem? && x.n in spines)
    || (x.WireItem? && x.ln.a in supers && x.ln.z in spines)
    || (exists r :: r in p.racks && InRack(p.name, r, p.servers, spines, x))
  }

  lemma InPodItems(supers: seq<Name>, p: PodShape, x: Item)
    ensures x in PodItems(supers, p) <==> InPod(supers, p, x)
  {
    var spines := Spines(p.name, p.spines);
    InRouters(spines, x);
    InMesh(supers, spines, x);
    InRacksItems(p.name, p.racks, p.servers, spines, x);
  }

  lemma {:induction false} InPodsItems(supers: seq<Name>, pods: seq<PodShape>, x: Item)
    ensures x in PodsItems(supers, pods) <==> exists p :: p in pods && InPod(supers, p, x)
  {
    if pods != [] {
      var last := pods[|pods| - 1];
      InPodsItems(supers, pods[..|pods| - 1], x);
      InPodItems(supers, last, x);
      assert pods == pods[..|pods| - 1] + [last];
      assert last in pods;
    }
  }

  // ---------- in which order ----------

  /** The devices an item brings into being. */
  predicate Brings(x: Item, n: Name) {
    match x
    case RouterItem(m) => n == m
    case RackItem(pod, rack, servers) =>
      || n == LeafAName(pod, rack) || n == LeafBName(pod, rack)
      || (n.ServerName? && n.pod == pod && n.rack == rack && 1 <= n.i <= servers)
    case WireItem(_) => false
  }

  ghost predicate BroughtBy(xs: seq<Item>, n: Name) {
    exists x :: x in xs && Brings(x, n)
  }

  /** Every link of the list comes after both of its ends, which are in the list or were there before it. */
  ghost predicate EndsFirst(before: seq<Item>, xs: seq<Item>) {
    forall k :: 0 <= k < |xs| && xs[k].WireItem? ==>
      BroughtBy(before + xs[..k], xs[k].ln.a) && BroughtBy(before + xs[..k], xs[k].ln.z)
  }

  lemma EndsFirstConcat(before: seq<Item>, xs: seq<Item>, ys: seq<Item>)
    requires EndsFirst(before, xs) && EndsFirst(before + xs, ys)
    ensures EndsFirst(before, xs + ys)
  {
    forall k | 0 <= k < |xs + ys| && (xs + ys)[k].WireItem?
      ensures BroughtBy(before + (xs + ys)[..k], (xs + ys)[k].ln.a) && BroughtBy(before + (xs + ys)[..k], (xs + ys)[k].ln.z)
    {
      if k < |xs| {
        assert (xs + ys)[..k] == xs[..k];
      } else {
        assert (xs + ys)[..k] == xs + ys[..k - |xs|];
        assert before + (xs + ys)[..k] == before + xs + ys[..k - |xs|];
      }
    }
  }

  /** Links between devices that were all there before. */
  lemma WiresFit(before: seq<Item>, xs: seq<Item>)
    requires forall x :: x in xs && x.WireItem? ==> BroughtBy(before, x.ln.a) && BroughtBy(before, x.ln.z)
    ensures EndsFirst(before, xs)
  {
    hide Brings;
    forall k | 0 <= k < |xs| && xs[k].WireItem?
      ensures BroughtBy(before + xs[..k], xs[k].ln.a) && BroughtBy(before + xs[..k], xs[k].ln.z)
    {
      Longer(before, xs[..k], xs[k].ln.a);
      Longer(before, xs[..k], xs[k].ln.z);
    }
  }

  lemma Longer(before: seq<Item>, xs: seq<Item>, n: Name)
    requires BroughtBy(before, n)
    ensures BroughtBy(before + xs, n)
  {
  }

  lemma AllBrought(before: seq<Item>, ns: seq<Name>, xs: seq<Item>, n: Name)
    requires n in ns
    ensures BroughtBy(before + Routers(ns) + xs, n)
  {
    InRouters(ns, RouterItem(n));
    assert RouterItem(n) in before + Routers(ns) + xs && Brings(RouterItem(n), n);
  }

  lemma RackEndsFirst(before: seq<Item>, pod: string, rack: nat, servers: nat, spines: seq<Name>)
    requires forall n :: n in spines ==> BroughtBy(before, n)
    ensures EndsFirst(before, RackItems(pod, rack, servers, spines))
  {
    hide Brings, Uplinks, AccessLinks, Servers;
    var r := RackItem(pod, rack, servers);
    var xs := Uplinks(spines, pod, rack) + [WireItem(LinkName(LeafAName(pod, rack), LeafBName(pod, rack)))]
              + AccessLinks(pod, rack, servers);
    assert RackItems(pod, rack, servers, spines) == [r] + xs;
    WiresFit(before, [r]);
    forall x | x in xs && x.WireItem?
      ensures BroughtBy(before + [r], x.ln.a) && BroughtBy(before + [r], x.ln.z)
    {
      InUplinks(spines, pod, rack, x);
      InAccessLinks(pod, rack, servers, x);
      RackBrings(before, pod, rack, servers, x.ln.a);
      RackBrings(before, pod, rack, servers, x.ln.z);
      if x.ln.a in spines { Longer(before, [r], x.ln.a); }
    }
    WiresFit(before + [r], xs);
    EndsFirstConcat(before, [r], xs);
  }

  lemma RackBrings(before: seq<Item>, pod: string, rack: nat, servers: nat, n: Name)
    ensures n == LeafAName(pod, rack) || n == LeafBName(pod, rack) || n in Servers(pod, rack, servers) ==>
              BroughtBy(before + [RackItem(pod, rack, servers)], n)
  {
    NamesAre(servers, pod, rack, n);
    var xs := before + [RackItem(pod, rack, servers)];
    assert xs[|before|] in xs;
  }

  lemma {:induction false} RacksEndsFirst(before: seq<Item>, pod: string, racks: seq<nat>, servers: nat, spines: seq<Name>)
    requires forall n :: n in spines ==> BroughtBy(before, n)
    ensures EndsFirst(before, RacksItems(pod, racks, servers, spines))
  {
    hide BroughtBy, RackItems;
    if racks != [] {
      var init := racks[..|racks| - 1];
      RacksEndsFirst(before, pod, init, servers, spines);
      forall n | n in spines ensures BroughtBy(before + RacksItems(pod, init, servers, spines), n) {
        Longer(before, RacksItems(pod, init, servers, spines), n);
      }
      RackEndsFirst(before + RacksItems(pod, init, servers, spines), pod, racks[|racks| - 1], servers, spines);
      EndsFirstConcat(before, RacksItems(pod, init, servers, spines), RackItems(pod, racks[|racks| - 1], servers, spines));
    }
  }

  lemma RoutersEndsFirst(before: seq<Item>, ns: seq<Name>)
    ensures EndsFirst(before, Routers(ns))
  {
    hide Routers, BroughtBy;
    forall x | x in Routers(ns) ensures !x.WireItem? { InRouters(ns, x); }
    WiresFit(before, Routers(ns));
  }

  lemma MeshEndsFirst(before: seq<Item>, xs: seq<Name>, zs: seq<Name>)
    requires forall n :: n in xs || n in zs ==> BroughtBy(before, n)
    ensures EndsFirst(before, Mesh(xs, zs))
  {
    hide Mesh, BroughtBy;
    forall x | x in Mesh(xs, zs) && x.WireItem?
      ensures BroughtBy(before, x.ln.a) && BroughtBy(before, x.ln.z)
    {
      InMesh(xs, zs, x);
    }
    WiresFit(before, Mesh(xs, zs));
  }

  lemma PodEndsFirst(before: seq<Item>, supers: seq<Name>, p: PodShape)
    requires forall n :: n in supers ==> BroughtBy(before, n)
    ensures EndsFirst(before, PodItems(supers, p))
  {
    hide BroughtBy, Mesh, RacksItems, Routers, EndsFirst, Spines;
    var spines := Spines(p.name, p.spines);
    var b1 := before + Routers(spines);
    var b2 := b1 + Mesh(supers, spines);
    RoutersEndsFirst(before, spines);
    forall n | n in supers || n in spines ensures BroughtBy(b1, n) {
      if n in supers { Longer(before, Routers(spines), n); } else { AllBrought(before, spines, [], n); assert b1 + [] == b1; }
    }
    MeshEndsFirst(b1, supers, spines);
    forall n | n in spines ensures BroughtBy(b2, n) { Longer(b1, Mesh(supers, spines), n); }
    RacksEndsFirst(b2, p.name, p.racks, p.servers, spines);
    EndsFirstConcat(before, Routers(spines), Mesh(supers, spines));
    assert before + (Routers(spines) + Mesh(supers, spines)) == b2;
    EndsFirstConcat(before, Routers(spines) + Mesh(supers, spines), RacksItems(p.name, p.racks, p.servers, spines));
  }

  lemma {:induction false} PodsEndsFirst(before: seq<Item>, supers: seq<Name>, pods: seq<PodShape>)
    requires forall n :: n in supers ==> BroughtBy(before, n)
    ensures EndsFirst(before, PodsItems(supers, pods))
  {
    hide BroughtBy, PodItems;
    if pods != [] {
      var init := pods[..|pods| - 1];
      PodsEndsFirst(before, supers, init);
      forall n | n in supers ensures BroughtBy(before + PodsItems(supers, init), n) { Longer(before, PodsItems(supers, init), n); }
      PodEndsFirst(before + PodsItems(supers, init), supers, pods[|pods| - 1]);
      EndsFirstConcat(before, PodsItems(supers, init), PodItems(supers, pods[|pods| - 1]));
    }
  }

  /** A build creates both ends of a link before the link. */
  lemma EndsBuiltFirst(s: Shape)
    ensures EndsFirst([], Items(s))
  {
    hide BroughtBy, Mesh, PodsItems, Routers, EndsFirst, Externals, Edges, Supers;
    var e, d, u := Externals(s.externals), Edges(s.edges), Supers(s.supers);
    var routers := Routers(e) + Routers(d) + Routers(u);
    RoutersEndsFirst([], e);
    RoutersEndsFirst([] + Routers(e), d);
    EndsFirstConcat([], Routers(e), Routers(d));
    RoutersEndsFirst([] + (Routers(e) + Routers(d)), u);
    EndsFirstConcat([], Routers(e) + Routers(d), Routers(u));
    forall n | n in e || n in d || n in u ensures BroughtBy([] + routers, n) {
      if n in e { AllBrought([], e, Routers(d) + Routers(u), n); assert [] + Routers(e) + (Routers(d) + Routers(u)) == [] + routers; }
      if n in d { AllBrought(Routers(e), d, Routers(u), n); assert Routers(e) + Routers(d) + Routers(u) == [] + routers; }
      if n in u { AllBrought(Routers(e) + Routers(d), u, [], n); assert Routers(e) + Routers(d) + Routers(u) + [] == [] + routers; }
    }
    MeshEndsFirst([] + routers, e, d);
    EndsFirstConcat([], routers, Mesh(e, d));
    var b := [] + (routers + Mesh(e, d));
    assert b == ([] + routers) + Mesh(e, d);
    forall n | n in d || n in u ensures BroughtBy(b, n) { Longer([] + routers, Mesh(e, d), n); }
    MeshEndsFirst(b, d, u);
    EndsFirstConcat([], routers + Mesh(e, d), Mesh(d, u));
    var c := [] + (routers + Mesh(e, d) + Mesh(d, u));
    assert c == b + Mesh(d, u);
    forall n | n in u ensures BroughtBy(c, n) { Longer(b, Mesh(d, u), n); }
    PodsEndsFirst(c, u, s.pods);
    EndsFirstConcat([], routers + Mesh(e, d) + Mesh(d, u), PodsItems(u, s.pods));
  }
}
