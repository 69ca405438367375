/**
 The order of a build seen from one device: as the how-manieth of its links each link is wired. It is fixed by the
 shape alone, from the externals down to the servers.
 */
module BuildOrder {
  import opened Fabric
  import opened Script
  import opened ScriptFacts

  // ---------- counting ----------

  /** How many ends at the device an item wires, unless the link is a deployed one. */
  function EndsAt(x: Item, deployed: set<LinkName>, n: Name): nat {
    if !x.WireItem? || x.ln in deployed then 0
    else (if x.ln.a == n then 1 else 0) + if x.ln.z == n then 1 else 0
  }

  function Count(xs: seq<Item>, deployed: set<LinkName>, n: Name): nat {
    if xs == [] then 0 else Count(xs[..|xs| - 1], deployed, n) + EndsAt(xs[|xs| - 1], deployed, n)
  }

  lemma CountNext(xs: seq<Item>, x: Item, deployed: set<LinkName>, n: Name)
    ensures Count(xs + [x], deployed, n) == Count(xs, deployed, n) + EndsAt(x, deployed, n)
  {
  }

  lemma {:induction false} CountConcat(xs: seq<Item>, ys: seq<Item>, deployed: set<LinkName>, n: Name)
    ensures Count(xs + ys, deployed, n) == Count(xs, deployed, n) + Count(ys, deployed, n)
  {
    if ys == [] {
      assert xs + ys == xs;
    } else {
      var init, last := ys[..|ys| - 1], ys[|ys| - 1];
      CountConcat(xs, init, deployed, n);
      assert xs + ys == (xs + init) + [last];
      CountNext(xs + init, last, deployed, n);
    }
  }

  ghost predicate Away(xs: seq<Item>, n: Name) {
    forall x :: x in xs && x.WireItem? ==> x.ln.a != n && x.ln.z != n
  }

  lemma {:induction false} AwayCountsNothing(xs: seq<Item>, deployed: set<LinkName>, n: Name)
    requires Away(xs, n)
    ensures Count(xs, deployed, n) == 0
  {
    if xs != [] {
      var init, last := xs[..|xs| - 1], xs[|xs| - 1];
      assert xs == init + [last] && last in xs;
      assert forall x :: x in init ==> x in xs;
      AwayCountsNothing(init, deployed, n);
    }
  }

  ghost predicate Bare(deployed: set<LinkName>, n: Name) {
    forall ln :: ln in deployed ==> ln.a != n && ln.z != n
  }

  lemma {:induction false} BareCount(xs: seq<Item>, deployed: set<LinkName>, n: Name)
    requires Bare(deployed, n)
    ensures Count(xs, deployed, n) == Count(xs, {}, n)
  {
    if xs != [] { BareCount(xs[..|xs| - 1], deployed, n); }
  }

  // ---------- the place of a link ----------

  /** The link is the `c`th to be wired at the device. */
  ghost predicate Nth(xs: seq<Item>, ln: LinkName, n: Name, c: nat) {
    exists k :: 0 <= k < |xs| && NthAt(xs, ln, n, c, k)
  }

  ghost predicate NthAt(xs: seq<Item>, ln: LinkName, n: Name, c: nat, k: nat)
    requires k < |xs|
  {
    xs[k] == WireItem(ln) && Count(xs[..k + 1], {}, n) == c
  }

  lemma NthLater(xs: seq<Item>, ys: seq<Item>, ln: LinkName, n: Name, c: nat)
    requires Nth(ys, ln, n, c)
    ensures Nth(xs + ys, ln, n, Count(xs, {}, n) + c)
  {
    hide Count;
    var k: nat :| k < |ys| && NthAt(ys, ln, n, c, k);
    var all := xs + ys;
    assert all[..|xs| + k + 1] == xs + ys[..k + 1];
    CountConcat(xs, ys[..k + 1], {}, n);
    assert NthAt(all, ln, n, Count(xs, {}, n) + c, |xs| + k);
  }

  lemma NthEarlier(xs: seq<Item>, ys: seq<Item>, ln: LinkName, n: Name, c: nat)
    requires Nth(xs, ln, n, c)
    ensures Nth(xs + ys, ln, n, c)
  {
    hide Count;
    var k: nat :| k < |xs| && NthAt(xs, ln, n, c, k);
    assert (xs + ys)[..k + 1] == xs[..k + 1];
    assert NthAt(xs + ys, ln, n, c, k);
  }

  /** Behind items away from the device and before whatever follows, a link keeps its place. */
  lemma NthInside(xs: seq<Item>, ys: seq<Item>, zs: seq<Item>, ln: LinkName, n: Name, c: nat)
    requires Away(xs, n) && Nth(ys, ln, n, c)
    ensures Nth(xs + ys + zs, ln, n, c)
  {
    hide Nth, Away, Count;
    AwayCountsNothing(xs, {}, n);
    NthLater(xs, ys, ln, n, c);
    NthEarlier(xs + ys, zs, ln, n, c);
  }

  lemma NthLast(xs: seq<Item>, ln: LinkName, n: Name)
    ensures Nth(xs + [WireItem(ln)], ln, n, Count(xs, {}, n) + EndsAt(WireItem(ln), {}, n))
  {
    hide Count, EndsAt;
    var all := xs + [WireItem(ln)];
    CountNext(xs, WireItem(ln), {}, n);
    assert all[..|xs| + 1] == all;
    assert NthAt(all, ln, n, Count(xs, {}, n) + EndsAt(WireItem(ln), {}, n), |xs|);
  }

  function Meets(ln: LinkName, n: Name): nat {
    if n == ln.a || n == ln.z then 1 else 0
  }

  /** Two links more. */
  lemma TwoMore(xs: seq<Item>, one: LinkName, two: LinkName, n: Name)
    requires one.a != one.z && two.a != two.z
    ensures var all, c := xs + [WireItem(one), WireItem(two)], Count(xs, {}, n);
            && Count(all, {}, n) == c + Meets(one, n) + Meets(two, n)
            && Nth(all, one, n, c + Meets(one, n)) && Nth(all, two, n, c + Meets(one, n) + Meets(two, n))
  {
    hide Count, Nth;
    var mid := xs + [WireItem(one)];
    assert xs + [WireItem(one), WireItem(two)] == mid + [WireItem(two)];
    CountNext(xs, WireItem(one), {}, n);
    CountNext(mid, WireItem(two), {}, n);
    NthLast(xs, one, n);
    NthEarlier(mid, [WireItem(two)], one, n, Count(xs, {}, n) + Meets(one, n));
    NthLast(mid, two, n);
  }

  lemma NothingCounts()
    ensures forall n :: Count([], {}, n) == 0
  {
  }

  lemma UplinksNext(pod: string, rack: nat, m: nat)
    requires m > 0
    ensures Uplinks(Spines(pod, m), pod, rack)
            == Uplinks(Spines(pod, m - 1), pod, rack)
               + [WireItem(LinkName(SpineName(pod, m), LeafAName(pod, rack))), WireItem(LinkName(SpineName(pod, m), LeafBName(pod, rack)))]
  {
    assert Spines(pod, m)[..|Spines(pod, m)| - 1] == Spines(pod, m - 1);
  }

  /** How many of a rack's uplinks, spine after spine, meet a device. */
  lemma {:induction false} UplinkCount(pod: string, rack: nat, m: nat, n: Name)
    ensures Count(Uplinks(Spines(pod, m), pod, rack), {}, n)
            == if n == LeafAName(pod, rack) || n == LeafBName(pod, rack) then m
               else if n.SpineName? && n.pod == pod && 1 <= n.i <= m then 2 else 0
  {
    if m > 0 {
      hide Count, Nth, Uplinks, Spines;
      UplinkCount(pod, rack, m - 1, n);
      UplinksNext(pod, rack, m);
      TwoMore(Uplinks(Spines(pod, m - 1), pod, rack), LinkName(SpineName(pod, m), LeafAName(pod, rack)),
              LinkName(SpineName(pod, m), LeafBName(pod, rack)), n);
    } else {
      NothingCounts();
    }
  }

  /** The uplinks of spine `i`: the `i`th at each leaf, at the spine leaf a's before leaf b's. */
  lemma {:induction false} UplinkPlaces(pod: string, rack: nat, m: nat, i: nat)
    requires 1 <= i <= m
    ensures var xs, sp, a, b := Uplinks(Spines(pod, m), pod, rack), SpineName(pod, i), LeafAName(pod, rack), LeafBName(pod, rack);
            && Nth(xs, LinkName(sp, a), a, i) && Nth(xs, LinkName(sp, b), b, i)
            && Nth(xs, LinkName(sp, a), sp, 1) && Nth(xs, LinkName(sp, b), sp, 2)
  {
    hide Count, Nth, Uplinks, Spines;
    var sp, a, b := SpineName(pod, i), LeafAName(pod, rack), LeafBName(pod, rack);
    var init := Uplinks(Spines(pod, m - 1), pod, rack);
    UplinksNext(pod, rack, m);
    if i < m {
      var last := [WireItem(LinkName(SpineName(pod, m), a)), WireItem(LinkName(SpineName(pod, m), b))];
      UplinkPlaces(pod, rack, m - 1, i);
      NthEarlier(init, last, LinkName(sp, a), a, i);
      NthEarlier(init, last, LinkName(sp, b), b, i);
      NthEarlier(init, last, LinkName(sp, a), sp, 1);
      NthEarlier(init, last, LinkName(sp, b), sp, 2);
    } else {
      UplinkCount(pod, rack, m - 1, a);
      UplinkCount(pod, rack, m - 1, b);
      UplinkCount(pod, rack, m - 1, sp);
      TwoMore(init, LinkName(sp, a), LinkName(sp, b), a);
      TwoMore(init, LinkName(sp, a), LinkName(sp, b), b);
      TwoMore(init, LinkName(sp, a), LinkName(sp, b), sp);
    }
  }

  lemma {:induction false} AccessCount(pod: string, rack: nat, m: nat, n: Name)
    ensures Count(AccessLinks(pod, rack, m), {}, n)
            == if n == LeafAName(pod, rack) || n == LeafBName(pod, rack) then m
               else if n.ServerName? && n.pod == pod && n.rack == rack && 1 <= n.i <= m then 2 else 0
  {
    if m > 0 {
      hide Count, Nth;
      AccessCount(pod, rack, m - 1, n);
      TwoMore(AccessLinks(pod, rack, m - 1), LinkName(LeafAName(pod, rack), ServerName(pod, rack, m)),
              LinkName(LeafBName(pod, rack), ServerName(pod, rack, m)), n);
    } else {
      NothingCounts();
    }
  }

  /** Server `i`: the `i`th at each leaf, at the server leaf a's before leaf b's. */
  lemma {:induction false} AccessPlaces(pod: string, rack: nat, m: nat, i: nat)
    requires 1 <= i <= m
    ensures var xs, srv, a, b := AccessLinks(pod, rack, m), ServerName(pod, rack, i), LeafAName(pod, rack), LeafBName(pod, rack);
            && Nth(xs, LinkName(a, srv), a, i) && Nth(xs, LinkName(b, srv), b, i)
            && Nth(xs, LinkName(a, srv), srv, 1) && Nth(xs, LinkName(b, srv), srv, 2)
  {
    hide Count, Nth;
    var srv, a, b := ServerName(pod, rack, i), LeafAName(pod, rack), LeafBName(pod, rack);
    var init := AccessLinks(pod, rack, m - 1);
    if i < m {
      var last := [WireItem(LinkName(a, ServerName(pod, rack, m))), WireItem(LinkName(b, ServerName(pod, rack, m)))];
      AccessPlaces(pod, rack, m - 1, i);
      NthEarlier(init, last, LinkName(a, srv), a, i);
      NthEarlier(init, last, LinkName(b, srv), b, i);
      NthEarlier(init, last, LinkName(a, srv), srv, 1);
      NthEarlier(init, last, LinkName(b, srv), srv, 2);
    } else {
      AccessCount(pod, rack, m - 1, a);
      AccessCount(pod, rack, m - 1, b);
      AccessCount(pod, rack, m - 1, srv);
      TwoMore(init, LinkName(a, srv), LinkName(b, srv), a);
      TwoMore(init, LinkName(a, srv), LinkName(b, srv), b);
      TwoMore(init, LinkName(a, srv), LinkName(b, srv), srv);
    }
  }

  /** A rack's links without the item of the rack itself. */
  function RackWires(pod: string, rack: nat, servers: nat, m: nat): seq<Item> {
    Uplinks(Spines(pod, m), pod, rack) + [WireItem(LinkName(LeafAName(pod, rack), LeafBName(pod, rack)))]
    + AccessLinks(pod, rack, servers)
  }

  /** On a leaf come its spines, then the other leaf, then its servers. */
  lemma RackPlaces(pod: string, rack: nat, servers: nat, m: nat, n: Name)
    ensures var xs, a, b := RackWires(pod, rack, servers, m), LeafAName(pod, rack), LeafBName(pod, rack);
            && Nth(xs, LinkName(a, b), a, m + 1) && Nth(xs, LinkName(a, b), b, m + 1)
            && (n.SpineName? && n.pod == pod && 1 <= n.i <= m ==>
                  && Nth(xs, LinkName(n, a), a, n.i) && Nth(xs, LinkName(n, b), b, n.i)
                  && Nth(xs, LinkName(n, a), n, 1) && Nth(xs, LinkName(n, b), n, 2) && Count(xs, {}, n) == 2)
            && (n.ServerName? && n.pod == pod && n.rack == rack && 1 <= n.i <= servers ==>
                  && Nth(xs, LinkName(a, n), a, m + 1 + n.i) && Nth(xs, LinkName(b, n), b, m + 1 + n.i)
                  && Nth(xs, LinkName(a, n), n, 1) && Nth(xs, LinkName(b, n), n, 2))
  {
    hide Count, Nth, Uplinks, Spines, AccessLinks;
    var a, b := LeafAName(pod, rack), LeafBName(pod, rack);
    var up, peer, access := Uplinks(Spines(pod, m), pod, rack), [WireItem(LinkName(a, b))], AccessLinks(pod, rack, servers);
    var mid := up + peer;
    forall x ensures Count(mid, {}, x) == Count(up, {}, x) + Meets(LinkName(a, b), x) {
      CountNext(up, WireItem(LinkName(a, b)), {}, x);
    }
    UplinkCount(pod, rack, m, a);
    UplinkCount(pod, rack, m, b);
    UplinkCount(pod, rack, m, n);
    AccessCount(pod, rack, servers, n);
    CountConcat(mid, access, {}, n);
    NthLast(up, LinkName(a, b), a);
    NthLast(up, LinkName(a, b), b);
    NthEarlier(mid, access, LinkName(a, b), a, m + 1);
    NthEarlier(mid, access, LinkName(a, b), b, m + 1);
    if n.SpineName? && n.pod == pod && 1 <= n.i <= m {
      UplinkPlaces(pod, rack, m, n.i);
      UplinkFirst(up, peer, access, LinkName(n, a), a, n.i);
      UplinkFirst(up, peer, access, LinkName(n, b), b, n.i);
      UplinkFirst(up, peer, access, LinkName(n, a), n, 1);
      UplinkFirst(up, peer, access, LinkName(n, b), n, 2);
    }
    if n.ServerName? && n.pod == pod && n.rack == rack && 1 <= n.i <= servers {
      AccessPlaces(pod, rack, servers, n.i);
      NthLater(mid, access, LinkName(a, n), a, n.i);
      NthLater(mid, access, LinkName(b, n), b, n.i);
      NthLater(mid, access, LinkName(a, n), n, 1);
      NthLater(mid, access, LinkName(b, n), n, 2);
    }
  }

  lemma UplinkFirst(up: seq<Item>, peer: seq<Item>, access: seq<Item>, ln: LinkName, n: Name, c: nat)
    requires Nth(up, ln, n, c)
    ensures Nth(up + peer + access, ln, n, c)
  {
    hide Nth;
    NthEarlier(up, peer, ln, n, c);
    NthEarlier(up + peer, access, ln, n, c);
  }

  lemma RackCount(pod: string, rack: nat, servers: nat, m: nat, n: Name)
    ensures var c := Count(RackWires(pod, rack, servers, m), {}, n);
            && (n.SpineName? && n.pod == pod && 1 <= n.i <= m ==> c == 2)
            && ((IsLeaf(n) || n.ServerName?) && (n.pod != pod || n.rack != rack) ==> c == 0)
            && (n.SuperName? ==> c == 0)
  {
    hide Count, Nth, Uplinks, Spines, AccessLinks;
    var peer := LinkName(LeafAName(pod, rack), LeafBName(pod, rack));
    var up, access := Uplinks(Spines(pod, m), pod, rack), AccessLinks(pod, rack, servers);
    CountNext(up, WireItem(peer), {}, n);
    CountConcat(up + [WireItem(peer)], access, {}, n);
    UplinkCount(pod, rack, m, n);
    AccessCount(pod, rack, servers, n);
  }

  lemma RackAsWires(pod: string, rack: nat, servers: nat, m: nat, n: Name)
    ensures RackItems(pod, rack, servers, Spines(pod, m)) == [RackItem(pod, rack, servers)] + RackWires(pod, rack, servers, m)
    ensures Away([RackItem(pod, rack, servers)], n)
    ensures Count(RackItems(pod, rack, servers, Spines(pod, m)), {}, n) == Count(RackWires(pod, rack, servers, m), {}, n)
  {
    hide Count, RackWires, Uplinks, Spines, AccessLinks;
    assert RackItems(pod, rack, servers, Spines(pod, m)) == [RackItem(pod, rack, servers)] + RackWires(pod, rack, servers, m) by {
      SameWires(pod, rack, servers, m);
    }
    AwayCountsNothing([RackItem(pod, rack, servers)], {}, n);
    CountConcat([RackItem(pod, rack, servers)], RackWires(pod, rack, servers, m), {}, n);
  }

  lemma SameWires(pod: string, rack: nat, servers: nat, m: nat)
    ensures RackItems(pod, rack, servers, Spines(pod, m)) == [RackItem(pod, rack, servers)] + RackWires(pod, rack, servers, m)
  {
  }

  lemma {:induction false} RacksCount(pod: string, racks: seq<nat>, servers: nat, m: nat, n: Name)
    ensures var c := Count(RacksItems(pod, racks, servers, Spines(pod, m)), {}, n);
            && (n.SpineName? && n.pod == pod && 1 <= n.i <= m ==> c == 2 * |racks|)
            && ((IsLeaf(n) || n.ServerName?) && (n.pod != pod || n.rack !in racks) ==> c == 0)
            && (n.SuperName? ==> c == 0)
  {
    if racks != [] {
      hide Count, RackItems, RackWires;
      var init, r := racks[..|racks| - 1], racks[|racks| - 1];
      assert r in racks && forall x :: x in init ==> x in racks;
      RacksCount(pod, init, servers, m, n);
      RackCount(pod, r, servers, m, n);
      RackAsWires(pod, r, servers, m, n);
      CountConcat(RacksItems(pod, init, servers, Spines(pod, m)), RackItems(pod, r, servers, Spines(pod, m)), {}, n);
    } else {
      NothingCounts();
    }
  }

  /** Where the links of the rack in slot `t` come, behind `before` others at each spine and none at the rack. */
  ghost predicate SlotPlaces(xs: seq<Item>, pod: string, rack: nat, servers: nat, m: nat, before: nat, n: Name) {
    var a, b := LeafAName(pod, rack), LeafBName(pod, rack);
    && Nth(xs, LinkName(a, b), a, m + 1) && Nth(xs, LinkName(a, b), b, m + 1)
    && (n.SpineName? && n.pod == pod && 1 <= n.i <= m ==>
          && Nth(xs, LinkName(n, a), a, n.i) && Nth(xs, LinkName(n, b), b, n.i)
          && Nth(xs, LinkName(n, a), n, before + 1) && Nth(xs, LinkName(n, b), n, before + 2))
    && (n.ServerName? && n.pod == pod && n.rack == rack && 1 <= n.i <= servers ==>
          && Nth(xs, LinkName(a, n), a, m + 1 + n.i) && Nth(xs, LinkName(b, n), b, m + 1 + n.i)
          && Nth(xs, LinkName(a, n), n, 1) && Nth(xs, LinkName(b, n), n, 2))
  }

  lemma SlotEarlier(xs: seq<Item>, ys: seq<Item>, pod: string, rack: nat, servers: nat, m: nat, before: nat, n: Name)
    requires SlotPlaces(xs, pod, rack, servers, m, before, n)
    ensures SlotPlaces(xs + ys, pod, rack, servers, m, before, n)
  {
    hide Nth;
    forall ln, x, c | Nth(xs, ln, x, c) ensures Nth(xs + ys, ln, x, c) { NthEarlier(xs, ys, ln, x, c); }
  }

  lemma SlotLater(xs: seq<Item>, ys: seq<Item>, pod: string, rack: nat, servers: nat, m: nat, before: nat, n: Name)
    requires SlotPlaces(ys, pod, rack, servers, m, before, n)
    requires Count(xs, {}, LeafAName(pod, rack)) == 0 && Count(xs, {}, LeafBName(pod, rack)) == 0
    requires n.ServerName? && n.pod == pod && n.rack == rack ==> Count(xs, {}, n) == 0
    ensures SlotPlaces(xs + ys, pod, rack, servers, m, (if n.SpineName? then Count(xs, {}, n) else 0) + before, n)
  {
    hide Nth, Count;
    forall ln, x, c | Nth(ys, ln, x, c) ensures Nth(xs + ys, ln, x, Count(xs, {}, x) + c) { NthLater(xs, ys, ln, x, c); }
  }

  lemma {:induction false} RacksPlaces(pod: string, racks: seq<nat>, servers: nat, m: nat, t: nat, n: Name)
    requires t < |racks| && forall i, j :: 0 <= i < j < |racks| ==> racks[i] < racks[j]
    ensures SlotPlaces(RacksItems(pod, racks, servers, Spines(pod, m)), pod, racks[t], servers, m, 2 * t, n)
  {
    hide Count, RackItems, RackWires, SlotPlaces;
    var init, r := racks[..|racks| - 1], racks[|racks| - 1];
    var before, rack := RacksItems(pod, init, servers, Spines(pod, m)), RackItems(pod, r, servers, Spines(pod, m));
    assert RacksItems(pod, racks, servers, Spines(pod, m)) == before + rack;
    if t < |init| {
      RacksPlaces(pod, init, servers, m, t, n);
      SlotEarlier(before, rack, pod, racks[t], servers, m, 2 * t, n);
    } else {
      var item := [RackItem(pod, r, servers)];
      assert r !in init;
      RackAsWires(pod, r, servers, m, n);
      RackAlone(pod, r, servers, m, n);
      RacksCount(pod, init, servers, m, n);
      RacksCount(pod, init, servers, m, LeafAName(pod, r));
      RacksCount(pod, init, servers, m, LeafBName(pod, r));
      SlotIsFirst(before, rack, pod, r, servers, m, t, n);
    }
  }

  /** Behind racks that meet each spine twice. */
  lemma SlotIsFirst(xs: seq<Item>, ys: seq<Item>, pod: string, rack: nat, servers: nat, m: nat, t: nat, n: Name)
    requires SlotPlaces(ys, pod, rack, servers, m, 0, n)
    requires Count(xs, {}, LeafAName(pod, rack)) == 0 && Count(xs, {}, LeafBName(pod, rack)) == 0
    requires n.SpineName? && n.pod == pod && 1 <= n.i <= m ==> Count(xs, {}, n) == 2 * t
    requires n.ServerName? && n.pod == pod && n.rack == rack ==> Count(xs, {}, n) == 0
    ensures SlotPlaces(xs + ys, pod, rack, servers, m, 2 * t, n)
  {
    hide Nth, Count;
    SlotLater(xs, ys, pod, rack, servers, m, 0, n);
  }

  lemma RackAlone(pod: string, rack: nat, servers: nat, m: nat, n: Name)
    ensures SlotPlaces(RackItems(pod, rack, servers, Spines(pod, m)), pod, rack, servers, m, 0, n)
  {
    hide Nth, Count, RackItems, RackWires;
    RackPlaces(pod, rack, servers, m, n);
    var item, wires := [RackItem(pod, rack, servers)], RackWires(pod, rack, servers, m);
    forall x ensures Count(item, {}, x) == 0 {
      RackAsWires(pod, rack, servers, m, x);
      AwayCountsNothing(item, {}, x);
    }
    SlotLater(item, wires, pod, rack, servers, m, 0, n);
    RackAsWires(pod, rack, servers, m, n);
  }

  /** The links from one device down to a list of others. */
  lemma {:induction false} RowCount(a: Name, zs: seq<Name>, n: Name)
    requires a !in zs && forall i, j :: 0 <= i < j < |zs| ==> zs[i] != zs[j]
    ensures n != a ==> Count(Row(a, zs), {}, n) == if n in zs then 1 else 0
    ensures n in zs ==> Nth(Row(a, zs), LinkName(a, n), n, 1)
  {
    if zs != [] {
      hide Count, Nth;
      var init, z := zs[..|zs| - 1], zs[|zs| - 1];
      assert zs == init + [z];
      RowCount(a, init, n);
      CountNext(Row(a, init), WireItem(LinkName(a, z)), {}, n);
      NthLast(Row(a, init), LinkName(a, z), n);
      if n in init { NthEarlier(Row(a, init), [WireItem(LinkName(a, z))], LinkName(a, n), n, 1); }
    } else {
      NothingCounts();
    }
  }

  lemma RowNext(a: Name, init: seq<Name>, z: Name, n: Name)
    requires a != z
    ensures Row(a, init + [z]) == Row(a, init) + [WireItem(LinkName(a, z))]
    ensures Count(Row(a, init + [z]), {}, n) == Count(Row(a, init), {}, n) + Meets(LinkName(a, z), n)
    ensures Nth(Row(a, init + [z]), LinkName(a, z), n, Count(Row(a, init), {}, n) + Meets(LinkName(a, z), n))
  {
    hide Count, Nth;
    CountNext(Row(a, init), WireItem(LinkName(a, z)), {}, n);
    NthLast(Row(a, init), LinkName(a, z), n);
  }

  /** At the upper device the lower ones come in order. */
  lemma {:induction false} RowPlaces(a: Name, zs: seq<Name>, z: Name, rest: seq<Name>)
    requires a !in zs && a != z && a !in rest
    ensures Count(Row(a, zs), {}, a) == |zs|
    ensures Nth(Row(a, zs + [z] + rest), LinkName(a, z), a, |zs| + 1)
    decreases |zs| + |rest|
  {
    hide Count, Nth, Row;
    if rest != [] {
      var init, last := rest[..|rest| - 1], rest[|rest| - 1];
      RowPlaces(a, zs, z, init);
      RowNext(a, zs + [z] + init, last, a);
      assert zs + [z] + rest == zs + [z] + init + [last];
      NthEarlier(Row(a, zs + [z] + init), [WireItem(LinkName(a, last))], LinkName(a, z), a, |zs| + 1);
    } else {
      assert zs + [z] + rest == zs + [z];
      RowLength(a, zs);
      RowNext(a, zs, z, a);
    }
  }

  lemma {:induction false} RowLength(a: Name, zs: seq<Name>)
    requires a !in zs
    ensures Count(Row(a, zs), {}, a) == |zs|
  {
    if zs != [] {
      hide Count, Nth;
      var init, z := zs[..|zs| - 1], zs[|zs| - 1];
      assert zs == init + [z];
      RowLength(a, init);
      RowNext(a, init, z, a);
    } else {
      NothingCounts();
    }
  }

  /** A mesh meets each lower device once for every upper one, and no third device. */
  lemma {:induction false} MeshLength(us: seq<Name>, zs: seq<Name>, n: Name)
    requires n !in us && (forall i, j :: 0 <= i < j < |zs| ==> zs[i] != zs[j]) && forall x :: x in us ==> x !in zs
    ensures Count(Mesh(us, zs), {}, n) == if n in zs then |us| else 0
  {
    if us != [] {
      hide Count, Nth, Row;
      var init, x := us[..|us| - 1], us[|us| - 1];
      assert us == init + [x] && x in us;
      MeshLength(init, zs, n);
      RowCount(x, zs, n);
      CountConcat(Mesh(init, zs), Row(x, zs), {}, n);
    } else {
      NothingCounts();
    }
  }

  ghost predicate Split(all: seq<Name>, before: seq<Name>, x: Name, after: seq<Name>) {
    && all == before + [x] + after && x !in before && x !in after
    && forall i, j :: 0 <= i < j < |all| ==> all[i] != all[j]
  }

  lemma MeshNext(us: seq<Name>, x: Name, zs: seq<Name>, n: Name)
    ensures Mesh(us + [x], zs) == Mesh(us, zs) + Row(x, zs)
    ensures Count(Mesh(us + [x], zs), {}, n) == Count(Mesh(us, zs), {}, n) + Count(Row(x, zs), {}, n)
  {
    hide Count, Row;
    CountConcat(Mesh(us, zs), Row(x, zs), {}, n);
  }

  /** Between two tiers: at an upper device the lower ones come in order, at a lower one the upper ones. */
  lemma {:induction false} MeshPlace(us: seq<Name>, x: Name, ws: seq<Name>, down: seq<Name>, zs: seq<Name>, z: Name, rest: seq<Name>)
    requires Split(down, zs, z, rest) && x !in us && x !in ws
    requires forall n :: n in us || n == x || n in ws ==> n !in down
    ensures var mesh := Mesh(us + [x] + ws, down);
            && Nth(mesh, LinkName(x, z), x, |zs| + 1) && Nth(mesh, LinkName(x, z), z, |us| + 1)
            && Count(mesh, {}, x) == |down|
  {
    hide Count, Nth, Row, Mesh;
    if ws != [] {
      var init, last := ws[..|ws| - 1], ws[|ws| - 1];
      assert ws == init + [last] && last in ws;
      assert us + [x] + ws == us + [x] + init + [last];
      MeshPlace(us, x, init, down, zs, z, rest);
      MeshNext(us + [x] + init, last, down, x);
      NthEarlier(Mesh(us + [x] + init, down), Row(last, down), LinkName(x, z), x, |zs| + 1);
      NthEarlier(Mesh(us + [x] + init, down), Row(last, down), LinkName(x, z), z, |us| + 1);
      RowCount(last, down, x);
    } else {
      assert us + [x] + ws == us + [x] && z in down;
      MeshNext(us, x, down, x);
      MeshLength(us, down, x);
      MeshLength(us, down, z);
      RowPlaces(x, zs, z, rest);
      RowLength(x, down);
      RowCount(x, down, z);
      NthLater(Mesh(us, down), Row(x, down), LinkName(x, z), x, |zs| + 1);
      NthLater(Mesh(us, down), Row(x, down), LinkName(x, z), z, 1);
    }
  }

  lemma SplitAt(all: seq<Name>, before: seq<Name>, x: Name)
    requires |before| < |all| && all[..|before|] == before && all[|before|] == x
    requires forall i, j :: 0 <= i < j < |all| ==> all[i] != all[j]
    ensures Split(all, before, x, all[|before| + 1..])
  {
  }

  lemma TierSplit(n: nat, i: nat, pod: string) returns (e: seq<Name>, d: seq<Name>, u: seq<Name>, sp: seq<Name>)
    requires 1 <= i <= n
    ensures Split(Externals(n), Externals(i - 1), ExternalName(i), e) && |Externals(i - 1)| == i - 1
    ensures Split(Edges(n), Edges(i - 1), EdgeName(i), d) && |Edges(i - 1)| == i - 1
    ensures Split(Supers(n), Supers(i - 1), SuperName(i), u) && |Supers(i - 1)| == i - 1
    ensures Split(Spines(pod, n), Spines(pod, i - 1), SpineName(pod, i), sp) && |Spines(pod, i - 1)| == i - 1
  {
    hide Externals, Edges, Supers, Spines, Split;
    TierNames(n, pod);
    TierNames(i - 1, pod);
    e, d, u, sp := Externals(n)[i..], Edges(n)[i..], Supers(n)[i..], Spines(pod, n)[i..];
    SplitAt(Externals(n), Externals(i - 1), ExternalName(i));
    SplitAt(Edges(n), Edges(i - 1), EdgeName(i));
    SplitAt(Supers(n), Supers(i - 1), SuperName(i));
    SplitAt(Spines(pod, n), Spines(pod, i - 1), SpineName(pod, i));
  }

  lemma {:induction false} TierNames(n: nat, pod: string)
    ensures |Externals(n)| == |Edges(n)| == |Supers(n)| == |Spines(pod, n)| == n
    ensures forall i :: 0 <= i < n ==> Externals(n)[i] == ExternalName(i + 1) && Edges(n)[i] == EdgeName(i + 1)
    ensures forall i :: 0 <= i < n ==> Supers(n)[i] == SuperName(i + 1) && Spines(pod, n)[i] == SpineName(pod, i + 1)
  {
    if n > 0 { TierNames(n - 1, pod); }
  }

  /** A pod: first the links of its spines to the super-spines, then rack after rack. */
  lemma PodPlaces(k: nat, p: PodShape, t: nat, n: Name)
    requires t < |p.racks| && forall i, j :: 0 <= i < j < |p.racks| ==> p.racks[i] < p.racks[j]
    requires !n.SuperName? && (n.SpineName? ==> n.pod == p.name && 1 <= n.i <= p.spines)
    ensures SlotPlaces(PodItems(Supers(k), p), p.name, p.racks[t], p.servers, p.spines, (if n.SpineName? then k else 0) + 2 * t, n)
    ensures n.SpineName? ==> forall j :: 1 <= j <= k ==> Nth(PodItems(Supers(k), p), LinkName(SuperName(j), n), n, j)
  {
    hide Count, Nth, SlotPlaces, Mesh, Supers, Routers, RacksItems, Spines;
    var zs := Spines(p.name, p.spines);
    var routers, mesh, racks := Routers(zs), Mesh(Supers(k), zs), RacksItems(p.name, p.racks, p.servers, zs);
    var front := routers + mesh;
    assert PodItems(Supers(k), p) == front + racks;
    assert Away(routers, n) && Away(routers, LeafAName(p.name, p.racks[t])) && Away(routers, LeafBName(p.name, p.racks[t])) by {
      forall x | x in routers ensures !x.WireItem? { InRouters(zs, x); }
    }
    FrontCount(k, p, n);
    FrontCount(k, p, LeafAName(p.name, p.racks[t]));
    FrontCount(k, p, LeafBName(p.name, p.racks[t]));
    RacksPlaces(p.name, p.racks, p.servers, p.spines, t, n);
    SlotLater(front, racks, p.name, p.racks[t], p.servers, p.spines, 2 * t, n);
    if n.SpineName? {
      forall j: nat | 1 <= j <= k ensures Nth(PodItems(Supers(k), p), LinkName(SuperName(j), n), n, j) {
        PodMesh(k, p, n.i, j);
        NthInside(routers, mesh, racks, LinkName(SuperName(j), n), n, j);
      }
    }
  }

  lemma PodMesh(k: nat, p: PodShape, i: nat, j: nat)
    requires 1 <= i <= p.spines && 1 <= j <= k
    ensures var mesh, u, n := Mesh(Supers(k), Spines(p.name, p.spines)), SuperName(j), SpineName(p.name, i);
            && Nth(mesh, LinkName(u, n), n, j) && Nth(mesh, LinkName(u, n), u, i) && Count(mesh, {}, u) == p.spines
  {
    hide Count, Nth, Mesh, Supers, Spines;
    var _, _, us, _ := TierSplit(k, j, p.name);
    var _, _, _, rest := TierSplit(p.spines, i, p.name);
    var zs := Spines(p.name, p.spines);
    TierNames(p.spines, p.name);
    TierNames(k, p.name);
    TierNames(j - 1, p.name);
    forall x | x in Supers(k) ensures x !in zs {
      NamesAre(k, p.name, 0, x);
      NamesAre(p.spines, p.name, 0, x);
    }
    MeshPlace(Supers(j - 1), SuperName(j), us, zs, Spines(p.name, i - 1), SpineName(p.name, i), rest);
  }

  lemma FrontCount(k: nat, p: PodShape, n: Name)
    requires !n.SuperName?
    ensures Count(Routers(Spines(p.name, p.spines)) + Mesh(Supers(k), Spines(p.name, p.spines)), {}, n)
            == if n.SpineName? && n.pod == p.name && 1 <= n.i <= p.spines then k else 0
  {
    hide Count, Mesh, Supers, Routers, Spines;
    var zs := Spines(p.name, p.spines);
    assert Away(Routers(zs), n) by {
      forall x | x in Routers(zs) ensures !x.WireItem? { InRouters(zs, x); }
    }
    AwayCountsNothing(Routers(zs), {}, n);
    TierNames(k, p.name);
    TierNames(p.spines, p.name);
    NamesAre(p.spines, p.name, 0, n);
    NamesAre(k, p.name, 0, n);
    MeshLength(Supers(k), zs, n);
    CountConcat(Routers(zs), Mesh(Supers(k), zs), {}, n);
  }

  lemma {:induction false} PodsSplit(supers: seq<Name>, pods: seq<PodShape>, q: nat) returns (post: seq<Item>)
    requires q < |pods|
    ensures PodsItems(supers, pods) == PodsItems(supers, pods[..q]) + PodItems(supers, pods[q]) + post
  {
    hide PodItems;
    var init := pods[..|pods| - 1];
    if q == |init| {
      post := [];
      var all := PodsItems(supers, pods[..q]) + PodItems(supers, pods[q]);
      assert all + [] == all;
    } else {
      var mid := PodsSplit(supers, init, q);
      assert init[..q] == pods[..q];
      post := mid + PodItems(supers, pods[|pods| - 1]);
    }
  }

  /** Nothing built before a pod meets a device of it. */
  lemma AwayBefore(s: Shape, q: nat, n: Name)
    requires DistinctPods(s) && q < |s.pods| && PodOf(n) == s.pods[q].name && !n.ExternalName? && !n.EdgeName? && !n.SuperName?
    ensures Away(CoreItems(s) + PodsItems(Supers(s.supers), s.pods[..q]), n)
  {
    hide CoreItems, PodsItems, Supers, Items, HasNode, PodOf;
    var pre := CoreItems(s) + PodsItems(Supers(s.supers), s.pods[..q]);
    var post := PodsSplit(Supers(s.supers), s.pods, q);
    var pod := PodItems(Supers(s.supers), s.pods[q]);
    forall x | x in pre && x.WireItem? ensures x.ln.a != n && x.ln.z != n {
      ItemsSplit(s, q, post);
      assert x in Items(s);
      ItemsAre(s, x);
      if x in CoreItems(s) {
        InCore(s, x);
      } else {
        var p := PodsItemsCarryPod(s.supers, s.pods[..q], x);
        var i :| 0 <= i < q && s.pods[i] == p;
        assert s.pods[i].name != s.pods[q].name;
      }
      EndsPods(x.ln);
    }
  }

  lemma ItemsSplit(s: Shape, q: nat, post: seq<Item>)
    requires q < |s.pods|
    requires PodsItems(Supers(s.supers), s.pods)
             == PodsItems(Supers(s.supers), s.pods[..q]) + PodItems(Supers(s.supers), s.pods[q]) + post
    ensures Items(s) == (CoreItems(s) + PodsItems(Supers(s.supers), s.pods[..q])) + PodItems(Supers(s.supers), s.pods[q]) + post
  {
    hide CoreItems, PodsItems, PodItems;
  }

  lemma EndsPods(ln: LinkName)
    requires Adjacent(ln)
    ensures ln.z.EdgeName? || ln.z.SuperName? ==> ln.a.ExternalName? || ln.a.EdgeName?
    ensures ln.a.ExternalName? || ln.a.EdgeName? || ln.a.SuperName? || PodOf(ln.a) == PodOf(ln.z)
  {
  }

  /**
   The order of a build at the devices of a pod: on a spine the super-spines and then two links for each rack, slot by
   slot and leaf a before leaf b; on a leaf the spines, the other leaf, and then the servers; on a server leaf a and
   leaf b.
   */
  lemma PodDevicePlaces(s: Shape, q: nat, t: nat, n: Name)
    requires DistinctPods(s) && q < |s.pods| && t < |s.pods[q].racks| && HasNode(s, n)
    requires n.SpineName? || ((IsLeaf(n) || n.ServerName?) && n.rack == s.pods[q].racks[t])
    requires PodOf(n) == s.pods[q].name
    ensures var p, xs := s.pods[q], Items(s);
            && SlotPlaces(xs, p.name, p.racks[t], p.servers, p.spines, (if n.SpineName? then s.supers else 0) + 2 * t, n)
            && (n.SpineName? ==> forall j :: 1 <= j <= s.supers ==> Nth(xs, LinkName(SuperName(j), n), n, j))
  {
    hide CoreItems, PodsItems, PodItems, Supers, Items, SlotPlaces, Nth, Count, Away;
    var p := s.pods[q];
    var pre, pod := CoreItems(s) + PodsItems(Supers(s.supers), s.pods[..q]), PodItems(Supers(s.supers), p);
    var post := PodsSplit(Supers(s.supers), s.pods, q);
    ItemsSplit(s, q, post);
    var before := (if n.SpineName? then s.supers else 0) + 2 * t;
    var a, b := LeafAName(p.name, p.racks[t]), LeafBName(p.name, p.racks[t]);
    if n.SpineName? { OwnPod(s, q, n); }
    PodPlaces(s.supers, p, t, n);
    AwayBefore(s, q, n);
    AwayBefore(s, q, a);
    AwayBefore(s, q, b);
    AwayCountsNothing(pre, {}, n);
    AwayCountsNothing(pre, {}, a);
    AwayCountsNothing(pre, {}, b);
    SlotLater(pre, pod, p.name, p.racks[t], p.servers, p.spines, before, n);
    SlotEarlier(pre + pod, post, p.name, p.racks[t], p.servers, p.spines, before, n);
    if n.SpineName? {
      forall j: nat | 1 <= j <= s.supers ensures Nth(Items(s), LinkName(SuperName(j), n), n, j) {
        NthInside(pre, pod, post, LinkName(SuperName(j), n), n, j);
      }
    }
  }

  lemma OwnPod(s: Shape, q: nat, n: Name)
    requires DistinctPods(s) && q < |s.pods| && HasNode(s, n) && PodOf(n) == s.pods[q].name && n.SpineName?
    ensures 1 <= n.i <= s.pods[q].spines
  {
    var p :| p in s.pods && Hosts(p, n);
    var i :| 0 <= i < |s.pods| && s.pods[i] == p;
    assert i == q;
  }

  // ---------- above the pods ----------

  lemma CoreMeshes(s: Shape, x: nat, d: nat, u: nat)
    requires 1 <= x <= s.externals && 1 <= d <= s.edges && 1 <= u <= s.supers
    ensures var m1, m2 := Mesh(Externals(s.externals), Edges(s.edges)), Mesh(Edges(s.edges), Supers(s.supers));
            var e, f, g := ExternalName(x), EdgeName(d), SuperName(u);
            && Nth(m1, LinkName(e, f), e, d) && Nth(m1, LinkName(e, f), f, x)
            && Nth(m2, LinkName(f, g), f, u) && Nth(m2, LinkName(f, g), g, d)
            && Count(m1, {}, f) == s.externals && Count(m1, {}, g) == 0 && Count(m2, {}, g) == s.edges
  {
    hide Count, Nth, Mesh, Externals, Edges, Supers;
    var e, _, _, _ := TierSplit(s.externals, x, "");
    var _, f, _, _ := TierSplit(s.edges, d, "");
    var _, _, g, _ := TierSplit(s.supers, u, "");
    TierNames(s.externals, "");
    TierNames(s.edges, "");
    TierNames(s.supers, "");
    forall n
      ensures n in Externals(s.externals) ==> n !in Edges(s.edges)
      ensures n in Edges(s.edges) ==> n !in Supers(s.supers)
    {
      NamesAre(s.externals, "", 0, n);
      NamesAre(s.edges, "", 0, n);
      NamesAre(s.supers, "", 0, n);
    }
    MeshPlace(Externals(x - 1), ExternalName(x), e, Edges(s.edges), Edges(d - 1), EdgeName(d), f);
    MeshPlace(Edges(d - 1), EdgeName(d), f, Supers(s.supers), Supers(u - 1), SuperName(u), g);
    NamesAre(s.externals, "", 0, EdgeName(d));
    NamesAre(s.externals, "", 0, SuperName(u));
    NamesAre(s.edges, "", 0, EdgeName(d));
    NamesAre(s.edges, "", 0, SuperName(u));
    NamesAre(s.supers, "", 0, SuperName(u));
    MeshLength(Externals(s.externals), Edges(s.edges), EdgeName(d));
    MeshLength(Externals(s.externals), Edges(s.edges), SuperName(u));
    MeshLength(Edges(s.edges), Supers(s.supers), SuperName(u));
  }

  function CoreRouters(s: Shape): seq<Item> {
    Routers(Externals(s.externals)) + Routers(Edges(s.edges)) + Routers(Supers(s.supers))
  }

  lemma CoreAway(s: Shape, n: Name)
    ensures Away(CoreRouters(s), n)
    ensures CoreItems(s) == CoreRouters(s) + Mesh(Externals(s.externals), Edges(s.edges)) + Mesh(Edges(s.edges), Supers(s.supers))
  {
    hide Routers, Externals, Edges, Supers, Mesh;
    forall x | x in CoreRouters(s) ensures !x.WireItem? {
      InRouters(Externals(s.externals), x);
      InRouters(Edges(s.edges), x);
      InRouters(Supers(s.supers), x);
    }
  }

  /** The spines of the pods before one. */
  function SpinesIn(pods: seq<PodShape>): nat {
    if pods == [] then 0 else SpinesIn(pods[..|pods| - 1]) + pods[|pods| - 1].spines
  }

  lemma {:induction false} PodsCount(k: nat, pods: seq<PodShape>, u: nat)
    requires 1 <= u <= k
    ensures Count(PodsItems(Supers(k), pods), {}, SuperName(u)) == SpinesIn(pods)
  {
    hide Count, PodItems;
    if pods != [] {
      var init, p := pods[..|pods| - 1], pods[|pods| - 1];
      PodsCount(k, init, u);
      PodCount(k, p, u);
      CountConcat(PodsItems(Supers(k), init), PodItems(Supers(k), p), {}, SuperName(u));
    } else {
      NothingCounts();
    }
  }

  lemma PodCount(k: nat, p: PodShape, u: nat)
    requires 1 <= u <= k
    ensures Count(PodItems(Supers(k), p), {}, SuperName(u)) == p.spines
    ensures forall i :: 1 <= i <= p.spines ==> Nth(PodItems(Supers(k), p), LinkName(SuperName(u), SpineName(p.name, i)), SuperName(u), i)
  {
    hide Count, Nth, Mesh, Supers, Routers, RacksItems, Spines;
    var zs, n := Spines(p.name, p.spines), SuperName(u);
    var routers, mesh, racks := Routers(zs), Mesh(Supers(k), zs), RacksItems(p.name, p.racks, p.servers, zs);
    assert Away(routers, n) by {
      forall x | x in routers ensures !x.WireItem? { InRouters(zs, x); }
    }
    AwayCountsNothing(routers, {}, n);
    RacksCount(p.name, p.racks, p.servers, p.spines, n);
    CountConcat(routers, mesh, {}, n);
    CountConcat(routers + mesh, racks, {}, n);
    forall i: nat | 1 <= i <= p.spines
      ensures Nth(PodItems(Supers(k), p), LinkName(n, SpineName(p.name, i)), n, i)
    {
      PodMesh(k, p, i, u);
      NthInside(routers, mesh, racks, LinkName(n, SpineName(p.name, i)), n, i);
    }
    SuperInMesh(k, p, u);
  }

  lemma SuperInMesh(k: nat, p: PodShape, u: nat)
    requires 1 <= u <= k
    ensures Count(Mesh(Supers(k), Spines(p.name, p.spines)), {}, SuperName(u)) == p.spines
  {
    if p.spines > 0 {
      PodMesh(k, p, 1, u);
    } else {
      NoMesh(Supers(k), SuperName(u));
    }
  }

  lemma {:induction false} NoMesh(us: seq<Name>, n: Name)
    ensures Count(Mesh(us, []), {}, n) == 0
  {
    if us != [] {
      var before := Mesh(us[..|us| - 1], []);
      NoMesh(us[..|us| - 1], n);
      assert Mesh(us, []) == before + [] == before;
    }
  }

  /**
   The order of a build above the pods: on an external the edges; on an edge the externals and then the super-spines; on
   a super-spine the edges and then the spines, pod by pod.
   */
  lemma CoreDevicePlaces(s: Shape, x: nat, d: nat, u: nat)
    requires 1 <= x <= s.externals && 1 <= d <= s.edges && 1 <= u <= s.supers
    ensures var xs, e, f, g := Items(s), ExternalName(x), EdgeName(d), SuperName(u);
            && Nth(xs, LinkName(e, f), e, d) && Nth(xs, LinkName(e, f), f, x)
            && Nth(xs, LinkName(f, g), f, s.externals + u) && Nth(xs, LinkName(f, g), g, d)
            && forall q, i :: 0 <= q < |s.pods| && 1 <= i <= s.pods[q].spines ==>
                 Nth(xs, LinkName(g, SpineName(s.pods[q].name, i)), g, s.edges + SpinesIn(s.pods[..q]) + i)
  {
    hide Count, Nth, Mesh, Supers, Edges, Externals, CoreRouters, PodsItems, PodItems, CoreItems, Away, SpinesIn;
    var m1, m2 := Mesh(Externals(s.externals), Edges(s.edges)), Mesh(Edges(s.edges), Supers(s.supers));
    var e, f, g := ExternalName(x), EdgeName(d), SuperName(u);
    var r, pods := CoreRouters(s), PodsItems(Supers(s.supers), s.pods);
    CoreMeshes(s, x, d, u);
    forall n ensures CoreItems(s) == r + m1 + m2 && Count(r, {}, n) == 0 && Count(r + m1, {}, n) == Count(m1, {}, n) {
      CoreAway(s, n);
      AwayCountsNothing(r, {}, n);
      CountConcat(r, m1, {}, n);
    }
    assert Items(s) == r + m1 + m2 + pods;
    InMiddle(r, m1, m2, pods, LinkName(e, f), e, d);
    InMiddle(r, m1, m2, pods, LinkName(e, f), f, x);
    NthLater(r + m1, m2, LinkName(f, g), f, u);
    NthLater(r + m1, m2, LinkName(f, g), g, d);
    NthEarlier(r + m1 + m2, pods, LinkName(f, g), f, s.externals + u);
    NthEarlier(r + m1 + m2, pods, LinkName(f, g), g, d);
    CountConcat(r + m1, m2, {}, g);
    forall q: nat, i: nat | q < |s.pods| && 1 <= i <= s.pods[q].spines
      ensures Nth(Items(s), LinkName(g, SpineName(s.pods[q].name, i)), g, s.edges + SpinesIn(s.pods[..q]) + i)
    {
      SuperSpines(s, q, u, i);
    }
  }

  lemma InMiddle(r: seq<Item>, m1: seq<Item>, m2: seq<Item>, pods: seq<Item>, ln: LinkName, n: Name, c: nat)
    requires Count(r, {}, n) == 0 && Nth(m1, ln, n, c)
    ensures Nth(r + m1 + m2 + pods, ln, n, c)
  {
    hide Count, Nth;
    NthLater(r, m1, ln, n, c);
    NthEarlier(r + m1, m2, ln, n, c);
    NthEarlier(r + m1 + m2, pods, ln, n, c);
  }

  lemma SuperSpines(s: Shape, q: nat, u: nat, i: nat)
    requires q < |s.pods| && 1 <= i <= s.pods[q].spines && 1 <= u <= s.supers && Count(CoreItems(s), {}, SuperName(u)) == s.edges
    ensures Nth(Items(s), LinkName(SuperName(u), SpineName(s.pods[q].name, i)), SuperName(u), s.edges + SpinesIn(s.pods[..q]) + i)
  {
    hide Count, Nth, Supers, PodsItems, PodItems, CoreItems, SpinesIn;
    var g, supers := SuperName(u), Supers(s.supers);
    var ln := LinkName(g, SpineName(s.pods[q].name, i));
    var post := PodsSplit(supers, s.pods, q);
    ItemsSplit(s, q, post);
    var before := PodsItems(supers, s.pods[..q]);
    PodsCount(s.supers, s.pods[..q], u);
    PodCount(s.supers, s.pods[q], u);
    CountConcat(CoreItems(s), before, {}, g);
    NthLater(CoreItems(s) + before, PodItems(supers, s.pods[q]), ln, g, i);
    NthEarlier(CoreItems(s) + before + PodItems(supers, s.pods[q]), post, ln, g, s.edges + SpinesIn(s.pods[..q]) + i);
  }
}
