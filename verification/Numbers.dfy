/**
 Which number an owner gets. A build hands out each pool's numbers one after the other, in the order its records come
 in and from the first number behind everything deployed.
 */
module Numbers {
  import opened Wrappers
  import opened Ranges
  import opened Fabric
  import opened Script
  import opened ScriptFacts
  import opened BuildOrder
  import opened Build
  import opened BuildInvariant
  import opened Certification
  import opened RackNumbers
  import opened Rebuilds
  import opened RebuildTheorems
  import opened Growth
  import opened Allocations

  /** How many of the owners take a number of the pool that was not deployed with them. */
  function NewIn(os: seq<Owner>, deployed: set<Owner>, p: Pool): nat {
    if os == [] then 0
    else
      var o := os[|os| - 1];
      NewIn(os[..|os| - 1], deployed, p) + if o !in deployed && PoolOf(o) == p then 1 else 0
  }

  lemma {:induction false} NewInConcat(os: seq<Owner>, ps: seq<Owner>, deployed: set<Owner>, p: Pool)
    ensures NewIn(os + ps, deployed, p) == NewIn(os, deployed, p) + NewIn(ps, deployed, p)
  {
    if ps == [] {
      assert os + ps == os;
    } else {
      NewInConcat(os, ps[..|ps| - 1], deployed, p);
      assert (os + ps)[..|os + ps| - 1] == os + ps[..|ps| - 1];
    }
  }

  lemma FewNew(o: Owner, o': Owner, deployed: set<Owner>, p: Pool)
    ensures NewIn([], deployed, p) == 0
    ensures NewIn([o], deployed, p) == if o !in deployed && PoolOf(o) == p then 1 else 0
    ensures NewIn([o, o'], deployed, p) == NewIn([o], deployed, p) + if o' !in deployed && PoolOf(o') == p then 1 else 0
    ensures [o, o'][..1] == [o] && [o, o'][..0] == [] && [o][..0] == []
  {
    assert [o, o'][..1] == [o];
  }

  function Cursor(ranges: map<Pool, Range<Owner>>, p: Pool): nat {
    if p in ranges then ranges[p].next else 0
  }

  lemma TakeGives(st: St, o: Owner)
    requires RangesSound(st.ranges) && Take(st, o).Some? && HasRange(PoolOf(o))
    ensures var st' := Take(st, o).value;
            && RangesSound(st'.ranges) && st'.pins == st.pins && o in st'.held
            && (forall p :: Cursor(st'.ranges, p) == Cursor(st.ranges, p) + if p == PoolOf(o) && o !in st.pins then 1 else 0)
            && (o !in st.pins ==> st'.held[o] == Cursor(st.ranges, PoolOf(o)))
            && forall q :: q != o ==> (q in st'.held <==> q in st.held) && (q in st.held ==> st'.held[q] == st.held[q])
  {
    hide RangesSound, Sound, First, Last;
    var p := PoolOf(o);
    PoolSound(st.ranges, p);
    if o !in st.pins {
      AllocateIsFresh(st.ranges[p], o);
      RangesStaySound(st.ranges, p, Allocate(st.ranges[p], o).value.range);
    }
  }

  /** New owners of the list hold the numbers from the cursors on, pool by pool and in order. */
  ghost predicate Numbered(st: St, st': St, os: seq<Owner>) {
    && st'.pins == st.pins
    && (forall p :: HasRange(p) ==> Cursor(st'.ranges, p) == Cursor(st.ranges, p) + NewIn(os, st.pins.Keys, p))
    && forall i :: 0 <= i < |os| && HasRange(PoolOf(os[i])) && os[i] !in st.pins ==>
         && os[i] in st'.held
         && st'.held[os[i]] == Cursor(st.ranges, PoolOf(os[i])) + NewIn(os[..i], st.pins.Keys, PoolOf(os[i]))
  }

  /** An owner or two, taken in order. */
  lemma TwoNumbered(st: St, st': St, o: Owner, o': Owner)
    requires o != o' && PoolOf(o) != PoolOf(o') && st'.pins == st.pins
    requires HasRange(PoolOf(o)) && HasRange(PoolOf(o'))
    requires forall p :: Cursor(st'.ranges, p) == Cursor(st.ranges, p)
                         + (if p == PoolOf(o) && o !in st.pins then 1 else 0) + if p == PoolOf(o') && o' !in st.pins then 1 else 0
    requires o in st'.held && o' in st'.held
    requires o !in st.pins ==> st'.held[o] == Cursor(st.ranges, PoolOf(o))
    requires o' !in st.pins ==> st'.held[o'] == Cursor(st.ranges, PoolOf(o'))
    ensures Numbered(st, st', [o, o'])
  {
    hide Cursor, NewIn, HasRange, PoolOf;
    forall p | HasRange(p) ensures Cursor(st'.ranges, p) == Cursor(st.ranges, p) + NewIn([o, o'], st.pins.Keys, p) {
      FewNew(o, o', st.pins.Keys, p);
    }
    FewNew(o, o', st.pins.Keys, PoolOf(o));
    FewNew(o, o', st.pins.Keys, PoolOf(o'));
  }

  lemma OneNumbered(st: St, st': St, o: Owner)
    requires HasRange(PoolOf(o)) && st'.pins == st.pins && o in st'.held
    requires forall p :: Cursor(st'.ranges, p) == Cursor(st.ranges, p) + if p == PoolOf(o) && o !in st.pins then 1 else 0
    requires o !in st.pins ==> st'.held[o] == Cursor(st.ranges, PoolOf(o))
    ensures Numbered(st, st', [o])
  {
    hide Cursor, NewIn, HasRange, PoolOf;
    forall p | HasRange(p) ensures Cursor(st'.ranges, p) == Cursor(st.ranges, p) + NewIn([o], st.pins.Keys, p) {
      FewNew(o, o, st.pins.Keys, p);
    }
    FewNew(o, o, st.pins.Keys, PoolOf(o));
  }

  lemma RouterNumbers(st: St, n: Name)
    requires RangesSound(st.ranges) && IsRouter(n) && AddRouter(st, n).Some?
    ensures RangesSound(AddRouter(st, n).value.ranges) && Numbered(st, AddRouter(st, n).value, OwnerSeqIn(RouterItem(n)))
  {
    hide RangesSound, Take, RouterNode, Cursor, Numbered;
    TakeGives(st, AsnOf(n));
    TakeGives(Take(st, AsnOf(n)).value, LoopbackOf(n));
    TwoNumbered(st, AddRouter(st, n).value, AsnOf(n), LoopbackOf(n));
  }

  lemma WireNumbers(st: St, ln: LinkName)
    requires RangesSound(st.ranges) && AddLink(st, ln).Some?
    ensures RangesSound(AddLink(st, ln).value.ranges) && Numbered(st, AddLink(st, ln).value, OwnerSeqIn(WireItem(ln)))
  {
    hide RangesSound, Take, LinkWith, Cursor, Numbered;
    if KindOf(ln).Fabric? {
      TakeGives(st, P2POf(ln));
      OneNumbered(st, AddLink(st, ln).value, P2POf(ln));
    } else {
      SameNumbers(st, AddLink(st, ln).value);
    }
  }

  lemma SameNumbers(st: St, st': St)
    requires st'.pins == st.pins && st'.ranges == st.ranges
    ensures Numbered(st, st', [])
  {
  }

  lemma RackTakes(st: St, pod: string, rack: nat, servers: nat)
    requires RangesSound(st.ranges) && AddRack(st, pod, rack, servers).Some?
    ensures var st' := AddRack(st, pod, rack, servers).value;
            var a, b, v := LoopbackOf(LeafAName(pod, rack)), LoopbackOf(LeafBName(pod, rack)), VlanOf(pod, rack);
            && RangesSound(st'.ranges) && st'.pins == st.pins && a in st'.held && b in st'.held && v in st'.held
            && (a !in st.pins ==> st'.held[a] == Cursor(st.ranges, Loopback))
            && (b !in st.pins ==> st'.held[b] == Cursor(st.ranges, Loopback) + if a in st.pins then 0 else 1)
            && (v !in st.pins ==> st'.held[v] == Cursor(st.ranges, ServerVlan))
            && forall p :: Cursor(st'.ranges, p) == Cursor(st.ranges, p)
                           + (if p == ServerVlan && v !in st.pins then 1 else 0)
                           + (if p == Loopback && a !in st.pins then 1 else 0)
                           + if p == Loopback && b !in st.pins then 1 else 0
  {
    hide RangesSound, Take, LeafNode, ServerNodes, Cursor;
    var a, b := LoopbackOf(LeafAName(pod, rack)), LoopbackOf(LeafBName(pod, rack));
    TakeGives(st, VlanOf(pod, rack));
    var s1 := Take(st, VlanOf(pod, rack)).value;
    TakeGives(s1, a);
    TakeGives(Take(s1, a).value, b);
  }

  lemma RackCounts(pod: string, rack: nat, servers: nat, deployed: set<Owner>, p: Pool)
    ensures var a, b, v := LoopbackOf(LeafAName(pod, rack)), LoopbackOf(LeafBName(pod, rack)), VlanOf(pod, rack);
            var os := OwnerSeqIn(RackItem(pod, rack, servers));
            && os == [a, b, RackAsnOf(pod, rack), v]
            && (HasRange(p) ==> NewIn(os, deployed, p) == (if p == ServerVlan && v !in deployed then 1 else 0)
                                + (if p == Loopback && a !in deployed then 1 else 0)
                                + if p == Loopback && b !in deployed then 1 else 0)
            && NewIn(os[..0], deployed, Loopback) == 0
            && NewIn(os[..1], deployed, Loopback) == (if a in deployed then 0 else 1)
            && NewIn(os[..3], deployed, ServerVlan) == 0
  {
    hide NewIn;
    var a, b, leaf, v := LoopbackOf(LeafAName(pod, rack)), LoopbackOf(LeafBName(pod, rack)), RackAsnOf(pod, rack), VlanOf(pod, rack);
    var os := OwnerSeqIn(RackItem(pod, rack, servers));
    assert os == [a, b] + [leaf, v] && os[..3] == [a, b] + [leaf] && os[..1] == [a] && os[..0] == [];
    FewNew(a, b, deployed, p);
    FewNew(leaf, v, deployed, p);
    NewInConcat([a, b], [leaf, v], deployed, p);
    FewNew(a, b, deployed, Loopback);
    FewNew(a, b, deployed, ServerVlan);
    FewNew(leaf, v, deployed, ServerVlan);
    NewInConcat([a, b], [leaf], deployed, ServerVlan);
  }

  lemma RackNumbered(st: St, pod: string, rack: nat, servers: nat)
    requires RangesSound(st.ranges) && AddRack(st, pod, rack, servers).Some?
    ensures RangesSound(AddRack(st, pod, rack, servers).value.ranges)
    ensures Numbered(st, AddRack(st, pod, rack, servers).value, OwnerSeqIn(RackItem(pod, rack, servers)))
  {
    hide AddRack, RangesSound, NewIn, Cursor;
    RackTakes(st, pod, rack, servers);
    forall p { RackCounts(pod, rack, servers, st.pins.Keys, p); }
  }

  lemma StepNumbers(st: St, x: Item)
    requires RangesSound(st.ranges) && WellFormedItem(x) && Step(st, x).Some?
    ensures RangesSound(Step(st, x).value.ranges) && Numbered(st, Step(st, x).value, OwnerSeqIn(x))
  {
    hide Numbered, RangesSound, AddRouter, AddRack, AddLink, OwnerSeqIn;
    match x
    case RouterItem(n) => RouterNumbers(st, n);
    case RackItem(pod, rack, servers) => RackNumbered(st, pod, rack, servers);
    case WireItem(ln) => WireNumbers(st, ln);
  }

  lemma NumberedTwice(st: St, s1: St, st': St, os: seq<Owner>, ps: seq<Owner>)
    requires Numbered(st, s1, os) && Numbered(s1, st', ps) && Extends(s1.held, st'.held)
    ensures Numbered(st, st', os + ps)
  {
    hide NewIn, Cursor, PoolOf, HasRange;
    var all, deployed := os + ps, st.pins.Keys;
    forall p ensures NewIn(all, deployed, p) == NewIn(os, deployed, p) + NewIn(ps, deployed, p) { NewInConcat(os, ps, deployed, p); }
    forall i | 0 <= i < |all| && HasRange(PoolOf(all[i])) && all[i] !in st.pins
      ensures all[i] in st'.held
      ensures st'.held[all[i]] == Cursor(st.ranges, PoolOf(all[i])) + NewIn(all[..i], deployed, PoolOf(all[i]))
    {
      if i < |os| {
        assert all[i] == os[i] && all[..i] == os[..i] && os[i] in s1.held;
      } else {
        var k := i - |os|;
        assert all[i] == ps[k] && all[..i] == os + ps[..k];
        NewInConcat(os, ps[..k], deployed, PoolOf(ps[k]));
      }
    }
  }

  lemma {:induction false} RunNumbers(st: St, xs: seq<Item>)
    requires Inv(st, []) && RangesSound(st.ranges) && OneEach(xs) && AllWellFormed(xs) && Run(st, xs).Some?
    ensures RangesSound(Run(st, xs).value.ranges) && Numbered(st, Run(st, xs).value, OwnerSeq(xs))
  {
    hide Inv, OneEach, FreshItem, Step, AllWellFormed, Numbered, RangesSound, WellFormedItem;
    if xs == [] {
      SameNumbers(st, st);
    } else {
      var init, last := xs[..|xs| - 1], xs[|xs| - 1];
      LastIsFresh(xs);
      FreshParts(init, last);
      RunNumbers(st, init);
      RunKeepsInv(st, init);
      StepNumbers(Run(st, init).value, last);
      StepRecords(Run(st, init).value, init, last);
      NumberedTwice(st, Run(st, init).value, Run(st, xs).value, OwnerSeq(init), OwnerSeqIn(last));
    }
  }

  /** The first number of a pool behind every deployed one. */
  ghost predicate NextNumber(held: map<Owner, nat>, p: Pool, c: nat) {
    && (forall o :: o in held && PoolOf(o) == p ==> held[o] < c)
    && (c == First(p) || exists o :: o in held && PoolOf(o) == p && held[o] + 1 == c)
  }

  lemma OneNextNumber(held: map<Owner, nat>, p: Pool, c: nat, c': nat)
    requires Exclusive(held) && NextNumber(held, p, c) && NextNumber(held, p, c')
    ensures c == c'
  {
  }

  lemma CursorIsNext(ranges: map<Pool, Range<Owner>>, held: map<Owner, nat>, p: Pool)
    requires RangesSound(ranges) && Booked(ranges, held) && Tight(ranges) && HasRange(p)
    ensures NextNumber(held, p, Cursor(ranges, p))
  {
    PoolSound(ranges, p);
    hide RangesSound, Booked, Tight, Sound, First, Last, PoolOf;
    BookedBelow(ranges, held, p);
    TightTop(ranges, held, p);
  }

  lemma BookedBelow(ranges: map<Pool, Range<Owner>>, held: map<Owner, nat>, p: Pool)
    requires Booked(ranges, held) && p in ranges && Sound(ranges[p])
    ensures forall o :: o in held && PoolOf(o) == p ==> held[o] < Cursor(ranges, p)
  {
    hide PoolOf;
  }

  lemma TightTop(ranges: map<Pool, Range<Owner>>, held: map<Owner, nat>, p: Pool)
    requires Booked(ranges, held) && Tight(ranges) && p in ranges
    ensures Cursor(ranges, p) == First(p) || exists o :: o in held && PoolOf(o) == p && held[o] + 1 == Cursor(ranges, p)
  {
    hide PoolOf, First;
    var range := ranges[p];
    if range.next != First(p) {
      var o := range.held[range.next - 1];
      assert o in held && PoolOf(o) == p && held[o] + 1 == range.next;
    }
  }

  lemma BaseTight(base: Topo)
    requires RestoreBase(base).Some?
    ensures Tight(RestoreBase(base).value.st.ranges)
  {
    hide RestoreNodes, RestoreLinks, SortedSlots;
    var start := Restored(Empty(), {}, map[], 0);
    assert Tight(start.st.ranges);
    NodesTight(start, base.nodes);
    LinksTight(RestoreNodes(start, base.nodes).value.st, base.links);
  }

  /**
   In the records of a rebuild, a number not deployed with its owner is the first one of its pool behind everything
   deployed, or as far past it as new owners of the pool come before it.
   */
  lemma NewNumbersInOrder(spec: TopologySpec, base: Topo, s: Shape, h: Holds, i: nat, c: nat)
    requires Certified(base, s, h) && DistinctIds(spec.pods) && Rebuild(spec, base).Some?
    requires i < |Rebuild(spec, base).value.records|
    requires var o := Rebuild(spec, base).value.records[i].owner; o !in h.held && !o.RackAsnOf? && NextNumber(h.held, PoolOf(o), c)
    ensures var records := Rebuild(spec, base).value.records;
            records[i].value == c + NewIn(Owners(records[..i]), h.held.Keys, PoolOf(records[i].owner))
  {
    hide Certified, Inv, Items, SlotsReady, DistinctPods, PodsNumbered, OneEach, OwnerSeq, Run, AllWellFormed, RangesSound, Tight,
      NextNumber, Exclusive, NewIn, Cursor;
    ReplayCertified(base, s, h);
    var r := RestoreBase(base).value;
    ShapeIsDistinct(r, spec);
    var xs := Items(ShapeFor(r, spec));
    ItemsDiffer(ShapeFor(r, spec));
    ItemsAreWellFormed(ShapeFor(r, spec));
    ReplayedBooks(r, s, h);
    RunNumbers(r.st, xs);
    RunRecords(r.st, xs);
    var st := Run(r.st, xs).value;
    var o := OwnerSeq(xs)[i];
    assert st.records[i].owner == o && Owners(st.records[..i]) == OwnerSeq(xs)[..i];
    OwnerHasRange(xs, o);
    BaseTight(base);
    HoldsExclusive(base, s, h);
    CursorIsNext(r.st.ranges, h.held, PoolOf(o));
    OneNextNumber(h.held, PoolOf(o), c, Cursor(r.st.ranges, PoolOf(o)));
  }

  lemma OwnerHasRange(xs: seq<Item>, o: Owner)
    requires AllWellFormed(xs) && o in OwnerSeq(xs) && !o.RackAsnOf?
    ensures HasRange(PoolOf(o))
  {
    hide OwnerSeq, OwnersOf, HasRange;
    OwnerSeqIs(xs, o);
    MembersOf(xs, o, ExternalName(0), LinkName(ExternalName(0), ExternalName(0)));
    var x :| x in xs && o in OwnersIn(x);
    ItemOwnersHaveRanges(x, o);
  }

  lemma ItemOwnersHaveRanges(x: Item, o: Owner)
    requires WellFormedItem(x) && o in OwnersIn(x)
    ensures HasRange(PoolOf(o))
  {
  }

  lemma HoldsExclusive(t: Topo, s: Shape, h: Holds)
    requires Certified(t, s, h)
    ensures Exclusive(h.held)
  {
    hide NodesCertified, LinksCertified, Exclusive, DistinctPods;
  }

  // ---------- the order of the devices ----------

  lemma {:induction false} RoutersAre(ns: seq<Name>)
    ensures |Routers(ns)| == |ns| && forall i :: 0 <= i < |ns| ==> Routers(ns)[i] == RouterItem(ns[i])
  {
    if ns != [] { RoutersAre(ns[..|ns| - 1]); }
  }

  /** Externals, edges and super-spines are created first, in this order; a pod starts with its spines and a rack with its leaves. */
  lemma DevicesInOrder(s: Shape, p: PodShape, rack: nat, i: nat)
    ensures i < s.externals ==> |Items(s)| > i && Items(s)[i] == RouterItem(ExternalName(i + 1))
    ensures i < s.edges ==> |Items(s)| > s.externals + i && Items(s)[s.externals + i] == RouterItem(EdgeName(i + 1))
    ensures i < s.supers ==>
              |Items(s)| > s.externals + s.edges + i && Items(s)[s.externals + s.edges + i] == RouterItem(SuperName(i + 1))
    ensures i < p.spines ==>
              |PodItems(Supers(s.supers), p)| > i && PodItems(Supers(s.supers), p)[i] == RouterItem(SpineName(p.name, i + 1))
    ensures RackItems(p.name, rack, p.servers, Spines(p.name, p.spines))[0] == RackItem(p.name, rack, p.servers)
  {
    TierNames(s.externals, p.name);
    TierNames(s.edges, p.name);
    TierNames(s.supers, p.name);
    TierNames(p.spines, p.name);
    hide Externals, Edges, Supers, Spines, Mesh, PodsItems, RacksItems, Routers, Uplinks, AccessLinks;
    RoutersAre(Externals(s.externals));
    RoutersAre(Edges(s.edges));
    RoutersAre(Supers(s.supers));
    RoutersAre(Spines(p.name, p.spines));
  }
}
