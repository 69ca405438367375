/**
 The allocation records of a lab: the ones a build writes, and the ones derived again from a topology's own
 devices and links. They are the same records, and their (pool, value) keys never collide.
 */
module Allocations {
  import opened Wrappers
  import opened Sequences
  import opened Ranges
  import opened Fabric
  import opened Script
  import opened ScriptFacts
  import opened Build
  import opened BuildInvariant
  import opened Certification
  import opened RestoreFacts
  import opened RackNumbers
  import opened Rebuilds
  import opened RebuildTheorems

  // ---------- derivation ----------

  datatype Derived = Derived(records: seq<Record>, rackSeen: set<(string, nat)>)

  function OrZero(x: Option<nat>): nat {
    if x.Some? then x.value else 0
  }

  function DeriveNode(d: Derived, node: Node): Derived {
    match node.spec
    case ServerSpec(_, _, _, _, _, _) => d
    case RouterSpec(_, _, asn, loopback) =>
      d.(records := d.records
                    + [Record(AsnOf(node.name), asn), Record(LoopbackOf(node.name), OrZero(LoopbackNumber(loopback)))])
    case LeafSpec(pod, rack, asn, loopback, _, _, vlanIP, _, _, _, _) =>
      var d1 := d.(records := d.records + [Record(LoopbackOf(node.name), OrZero(LoopbackNumber(loopback)))]);
      if (pod, rack) in d.rackSeen then d1
      else
        Derived(d1.records + [Record(RackAsnOf(pod, rack), asn), Record(VlanOf(pod, rack), OrZero(VlanNumber(vlanIP)))],
                d.rackSeen + {(pod, rack)})
  }

  function DeriveNodes(nodes: seq<Node>): Derived {
    if nodes == [] then Derived([], {}) else DeriveNode(DeriveNodes(nodes[..|nodes| - 1]), nodes[|nodes| - 1])
  }

  function DeriveLink(link: Link): seq<Record> {
    if !link.kind.Fabric? then []
    else [Record(P2POf(link.name), if link.a.address.Some? then OrZero(P2PNumber(link.a.address.value)) else 0)]
  }

  function DeriveLinks(links: seq<Link>): seq<Record> {
    if links == [] then [] else DeriveLinks(links[..|links| - 1]) + DeriveLink(links[|links| - 1])
  }

  function Derive(t: Topo): seq<Record> {
    DeriveNodes(t.nodes).records + DeriveLinks(t.links)
  }

  /** `DeriveAllocations`. */
  method DeriveAllocations(nodes: seq<Node>, links: seq<Link>) returns (allocs: seq<Record>)
    ensures allocs == Derive(Topo(nodes, links))
  {
    allocs := [];
    var rackSeen: set<(string, nat)> := {};
    for i := 0 to |nodes|
      invariant Derived(allocs, rackSeen) == DeriveNodes(nodes[..i])
    {
      assert nodes[..i + 1][..i] == nodes[..i];
      var n := nodes[i];
      match n.spec
      case ServerSpec(_, _, _, _, _, _) =>
      case RouterSpec(_, _, asn, loopback) =>
        allocs := allocs + [Record(AsnOf(n.name), asn), Record(LoopbackOf(n.name), OrZero(LoopbackNumber(loopback)))];
      case LeafSpec(pod, rack, asn, loopback, _, _, vlanIP, _, _, _, _) =>
        allocs := allocs + [Record(LoopbackOf(n.name), OrZero(LoopbackNumber(loopback)))];
        if (pod, rack) !in rackSeen {
          rackSeen := rackSeen + {(pod, rack)};
          allocs := allocs + [Record(RackAsnOf(pod, rack), asn), Record(VlanOf(pod, rack), OrZero(VlanNumber(vlanIP)))];
        }
    }
    assert nodes[..|nodes|] == nodes;
    ghost var fromNodes := allocs;
    for i := 0 to |links|
      invariant allocs == fromNodes + DeriveLinks(links[..i])
    {
      assert links[..i + 1][..i] == links[..i];
      if links[i].kind.Fabric? {
        allocs := allocs
          + [Record(P2POf(links[i].name), if links[i].a.address.Some? then OrZero(P2PNumber(links[i].a.address.value)) else 0)];
      }
    }
    assert links[..|links|] == links;
  }

  // ---------- ledgers ----------

  /** The number an owner's record shows. */
  function ValueOf(o: Owner, held: map<Owner, nat>): nat {
    if o.RackAsnOf? then RackAsn(o.rack) else Value(held, o)
  }

  predicate Owned(s: Shape, o: Owner) {
    Needs(s, o) || (o.RackAsnOf? && HasNode(s, LeafAName(o.pod, o.rack)))
  }

  function Owners(rs: seq<Record>): seq<Owner> {
    seq(|rs|, i requires 0 <= i < |rs| => rs[i].owner)
  }

  /** One record for every owner of the shape, showing the number it holds, and no other. */
  ghost predicate Ledger(rs: seq<Record>, s: Shape, held: map<Owner, nat>) {
    && Distinct(Owners(rs))
    && (forall o :: o in Owners(rs) <==> Owned(s, o))
    && (forall rec :: rec in rs ==> rec.value == ValueOf(rec.owner, held))
  }

  lemma {:induction false} DistinctCount<T>(xs: seq<T>, x: T)
    requires Distinct(xs)
    ensures multiset(xs)[x] == if x in xs then 1 else 0
  {
    if xs != [] {
      var init, last := xs[..|xs| - 1], xs[|xs| - 1];
      assert xs == init + [last];
      DistinctAppend(init, last);
      DistinctCount(init, x);
    }
  }

  lemma InLedger(rs: seq<Record>, s: Shape, held: map<Owner, nat>, rec: Record)
    requires Ledger(rs, s, held)
    ensures rec in rs <==> Owned(s, rec.owner) && rec.value == ValueOf(rec.owner, held)
  {
    if rec in rs {
      var i :| 0 <= i < |rs| && rs[i] == rec;
      assert Owners(rs)[i] == rec.owner;
    }
    if Owned(s, rec.owner) && rec.value == ValueOf(rec.owner, held) {
      assert rec.owner in Owners(rs);
      var i :| 0 <= i < |rs| && Owners(rs)[i] == rec.owner;
      assert rs[i] in rs && rs[i] == rec;
    }
  }

  /** Two ledgers of one assignment are the same records, each once, in some order. */
  lemma LedgersAgree(rs: seq<Record>, rs': seq<Record>, s: Shape, held: map<Owner, nat>)
    requires Ledger(rs, s, held) && Ledger(rs', s, held)
    ensures multiset(rs) == multiset(rs')
  {
    hide Ledger, Owned;
    LedgerDistinct(rs, s, held);
    LedgerDistinct(rs', s, held);
    forall rec ensures multiset(rs)[rec] == multiset(rs')[rec] {
      InLedger(rs, s, held, rec);
      InLedger(rs', s, held, rec);
      DistinctCount(rs, rec);
      DistinctCount(rs', rec);
    }
  }

  lemma LedgerDistinct(rs: seq<Record>, s: Shape, held: map<Owner, nat>)
    requires Ledger(rs, s, held)
    ensures Distinct(rs)
  {
    forall i, j | 0 <= i < j < |rs| ensures rs[i] != rs[j] {
      assert Owners(rs)[i] != Owners(rs)[j];
    }
  }

  /** The primary key of the allocation table. */
  ghost predicate KeysUnique(rs: seq<Record>) {
    forall i, j :: 0 <= i < j < |rs| ==>
      PoolOf(rs[i].owner) != PoolOf(rs[j].owner) || rs[i].value != rs[j].value
  }

  /** Rack numbers of a lab that are told apart by the 32-bit leaf ASNs. */
  ghost predicate RacksFitWord(s: Shape) {
    forall pod, pod', r: nat, r': nat ::
      HasNode(s, LeafAName(pod, r)) && HasNode(s, LeafAName(pod', r')) && r % WORD == r' % WORD ==> r == r'
  }

  lemma SameKeySameOwner(s: Shape, held: map<Owner, nat>, o: Owner, o': Owner)
    requires DistinctPods(s) && Exclusive(held) && (forall p :: p in held <==> Needs(s, p)) && RacksFitWord(s)
    requires Owned(s, o) && Owned(s, o') && PoolOf(o) == PoolOf(o') && ValueOf(o, held) == ValueOf(o', held)
    ensures o == o'
  {
    hide DistinctPods, HasNode, HasLink;
    if o.RackAsnOf? {
      assert !o'.AsnOf?;
      RackAsnInjective(o.rack, o'.rack);
      RackHasOnePod(s, o.pod, o'.pod, o.rack);
    }
  }

  lemma LedgerKeysUnique(rs: seq<Record>, s: Shape, h: Holds)
    requires DistinctPods(s) && HoldsFit(s, h) && Ledger(rs, s, h.held) && RacksFitWord(s)
    ensures KeysUnique(rs)
  {
    hide DistinctPods, Owned, PortsExclusive, RacksFitWord, Exclusive;
    forall i, j | 0 <= i < j < |rs|
      ensures PoolOf(rs[i].owner) != PoolOf(rs[j].owner) || rs[i].value != rs[j].value
    {
      assert Owners(rs)[i] != Owners(rs)[j];
      assert Owners(rs)[i] in Owners(rs) && Owners(rs)[j] in Owners(rs);
      assert rs[i] in rs && rs[j] in rs;
      if PoolOf(rs[i].owner) == PoolOf(rs[j].owner) && rs[i].value == rs[j].value {
        SameKeySameOwner(s, h.held, rs[i].owner, rs[j].owner);
      }
    }
  }

  /** Two racks whose leaf ASNs coincide have two records with one key. */
  lemma UniqueKeysFitWord(rs: seq<Record>, s: Shape, held: map<Owner, nat>)
    requires Ledger(rs, s, held) && KeysUnique(rs)
    ensures RacksFitWord(s)
  {
    hide HasNode, HasLink, Distinct;
    forall pod, pod', r: nat, r': nat | HasNode(s, LeafAName(pod, r)) && HasNode(s, LeafAName(pod', r')) && r % WORD == r' % WORD
      ensures r == r'
    {
      var rec := Record(RackAsnOf(pod, r), RackAsn(r));
      var rec' := Record(RackAsnOf(pod', r'), RackAsn(r'));
      InLedger(rs, s, held, rec);
      InLedger(rs, s, held, rec');
      RackAsnInjective(r, r');
      var i :| 0 <= i < |rs| && rs[i] == rec;
      var j :| 0 <= j < |rs| && rs[j] == rec';
    }
  }

  /** The records of a certified topology have unique keys if and only if its rack numbers differ as 32-bit words. */
  lemma LedgerKeysUniqueIff(rs: seq<Record>, s: Shape, h: Holds)
    requires DistinctPods(s) && HoldsFit(s, h) && Ledger(rs, s, h.held)
    ensures KeysUnique(rs) <==> RacksFitWord(s)
  {
    hide DistinctPods, HoldsFit, Ledger, RacksFitWord, KeysUnique;
    if RacksFitWord(s) { LedgerKeysUnique(rs, s, h); }
    if KeysUnique(rs) { UniqueKeysFitWord(rs, s, h.held); }
  }

  // ---------- a build writes a ledger ----------

  function OwnerSeqIn(x: Item): seq<Owner> {
    match x
    case RouterItem(n) => [AsnOf(n), LoopbackOf(n)]
    case RackItem(pod, rack, _) =>
      [LoopbackOf(LeafAName(pod, rack)), LoopbackOf(LeafBName(pod, rack)), RackAsnOf(pod, rack), VlanOf(pod, rack)]
    case WireItem(ln) => if KindOf(ln).Fabric? then [P2POf(ln)] else []
  }

  function OwnerSeq(xs: seq<Item>): seq<Owner> {
    if xs == [] then [] else OwnerSeq(xs[..|xs| - 1]) + OwnerSeqIn(xs[|xs| - 1])
  }

  function RecordsFor(os: seq<Owner>, held: map<Owner, nat>): seq<Record> {
    seq(|os|, i requires 0 <= i < |os| => Record(os[i], ValueOf(os[i], held)))
  }

  lemma {:induction false} OwnerSeqIs(xs: seq<Item>, o: Owner)
    ensures o in OwnerSeq(xs) <==>
            o in OwnersOf(xs) || (o.RackAsnOf? && exists x :: x in xs && x.RackItem? && x.pod == o.pod && x.rack == o.rack)
  {
    if xs != [] {
      var init, last := xs[..|xs| - 1], xs[|xs| - 1];
      assert xs == init + [last] && last in xs;
      OwnerSeqIs(init, o);
    }
  }

  lemma {:induction false} OwnerSeqDistinct(xs: seq<Item>)
    requires OneEach(xs) && AllWellFormed(xs)
    ensures Distinct(OwnerSeq(xs))
    ensures forall o :: o in OwnerSeq(xs) ==> exists x :: x in xs && OwnerKey(o) == Key(x)
  {
    if xs != [] {
      var init, last := xs[..|xs| - 1], xs[|xs| - 1];
      assert xs == init + [last] && last in xs;
      LastIsFresh(xs);
      OwnerSeqDistinct(init);
      forall o | o in OwnerSeqIn(last) ensures OwnerKey(o) == Key(last) {
      }
      DistinctConcat(OwnerSeq(init), OwnerSeqIn(last));
    }
  }

  lemma RouterRecords(st: St, done: seq<Item>, n: Name)
    requires FreshItem(done, RouterItem(n)) && Inv(st, done) && AddRouter(st, n).Some?
    ensures Extends(st.held, AddRouter(st, n).value.held)
    ensures AddRouter(st, n).value.records == st.records + RecordsFor(OwnerSeqIn(RouterItem(n)), AddRouter(st, n).value.held)
  {
    hide Take, Books, BuiltInv, PortsInv, OwnersOf, FreshItem, RouterNode;
    FreshOwners(done, RouterItem(n), AsnOf(n));
    FreshOwners(done, RouterItem(n), LoopbackOf(n));
    TakeKeepsHeld(st, AsnOf(n), OwnersOf(done));
    TakeKeepsHeld(Take(st, AsnOf(n)).value, LoopbackOf(n), OwnersOf(done) + {AsnOf(n)});
  }

  lemma RackRecords(st: St, done: seq<Item>, x: Item)
    requires x.RackItem? && FreshItem(done, x) && Inv(st, done) && AddRack(st, x.pod, x.rack, x.servers).Some?
    ensures var st' := AddRack(st, x.pod, x.rack, x.servers).value;
            Extends(st.held, st'.held) && st'.records == st.records + RecordsFor(OwnerSeqIn(x), st'.held)
  {
    hide Take, Books, BuiltInv, PortsInv, OwnersOf, FreshItem, LeafNode, ServerNodes;
    FreshOwners(done, x, VlanOf(x.pod, x.rack));
    FreshOwners(done, x, LoopbackOf(LeafAName(x.pod, x.rack)));
    FreshOwners(done, x, LoopbackOf(LeafBName(x.pod, x.rack)));
    TakeRack(st, x.pod, x.rack, OwnersOf(done));
  }

  lemma WireRecords(st: St, done: seq<Item>, ln: LinkName)
    requires FreshItem(done, WireItem(ln)) && Inv(st, done) && AddLink(st, ln).Some?
    ensures Extends(st.held, AddLink(st, ln).value.held)
    ensures AddLink(st, ln).value.records == st.records + RecordsFor(OwnerSeqIn(WireItem(ln)), AddLink(st, ln).value.held)
  {
    hide Take, Books, BuiltInv, PortsInv, OwnersOf, AddPorts, FreshItem, LinkWith;
    if KindOf(ln).Fabric? {
      FreshOwners(done, WireItem(ln), P2POf(ln));
      TakeKeepsHeld(st, P2POf(ln), OwnersOf(done));
      PortsOnly(Take(st, P2POf(ln)).value, ln);
    } else {
      PortsOnly(st, ln);
      assert st.records + [] == st.records;
    }
  }

  lemma StepRecords(st: St, done: seq<Item>, x: Item)
    requires FreshItem(done, x) && Inv(st, done) && Step(st, x).Some?
    ensures Extends(st.held, Step(st, x).value.held)
    ensures Step(st, x).value.records == st.records + RecordsFor(OwnerSeqIn(x), Step(st, x).value.held)
  {
    hide Inv, FreshItem, AddRouter, AddRack, AddLink, RecordsFor, OwnerSeqIn;
    match x
    case RouterItem(n) => RouterRecords(st, done, n);
    case RackItem(_, _, _) => RackRecords(st, done, x);
    case WireItem(ln) => WireRecords(st, done, ln);
  }

  lemma PortsOnly(st: St, ln: LinkName)
    ensures AddPorts(st, ln).held == st.held && AddPorts(st, ln).records == st.records
  {
  }

  lemma RecordsKeep(os: seq<Owner>, held: map<Owner, nat>, held': map<Owner, nat>)
    requires Extends(held, held') && forall o :: o in os ==> o in held || o.RackAsnOf?
    ensures RecordsFor(os, held) == RecordsFor(os, held')
  {
  }

  lemma RecordsConcat(os: seq<Owner>, ps: seq<Owner>, held: map<Owner, nat>)
    ensures RecordsFor(os + ps, held) == RecordsFor(os, held) + RecordsFor(ps, held)
  {
  }

  lemma {:induction false} RunRecords(st: St, xs: seq<Item>)
    requires Inv(st, []) && OneEach(xs) && AllWellFormed(xs) && Run(st, xs).Some? && st.records == []
    ensures Run(st, xs).value.records == RecordsFor(OwnerSeq(xs), Run(st, xs).value.held)
  {
    if xs != [] {
      hide Inv, OneEach, FreshItem, Step, RecordsFor, AllWellFormed;
      var init, last := xs[..|xs| - 1], xs[|xs| - 1];
      LastIsFresh(xs);
      assert AllWellFormed(init) by { FreshParts(init, last); }
      RunRecords(st, init);
      RunKeepsInv(st, init);
      var s1 := Run(st, init).value;
      StepRecords(s1, init, last);
      forall o | o in OwnerSeq(init) ensures o in s1.held || o.RackAsnOf? {
        OwnerSeqIs(init, o);
        HeldKeys(s1, init);
      }
      RecordsKeep(OwnerSeq(init), s1.held, Step(s1, last).value.held);
      RecordsConcat(OwnerSeq(init), OwnerSeqIn(last), Step(s1, last).value.held);
    }
  }

  lemma HeldKeys(st: St, done: seq<Item>)
    requires Inv(st, done)
    ensures st.held.Keys == OwnersOf(done)
  {
  }

  lemma OwnerSeqOfItems(s: Shape, o: Owner)
    requires DistinctPods(s)
    ensures o in OwnerSeq(Items(s)) <==> Owned(s, o)
  {
    hide Items, OwnerSeq, DistinctPods;
    OwnerSeqIs(Items(s), o);
    OwnersOfItems(s, o);
    if o.RackAsnOf? {
      if x :| x in Items(s) && x.RackItem? && x.pod == o.pod && x.rack == o.rack {
        ItemsAre(s, x);
        var p :| p in s.pods && p.name == x.pod && x.rack in p.racks;
        assert Hosts(p, LeafAName(o.pod, o.rack));
      }
      if HasNode(s, LeafAName(o.pod, o.rack)) {
        var p :| p in s.pods && Hosts(p, LeafAName(o.pod, o.rack));
        ItemsAre(s, RackItem(o.pod, o.rack, p.servers));
      }
    }
  }

  /** The records of a rebuild are a ledger of its result. */
  lemma RebuildWritesLedger(spec: TopologySpec, base: Topo, s: Shape, h: Holds)
    requires Certified(base, s, h) && DistinctIds(spec.pods) && Rebuild(spec, base).Some?
    ensures var st := Rebuild(spec, base).value; Ledger(st.records, NewShape(spec, base), st.held)
  {
    hide Certified, Inv, Items, SlotsReady, DistinctPods, PodsNumbered, OneEach, OwnerSeq, Run, AllWellFormed, Owned;
    ReplayCertified(base, s, h);
    var r := RestoreBase(base).value;
    ShapeIsDistinct(r, spec);
    var s' := ShapeFor(r, spec);
    ItemsDiffer(s');
    ItemsAreWellFormed(s');
    RunRecords(r.st, Items(s'));
    OwnerSeqDistinct(Items(s'));
    var st := Rebuild(spec, base).value;
    assert Owners(st.records) == OwnerSeq(Items(s'));
    forall o ensures o in OwnerSeq(Items(s')) <==> Owned(s', o) { OwnerSeqOfItems(s', o); }
  }

  // ---------- derivation gives a ledger ----------

  ghost predicate NodesDerived(d: Derived, ns: seq<Name>, held: map<Owner, nat>) {
    && d.rackSeen == RacksIn(ns)
    && Distinct(Owners(d.records))
    && (forall o :: o in Owners(d.records) <==> o in PinnedBy(ns) || (o.RackAsnOf? && (o.pod, o.rack) in RacksIn(ns)))
    && (forall rec :: rec in d.records ==> rec.value == ValueOf(rec.owner, held))
  }

  lemma OwnersConcat(rs: seq<Record>, rs': seq<Record>)
    ensures Owners(rs + rs') == Owners(rs) + Owners(rs')
  {
  }

  /** Adding exactly the records that were missing for one more device. */
  lemma DerivedGrows(d: Derived, ns: seq<Name>, n: Name, added: seq<Record>, d': Derived, held: map<Owner, nat>)
    requires NodesDerived(d, ns, held) && d'.records == d.records + added && d'.rackSeen == RacksIn(ns + [n])
    requires Distinct(Owners(added)) && forall rec :: rec in added ==> rec.value == ValueOf(rec.owner, held)
    requires forall o :: o in Owners(added) <==>
               || (o in Pinned(n) && o !in PinnedBy(ns))
               || (o.RackAsnOf? && IsLeaf(n) && RackKey(n) == (o.pod, o.rack) && RackKey(n) !in RacksIn(ns))
    ensures NodesDerived(d', ns + [n], held)
  {
    hide PinnedBy, RacksIn, Distinct, ValueOf;
    PinnedByAppend(ns, n);
    PinnedByAre(ns, n, "", 0);
    OwnersConcat(d.records, added);
    DistinctConcat(Owners(d.records), Owners(added));
  }

  lemma DeriveOne(d: Derived, ns: seq<Name>, n: Name, held: map<Owner, nat>)
    requires NodesDerived(d, ns, held) && n !in ns && Exclusive(held) && NodeOwners(n) <= held.Keys
    ensures NodesDerived(DeriveNode(d, NodeOf(n, held)), ns + [n], held)
  {
    hide Exclusive, LoopbackNumber, VlanNumber, PinnedBy, RacksIn, LoopbackAt, VlanHost, Distinct, RackAsn, VrrpGroup, NodesDerived;
    var d' := DeriveNode(d, NodeOf(n, held));
    PinnedByAppend(ns, n);
    PinnedByAre(ns, n, PodOf(n), if IsLeaf(n) then n.rack else 0);
    RackSeenIs(d, ns, held);
    var added :=
      if n.ServerName? then []
      else if IsLeaf(n) then LeafRecords(d, n, held)
      else [Record(AsnOf(n), held[AsnOf(n)]), Record(LoopbackOf(n), held[LoopbackOf(n)])];
    if !n.ServerName? { NumbersOfNode(n, held); }
    assert d'.records == d.records + added;
    assert Owners(added) ==
      if n.ServerName? then []
      else if IsRouter(n) then [AsnOf(n), LoopbackOf(n)]
      else if (n.pod, n.rack) in d.rackSeen then [LoopbackOf(n)]
      else [LoopbackOf(n), RackAsnOf(n.pod, n.rack), VlanOf(n.pod, n.rack)];
    SmallDistinct(added);
    DerivedGrows(d, ns, n, added, d', held);
  }

  lemma RackSeenIs(d: Derived, ns: seq<Name>, held: map<Owner, nat>)
    requires NodesDerived(d, ns, held)
    ensures d.rackSeen == RacksIn(ns)
  {
  }

  function LeafRecords(d: Derived, n: Name, held: map<Owner, nat>): seq<Record>
    requires IsLeaf(n)
  {
    [Record(LoopbackOf(n), Value(held, LoopbackOf(n)))]
    + if (n.pod, n.rack) in d.rackSeen then []
      else [Record(RackAsnOf(n.pod, n.rack), RackAsn(n.rack)), Record(VlanOf(n.pod, n.rack), Value(held, VlanOf(n.pod, n.rack)))]
  }

  lemma SmallDistinct(rs: seq<Record>)
    requires |rs| <= 3 && (forall i, j :: 0 <= i < j < |rs| ==> rs[i].owner != rs[j].owner)
    ensures Distinct(Owners(rs))
  {
  }

  lemma NumbersOfNode(n: Name, held: map<Owner, nat>)
    requires Exclusive(held) && NodeOwners(n) <= held.Keys && !n.ServerName?
    ensures LoopbackNumber(NodeOf(n, held).spec.loopback) == Some(held[LoopbackOf(n)])
    ensures IsLeaf(n) ==> VlanNumber(NodeOf(n, held).spec.vlanIP) == Some(held[VlanOf(n.pod, n.rack)])
  {
  }

  lemma {:induction false} DeriveFromNodes(nodes: seq<Node>, held: map<Owner, nat>)
    requires Exclusive(held) && Rendered(nodes, held)
    ensures NodesDerived(DeriveNodes(nodes), NodeNames(nodes), held)
  {
    if nodes != [] {
      hide Exclusive, Rendered, NodesDerived, DeriveNode, NodeOf;
      var init, last := nodes[..|nodes| - 1], nodes[|nodes| - 1];
      RenderedPrefix(nodes, held);
      DeriveFromNodes(init, held);
      DeriveOne(DeriveNodes(init), NodeNames(init), last.name, held);
    }
  }

  ghost predicate LinksRendered(links: seq<Link>, h: Holds) {
    && Distinct(LinkNames(links))
    && forall link :: link in links ==>
         && link == LinkOf(link.name, h.held, h.ports) && (KindOf(link.name).Fabric? ==> P2POf(link.name) in h.held)
  }

  ghost predicate LinksDerived(rs: seq<Record>, ls: seq<LinkName>, held: map<Owner, nat>) {
    && Distinct(Owners(rs))
    && (forall o :: o in Owners(rs) <==> o.P2POf? && KindOf(o.ln).Fabric? && o.ln in ls)
    && (forall rec :: rec in rs ==> rec.value == ValueOf(rec.owner, held))
  }

  lemma DeriveOneLink(rs: seq<Record>, ls: seq<LinkName>, ln: LinkName, h: Holds)
    requires LinksDerived(rs, ls, h.held) && ln !in ls && Exclusive(h.held)
    requires KindOf(ln).Fabric? ==> P2POf(ln) in h.held
    ensures LinksDerived(rs + DeriveLink(LinkOf(ln, h.held, h.ports)), ls + [ln], h.held)
  {
    hide Exclusive, P2PNumber, P2PAt, Distinct;
    var added := DeriveLink(LinkOf(ln, h.held, h.ports));
    OwnersConcat(rs, added);
    if KindOf(ln).Fabric? {
      PoolBound(h.held, P2POf(ln));
      NumbersReadBack(h.held[P2POf(ln)], 0);
      assert added == [Record(P2POf(ln), h.held[P2POf(ln)])];
      DistinctAppend(Owners(rs), P2POf(ln));
      assert Owners(added) == [P2POf(ln)];
    } else {
      assert Owners(rs) + [] == Owners(rs);
    }
  }

  lemma {:induction false} DeriveFromLinks(links: seq<Link>, h: Holds)
    requires Exclusive(h.held) && LinksRendered(links, h)
    ensures LinksDerived(DeriveLinks(links), LinkNames(links), h.held)
  {
    if links != [] {
      hide Exclusive, LinksDerived, DeriveLink, LinkOf;
      var init, last := links[..|links| - 1], links[|links| - 1];
      assert LinkNames(links) == LinkNames(init) + [last.name];
      DistinctAppend(LinkNames(init), last.name);
      assert last in links && forall link :: link in init ==> link in links;
      DeriveFromLinks(init, h);
      DeriveOneLink(DeriveLinks(init), LinkNames(init), last.name, h);
    }
  }

  lemma LinksAreRendered(t: Topo, s: Shape, h: Holds)
    requires Certified(t, s, h)
    ensures LinksRendered(t.links, h)
  {
    hide LinkOf, DistinctPods, NodesCertified;
    forall link | link in t.links
      ensures KindOf(link.name).Fabric? ==> P2POf(link.name) in h.held
    {
      NamesOfLink(t, s, h, link);
      if KindOf(link.name).Fabric? { assert Needs(s, P2POf(link.name)); }
    }
  }

  /** Whatever order the records of a certified topology come in, deriving from them gives a ledger. */
  lemma DeriveGivesLedger(t: Topo, s: Shape, h: Holds)
    requires Certified(t, s, h)
    ensures Ledger(Derive(t), s, h.held)
  {
    hide Certified, Exclusive, Rendered, LinksRendered, DeriveNodes, DeriveLinks, PinnedBy, RacksIn, HasNode, HasLink, Distinct;
    FitParts(t, s, h);
    RenderedIfCertified(t, s, h);
    LinksAreRendered(t, s, h);
    DeriveFromNodes(t.nodes, h.held);
    DeriveFromLinks(t.links, h);
    var rs, rs' := DeriveNodes(t.nodes).records, DeriveLinks(t.links);
    OwnersConcat(rs, rs');
    PinnedByAre(NodeNames(t.nodes), ExternalName(0), "", 0);
    DistinctConcat(Owners(rs), Owners(rs'));
    forall o ensures o in Owners(Derive(t)) <==> Owned(s, o) { DerivedOwner(t, s, h, o); }
  }

  lemma DerivedOwner(t: Topo, s: Shape, h: Holds, o: Owner)
    requires Certified(t, s, h)
    ensures Owned(s, o) <==>
            || o in PinnedBy(NodeNames(t.nodes)) || (o.RackAsnOf? && (o.pod, o.rack) in RacksIn(NodeNames(t.nodes)))
            || (o.P2POf? && KindOf(o.ln).Fabric? && o.ln in LinkNames(t.links))
  {
    hide Exclusive, PortsExclusive, DistinctPods, PinnedBy, RacksIn, NodeOf, LinkOf, HasNode, HasLink;
    var ns := NodeNames(t.nodes);
    HoldsOf(t, s, h);
    if o.RackAsnOf? { RacksOfNames(t, s, h, o.pod, o.rack); }
    if o.VlanOf? { RacksOfNames(t, s, h, o.pod, o.rack); }
    if Needs(s, o) { PinComplete(t, s, h, o); }
    PinnedByAre(ns, if o.AsnOf? || o.LoopbackOf? then o.n else ExternalName(0), if o.VlanOf? then o.pod else "", if o.VlanOf? then o.rack else 0);
    if o in PinnedBy(ns) { PinnedKind(ns, o); }
  }

  lemma {:induction false} PinnedKind(ns: seq<Name>, o: Owner)
    requires o in PinnedBy(ns)
    ensures o.AsnOf? ==> IsRouter(o.n) && o.n in ns
    ensures o.LoopbackOf? ==> !o.n.ServerName? && o.n in ns
  {
    if ns != [] {
      if o in PinnedBy(ns[..|ns| - 1]) { PinnedKind(ns[..|ns| - 1], o); }
    }
  }

  // ---------- the results ----------

  /** Deriving from a build's result gives back exactly the records the build wrote. */
  lemma DeriveMatchesBuild(spec: TopologySpec, base: Topo, s: Shape, h: Holds)
    requires Certified(base, s, h) && DistinctIds(spec.pods) && Rebuild(spec, base).Some?
    ensures var st := Rebuild(spec, base).value; multiset(Derive(TopoOf(st))) == multiset(st.records)
  {
    hide Certified, Ledger, Rebuild, Derive, Agree;
    var st := Rebuild(spec, base).value;
    RebuildIsCertified(spec, base, s, h);
    RebuildWritesLedger(spec, base, s, h);
    DeriveGivesLedger(TopoOf(st), NewShape(spec, base), Holds(st.held, st.ports));
    LedgersAgree(Derive(TopoOf(st)), st.records, NewShape(spec, base), st.held);
  }

  /** The owners derived from a base are exactly those a rebuild on it treats as already served. */
  lemma DeriveMatchesRestore(base: Topo, s: Shape, h: Holds, rec: Record)
    requires Certified(base, s, h)
    ensures RestoreBase(base).Some?
    ensures IsNew(RestoreBase(base).value, rec) <==> rec.owner !in Owners(Derive(base))
  {
    hide Certified, Inv, SlotsReady, Derive, HasNode, HasLink;
    ReplayCertified(base, s, h);
    DeriveGivesLedger(base, s, h);
    HoldsOf(base, s, h);
    var o := rec.owner;
    if !o.RackAsnOf? { assert o in h.held <==> Needs(s, o); }
  }

  /** No two records a regular plan stores share their pool and value exactly when the rack numbers fit a word. */
  lemma RebuildKeysUniqueIff(spec: TopologySpec, base: Topo, s: Shape, h: Holds)
    requires Certified(base, s, h) && DistinctIds(spec.pods) && Rebuild(spec, base).Some?
    ensures KeysUnique(Rebuild(spec, base).value.records) <==> RacksFitWord(NewShape(spec, base))
  {
    hide Certified, Ledger, Rebuild, Agree, RacksFitWord, KeysUnique;
    var st := Rebuild(spec, base).value;
    RebuildIsCertified(spec, base, s, h);
    RebuildWritesLedger(spec, base, s, h);
    FitParts(TopoOf(st), NewShape(spec, base), Holds(st.held, st.ports));
    HoldsOf(TopoOf(st), NewShape(spec, base), Holds(st.held, st.ports));
    LedgerKeysUniqueIff(st.records, NewShape(spec, base), Holds(st.held, st.ports));
  }

  /** The same for the records a rollback plan stores, which are derived from the generation it goes back to. */
  lemma RollbackKeysUniqueIff(target: Topo, s: Shape, h: Holds)
    requires Certified(target, s, h)
    ensures KeysUnique(Derive(target)) <==> RacksFitWord(s)
  {
    hide Certified, Ledger, RacksFitWord, KeysUnique, Derive;
    DeriveGivesLedger(target, s, h);
    FitParts(target, s, h);
    HoldsOf(target, s, h);
    LedgerKeysUniqueIff(Derive(target), s, h);
  }
}
