/** What every step of a build keeps: each number has one holder and each interface one link. */
module BuildInvariant {
  import opened Wrappers
  import opened Ranges
  import opened Fabric
  import opened Script
  import opened ScriptFacts
  import opened Build

  /** Every pool's books are the exact inverse of `m`: no number is held twice or by nobody. */
  ghost predicate Booked(ranges: map<Pool, Range<Owner>>, m: map<Owner, nat>) {
    && (forall o :: o in m ==>
          && PoolOf(o) in ranges && m[o] in ranges[PoolOf(o)].held && ranges[PoolOf(o)].held[m[o]] == o)
    && (forall p, v :: p in ranges && v in ranges[p].held ==>
          var o := ranges[p].held[v]; o in m && m[o] == v && PoolOf(o) == p)
  }

  ghost predicate RangesSound(ranges: map<Pool, Range<Owner>>) {
    && (forall p :: p in ranges <==> HasRange(p))
    && forall p :: p in ranges ==>
         && Sound(ranges[p]) && ranges[p].released == [] && ranges[p].end < WORD - 1
         && ranges[p].start == First(p) && ranges[p].end == Last(p)
  }

  predicate InPool(o: Owner, v: nat) {
    HasRange(PoolOf(o)) && First(PoolOf(o)) <= v <= Last(PoolOf(o))
  }

  /** Owners of one pool hold different numbers of it. */
  ghost predicate Exclusive(m: map<Owner, nat>) {
    && (forall o :: o in m ==> InPool(o, m[o]))
    && forall o, o' :: o in m && o' in m && PoolOf(o) == PoolOf(o') && m[o] == m[o'] ==> o == o'
  }

  lemma BookedIsExclusive(ranges: map<Pool, Range<Owner>>, m: map<Owner, nat>)
    requires RangesSound(ranges) && Booked(ranges, m)
    ensures Exclusive(m)
  {
  }

  /** Which end of which link: the z end is `true`. */
  function NodeAt(ln: LinkName, end: bool): Name {
    if end then ln.z else ln.a
  }

  function PortAt(ports: map<LinkName, (nat, nat)>, ln: LinkName, end: bool): nat
    requires ln in ports
  {
    if end then ports[ln].1 else ports[ln].0
  }

  /** No two link ends share an interface of a node. */
  ghost predicate PortsExclusive(ports: map<LinkName, (nat, nat)>) {
    forall l, e, l', e' ::
      l in ports && l' in ports && NodeAt(l, e) == NodeAt(l', e') && PortAt(ports, l, e) == PortAt(ports, l', e')
      ==> l == l' && e == e'
  }

  ghost predicate PortsBelow(ports: map<LinkName, (nat, nat)>, ifIndex: map<Name, nat>) {
    forall l, e :: l in ports ==> 1 <= PortAt(ports, l, e) <= Index(ifIndex, NodeAt(l, e))
  }

  // ---------- what an item needs ----------

  function NodeOwners(n: Name): set<Owner> {
    if IsLeaf(n) then {LoopbackOf(n), VlanOf(n.pod, n.rack)}
    else if n.ServerName? then {VlanOf(n.pod, n.rack)}
    else {AsnOf(n), LoopbackOf(n)}
  }

  function OwnersIn(x: Item): set<Owner> {
    match x
    case RouterItem(n) => {AsnOf(n), LoopbackOf(n)}
    case RackItem(pod, rack, _) =>
      {VlanOf(pod, rack), LoopbackOf(LeafAName(pod, rack)), LoopbackOf(LeafBName(pod, rack))}
    case WireItem(ln) => if KindOf(ln).Fabric? then {P2POf(ln)} else {}
  }

  function NamesIn(x: Item): seq<Name> {
    match x
    case RouterItem(n) => [n]
    case RackItem(pod, rack, n) => [LeafAName(pod, rack), LeafBName(pod, rack)] + Servers(pod, rack, n)
    case WireItem(_) => []
  }

  function WiresIn(x: Item): seq<LinkName> {
    if x.WireItem? then [x.ln] else []
  }

  function OwnersOf(xs: seq<Item>): set<Owner> {
    if xs == [] then {} else OwnersOf(xs[..|xs| - 1]) + OwnersIn(xs[|xs| - 1])
  }

  function NamesOf(xs: seq<Item>): seq<Name> {
    if xs == [] then [] else NamesOf(xs[..|xs| - 1]) + NamesIn(xs[|xs| - 1])
  }

  function WiresOf(xs: seq<Item>): seq<LinkName> {
    if xs == [] then [] else WiresOf(xs[..|xs| - 1]) + WiresIn(xs[|xs| - 1])
  }

  function NodesOf(ns: seq<Name>, held: map<Owner, nat>): seq<Node> {
    seq(|ns|, i requires 0 <= i < |ns| => NodeOf(ns[i], held))
  }

  function LinksOf(ls: seq<LinkName>, held: map<Owner, nat>, ports: map<LinkName, (nat, nat)>): seq<Link> {
    seq(|ls|, i requires 0 <= i < |ls| => LinkOf(ls[i], held, ports))
  }

  predicate WellFormedItem(x: Item) {
    match x
    case RouterItem(n) => IsRouter(n)
    case RackItem(_, _, _) => true
    case WireItem(ln) => Adjacent(ln)
  }

  /** The item an owner belongs to. */
  function OwnerKey(o: Owner): Item {
    match o
    case AsnOf(n) => RouterItem(n)
    case LoopbackOf(n) => if IsLeaf(n) then RackItem("", n.rack, 0) else RouterItem(n)
    case P2POf(ln) => WireItem(ln)
    case VlanOf(_, rack) => RackItem("", rack, 0)
    case RackAsnOf(_, rack) => RackItem("", rack, 0)
  }

  /** The item a node is created by. */
  function NameKey(n: Name): Item {
    if IsLeaf(n) || n.ServerName? then RackItem("", n.rack, 0) else RouterItem(n)
  }

  lemma NamesInAre(x: Item, n: Name)
    requires WellFormedItem(x) && n in NamesIn(x)
    ensures NameKey(n) == Key(x) && NodeOwners(n) <= OwnersIn(x)
  {
    if x.RackItem? && n !in [LeafAName(x.pod, x.rack), LeafBName(x.pod, x.rack)] {
      NamesAre(x.servers, x.pod, x.rack, n);
    }
  }

  lemma {:induction false} MembersOf(xs: seq<Item>, o: Owner, n: Name, ln: LinkName)
    requires AllWellFormed(xs)
    ensures o in OwnersOf(xs) <==> exists x :: x in xs && o in OwnersIn(x)
    ensures n in NamesOf(xs) <==> exists x :: x in xs && n in NamesIn(x)
    ensures n in NamesOf(xs) ==> NodeOwners(n) <= OwnersOf(xs)
    ensures ln in WiresOf(xs) <==> WireItem(ln) in xs
    ensures ln in WiresOf(xs) && KindOf(ln).Fabric? ==> P2POf(ln) in OwnersOf(xs)
  {
    if xs != [] {
      var init, last := xs[..|xs| - 1], xs[|xs| - 1];
      assert xs == init + [last] && last in xs;
      MembersOf(init, o, n, ln);
      if n in NamesIn(last) {
        NamesInAre(last, n);
      }
    }
  }

  // ---------- the invariant ----------

  ghost predicate HeldInv(st: St, done: seq<Item>) {
    && Books(st.ranges, st.pins + st.held)
    && st.held.Keys == OwnersOf(done)
    && (forall o :: o in st.held && o in st.pins ==> st.held[o] == st.pins[o])
  }

  ghost predicate BuiltInv(st: St, done: seq<Item>) {
    && st.nodes == NodesOf(NamesOf(done), st.held)
    && st.links == LinksOf(WiresOf(done), st.held, st.ports)
  }

  ghost predicate PortsInv(st: St, done: seq<Item>) {
    && (forall ln :: ln in st.ports <==> ln in WiresOf(done))
    && (forall ln :: ln in st.ports && ln in st.basePorts ==> st.ports[ln] == st.basePorts[ln])
    && PortsExclusive(st.basePorts + st.ports)
    && PortsBelow(st.basePorts + st.ports, st.ifIndex)
  }

  ghost predicate Inv(st: St, done: seq<Item>) {
    HeldInv(st, done) && BuiltInv(st, done) && PortsInv(st, done)
  }

  lemma AllocateIsFresh(r: Range<Owner>, o: Owner)
    requires Sound(r) && r.released == [] && r.end < WORD - 1 && Allocate(r, o).Some?
    ensures var g := Allocate(r, o).value;
            && g.number !in r.held && r.start <= g.number <= r.end
            && g.range == r.(next := g.range.next, held := r.held[g.number := o]) && Sound(g.range)
  {
  }

  lemma BooksGrow(ranges: map<Pool, Range<Owner>>, m: map<Owner, nat>, o: Owner, v: nat, r: Range<Owner>)
    requires Booked(ranges, m)
    requires o !in m && PoolOf(o) in ranges
    requires v !in ranges[PoolOf(o)].held && r.held == ranges[PoolOf(o)].held[v := o]
    ensures Booked(ranges[PoolOf(o) := r], m[o := v])
  {
    var ranges', m' := ranges[PoolOf(o) := r], m[o := v];
    forall o' | o' in m'
      ensures PoolOf(o') in ranges' && m'[o'] in ranges'[PoolOf(o')].held && ranges'[PoolOf(o')].held[m'[o']] == o'
    {
      if o' != o {
        assert o' in m && m'[o'] == m[o'];
        assert m[o'] in ranges[PoolOf(o')].held;
      }
    }
    forall p, x | p in ranges' && x in ranges'[p].held
      ensures var o' := ranges'[p].held[x]; o' in m' && m'[o'] == x && PoolOf(o') == p
    {
      if p != PoolOf(o) || x != v {
        assert x in ranges[p].held && ranges[p].held[x] == ranges'[p].held[x];
      }
    }
  }

  lemma RangesStaySound(ranges: map<Pool, Range<Owner>>, p: Pool, r: Range<Owner>)
    requires RangesSound(ranges) && p in ranges && Sound(r)
    requires r.released == [] && r.start == ranges[p].start && r.end == ranges[p].end
    ensures RangesSound(ranges[p := r])
  {
  }

  ghost predicate Books(ranges: map<Pool, Range<Owner>>, m: map<Owner, nat>) {
    RangesSound(ranges) && Booked(ranges, m)
  }

  lemma MergeUpdate(m: map<Owner, nat>, m': map<Owner, nat>, o: Owner, v: nat)
    ensures m + m'[o := v] == (m + m')[o := v]
  {
  }

  lemma MergePinned(m: map<Owner, nat>, m': map<Owner, nat>, o: Owner)
    requires o in m && o !in m'
    ensures m + m'[o := m[o]] == m + m'
  {
  }

  /** A grant is the pinned number, or one nobody holds; the books stay exact. */
  lemma TakeKeepsBooks(st: St, o: Owner)
    requires Books(st.ranges, st.pins + st.held)
    requires o !in st.held && Take(st, o).Some?
    ensures var st' := Take(st, o).value;
            && Books(st'.ranges, st'.pins + st'.held)
            && o in st'.held && st' == st.(ranges := st'.ranges, held := st.held[o := st'.held[o]])
            && (o in st.pins ==> st'.held[o] == st.pins[o])
  {
    hide Books, Allocate;
    if o in st.pins {
      MergePinned(st.pins, st.held, o);
    } else {
      TakeFresh(st.ranges, st.pins + st.held, o);
      MergeUpdate(st.pins, st.held, o, Take(st, o).value.held[o]);
    }
  }

  lemma TakeFresh(ranges: map<Pool, Range<Owner>>, m: map<Owner, nat>, o: Owner)
    requires Books(ranges, m) && o !in m && PoolOf(o) in ranges && Allocate(ranges[PoolOf(o)], o).Some?
    ensures var g := Allocate(ranges[PoolOf(o)], o).value; Books(ranges[PoolOf(o) := g.range], m[o := g.number])
  {
    var p := PoolOf(o);
    var g := Allocate(ranges[p], o).value;
    assert Sound(ranges[p]) && ranges[p].released == [] && ranges[p].end < WORD - 1;
    AllocateIsFresh(ranges[p], o);
    RangesStaySound(ranges, p, g.range);
    BooksGrow(ranges, m, o, g.number, g.range);
  }

  lemma NodesKeep(ns: seq<Name>, held: map<Owner, nat>, held': map<Owner, nat>)
    requires forall n, o :: n in ns && o in NodeOwners(n) ==> o in held && o in held' && held[o] == held'[o]
    ensures NodesOf(ns, held) == NodesOf(ns, held')
  {
    forall i | 0 <= i < |ns|
      ensures NodeOf(ns[i], held) == NodeOf(ns[i], held')
    {
      forall o | o in NodeOwners(ns[i]) ensures Value(held, o) == Value(held', o) { assert ns[i] in ns; }
    }
  }

  lemma LinksKeep(ls: seq<LinkName>, held: map<Owner, nat>, ports: map<LinkName, (nat, nat)>,
                  held': map<Owner, nat>, ports': map<LinkName, (nat, nat)>)
    requires forall ln :: ln in ls ==> ln in ports && ln in ports' && ports[ln] == ports'[ln]
    requires forall ln :: ln in ls && KindOf(ln).Fabric? ==>
               P2POf(ln) in held && P2POf(ln) in held' && held[P2POf(ln)] == held'[P2POf(ln)]
    ensures LinksOf(ls, held, ports) == LinksOf(ls, held', ports')
  {
  }

  ghost predicate Extends<K, V>(m: map<K, V>, m': map<K, V>) {
    forall k :: k in m ==> k in m' && m'[k] == m[k]
  }

  /** Taking numbers nobody asked for before leaves everything already built as it is. */
  lemma GrowKeepsBuilt(st: St, done: seq<Item>, held': map<Owner, nat>, ports': map<LinkName, (nat, nat)>)
    requires AllWellFormed(done) && Inv(st, done)
    requires Extends(st.held, held') && Extends(st.ports, ports')
    ensures st.nodes == NodesOf(NamesOf(done), held')
    ensures st.links == LinksOf(WiresOf(done), held', ports')
  {
    hide Books, PortsExclusive, PortsBelow, OwnersOf, NamesOf, WiresOf;
    forall n, o | n in NamesOf(done) && o in NodeOwners(n)
      ensures o in st.held
    {
      MembersOf(done, o, n, LinkName(n, n));
    }
    NodesKeep(NamesOf(done), st.held, held');
    forall ln | ln in WiresOf(done) && KindOf(ln).Fabric?
      ensures P2POf(ln) in st.held
    {
      MembersOf(done, P2POf(ln), ln.a, ln);
    }
    LinksKeep(WiresOf(done), st.held, st.ports, held', ports');
  }

  ghost predicate AllWellFormed(xs: seq<Item>) {
    forall x :: x in xs ==> WellFormedItem(x)
  }

  ghost predicate FreshItem(done: seq<Item>, x: Item) {
    && AllWellFormed(done) && WellFormedItem(x)
    && forall y :: y in done ==> Key(y) != Key(x)
  }

  lemma FreshParts(done: seq<Item>, x: Item)
    requires FreshItem(done, x)
    ensures AllWellFormed(done) && WellFormedItem(x)
  {
  }

  lemma OwnersInAre(x: Item, o: Owner)
    requires WellFormedItem(x) && o in OwnersIn(x)
    ensures OwnerKey(o) == Key(x)
  {
  }

  lemma FreshOwners(done: seq<Item>, x: Item, o: Owner)
    requires FreshItem(done, x) && o in OwnersIn(x)
    ensures o !in OwnersOf(done)
  {
    MembersOf(done, o, ExternalName(0), LinkName(ExternalName(0), ExternalName(0)));
    OwnersInAre(x, o);
    if o in OwnersOf(done) {
      var y :| y in done && o in OwnersIn(y);
      OwnersInAre(y, o);
    }
  }

  lemma NewWire(done: seq<Item>, ln: LinkName)
    requires FreshItem(done, WireItem(ln))
    ensures ln !in WiresOf(done) && ln.a != ln.z
  {
    MembersOf(done, AsnOf(ln.a), ln.a, ln);
  }

  lemma Extend(done: seq<Item>, x: Item)
    ensures OwnersOf(done + [x]) == OwnersOf(done) + OwnersIn(x)
    ensures NamesOf(done + [x]) == NamesOf(done) + NamesIn(x)
    ensures WiresOf(done + [x]) == WiresOf(done) + WiresIn(x)
  {
  }

  lemma NodesOfConcat(ns: seq<Name>, ms: seq<Name>, held: map<Owner, nat>)
    ensures NodesOf(ns + ms, held) == NodesOf(ns, held) + NodesOf(ms, held)
  {
  }

  lemma LinksOfConcat(ls: seq<LinkName>, ms: seq<LinkName>, held: map<Owner, nat>, ports: map<LinkName, (nat, nat)>)
    ensures LinksOf(ls + ms, held, ports) == LinksOf(ls, held, ports) + LinksOf(ms, held, ports)
  {
  }

  lemma {:induction false} ServersRendered(pod: string, rack: nat, n: nat, held: map<Owner, nat>)
    ensures ServerNodes(pod, rack, n, Value(held, VlanOf(pod, rack))) == NodesOf(Servers(pod, rack, n), held)
  {
    if n > 0 {
      ServersRendered(pod, rack, n - 1, held);
    }
  }

  // ---------- one item ----------

  /** Granting one more owner keeps the books and the record of who was served. */
  lemma TakeKeepsHeld(st: St, o: Owner, owners: set<Owner>)
    requires Books(st.ranges, st.pins + st.held) && st.held.Keys == owners
    requires forall p :: p in st.held && p in st.pins ==> st.held[p] == st.pins[p]
    requires o !in owners && Take(st, o).Some?
    ensures var st' := Take(st, o).value;
            && Books(st'.ranges, st'.pins + st'.held) && st'.held.Keys == owners + {o}
            && (forall p :: p in st'.held && p in st'.pins ==> st'.held[p] == st'.pins[p])
            && Extends(st.held, st'.held) && st' == st.(ranges := st'.ranges, held := st'.held)
  {
    hide Books;
    TakeKeepsBooks(st, o);
  }

  lemma PortsUntouched(st: St, st': St, done: seq<Item>, x: Item)
    requires PortsInv(st, done) && !x.WireItem?
    requires st'.ports == st.ports && st'.basePorts == st.basePorts && st'.ifIndex == st.ifIndex
    ensures PortsInv(st', done + [x]) && WiresOf(done + [x]) == WiresOf(done)
  {
  }

  lemma StepRouter(st: St, done: seq<Item>, n: Name)
    requires FreshItem(done, RouterItem(n)) && Inv(st, done) && AddRouter(st, n).Some?
    ensures Inv(AddRouter(st, n).value, done + [RouterItem(n)])
    ensures AddRouter(st, n).value.pins == st.pins && AddRouter(st, n).value.basePorts == st.basePorts
  {
    hide Take, Books, PortsInv, OwnersOf, NamesOf, WiresOf, NodesOf, LinksOf, AllWellFormed;
    var x, st' := RouterItem(n), AddRouter(st, n).value;
    FreshOwners(done, x, AsnOf(n));
    FreshOwners(done, x, LoopbackOf(n));
    TakeKeepsHeld(st, AsnOf(n), OwnersOf(done));
    TakeKeepsHeld(Take(st, AsnOf(n)).value, LoopbackOf(n), OwnersOf(done) + {AsnOf(n)});
    GrowKeepsBuilt(st, done, st'.held, st.ports);
    Extend(done, x);
    PortsUntouched(st, st', done, x);
    NodesOfConcat(NamesOf(done), [n], st'.held);
    OneNode(n, st'.held);
  }

  lemma OneNode(n: Name, held: map<Owner, nat>)
    ensures NodesOf([n], held) == [NodeOf(n, held)]
  {
  }

  lemma StepRack(st: St, done: seq<Item>, pod: string, rack: nat, servers: nat)
    requires FreshItem(done, RackItem(pod, rack, servers)) && Inv(st, done) && AddRack(st, pod, rack, servers).Some?
    ensures Inv(AddRack(st, pod, rack, servers).value, done + [RackItem(pod, rack, servers)])
    ensures AddRack(st, pod, rack, servers).value.pins == st.pins
    ensures AddRack(st, pod, rack, servers).value.basePorts == st.basePorts
  {
    hide Take, Books, PortsInv, OwnersOf, NamesOf, WiresOf, NodesOf, LinksOf, Servers, ServerNodes;
    var x, st' := RackItem(pod, rack, servers), AddRack(st, pod, rack, servers).value;
    var a, b := LeafAName(pod, rack), LeafBName(pod, rack);
    FreshOwners(done, x, VlanOf(pod, rack));
    FreshOwners(done, x, LoopbackOf(a));
    FreshOwners(done, x, LoopbackOf(b));
    TakeRack(st, pod, rack, OwnersOf(done));
    GrowKeepsBuilt(st, done, st'.held, st.ports);
    Extend(done, x);
    PortsUntouched(st, st', done, x);
    ServersRendered(pod, rack, servers, st'.held);
    NodesOfConcat(NamesOf(done), NamesIn(x), st'.held);
    NodesOfConcat([a, b], Servers(pod, rack, servers), st'.held);
    NodesOfConcat([a], [b], st'.held);
    OneNode(a, st'.held);
    OneNode(b, st'.held);
    assert [a] + [b] == [a, b];
  }

  lemma TakeRack(st: St, pod: string, rack: nat, owners: set<Owner>)
    requires Books(st.ranges, st.pins + st.held) && st.held.Keys == owners
    requires forall p :: p in st.held && p in st.pins ==> st.held[p] == st.pins[p]
    requires OwnersIn(RackItem(pod, rack, 0)) !! owners && AddRack(st, pod, rack, 0).Some?
    ensures var s1 := Take(st, VlanOf(pod, rack)).value;
            var s2 := Take(s1, LoopbackOf(LeafAName(pod, rack))).value;
            var s3 := Take(s2, LoopbackOf(LeafBName(pod, rack))).value;
            && Books(s3.ranges, s3.pins + s3.held) && s3.held.Keys == owners + OwnersIn(RackItem(pod, rack, 0))
            && (forall p :: p in s3.held && p in s3.pins ==> s3.held[p] == s3.pins[p])
            && Extends(st.held, s3.held) && s3 == st.(ranges := s3.ranges, held := s3.held)
  {
    hide Take, Books;
    var o1, o2, o3 := VlanOf(pod, rack), LoopbackOf(LeafAName(pod, rack)), LoopbackOf(LeafBName(pod, rack));
    TakeKeepsHeld(st, o1, owners);
    var s1 := Take(st, o1).value;
    TakeKeepsHeld(s1, o2, owners + {o1});
    TakeKeepsHeld(Take(s1, o2).value, o3, owners + {o1, o2});
  }

  /** A new link lands past every interface in use on either end; a deployed one stays where it is. */
  lemma PortsStay(st: St, ln: LinkName)
    requires ln.a != ln.z && ln !in st.ports
    requires PortsExclusive(st.basePorts + st.ports) && PortsBelow(st.basePorts + st.ports, st.ifIndex)
    ensures var st' := AddPorts(st, ln);
            && PortsExclusive(st'.basePorts + st'.ports) && PortsBelow(st'.basePorts + st'.ports, st'.ifIndex)
            && st' == st.(ifIndex := st'.ifIndex, ports := st.ports[ln := st'.ports[ln]])
            && (ln in st.basePorts ==> st'.ports[ln] == st.basePorts[ln])
  {
    var st' := AddPorts(st, ln);
    var before, after := st.basePorts + st.ports, st'.basePorts + st'.ports;
    if ln in st.basePorts {
      assert after == before;
    } else {
      assert after == before[ln := st'.ports[ln]];
      forall l, e, l', e' | l in after && l' in after && NodeAt(l, e) == NodeAt(l', e') && PortAt(after, l, e) == PortAt(after, l', e')
        ensures l == l' && e == e'
      {
        if l != ln && l' != ln {
          assert PortAt(before, l, e) == PortAt(before, l', e');
        }
      }
      forall l, e | l in after
        ensures 1 <= PortAt(after, l, e) <= Index(st'.ifIndex, NodeAt(l, e))
      {
        if l != ln { assert PortAt(after, l, e) == PortAt(before, l, e); }
      }
    }
  }

  lemma PortsGrow(st: St, done: seq<Item>, ln: LinkName)
    requires FreshItem(done, WireItem(ln)) && PortsInv(st, done)
    ensures var st' := AddPorts(st, ln);
            && PortsInv(st', done + [WireItem(ln)]) && ln !in st.ports && ln in st'.ports
            && st' == st.(ifIndex := st'.ifIndex, ports := st.ports[ln := st'.ports[ln]])
  {
    hide AddPorts, PortsExclusive, PortsBelow, WiresOf, FreshItem;
    NewWire(done, ln);
    PortsStay(st, ln);
    Extend(done, WireItem(ln));
  }

  lemma PortsSame(st: St, st': St, done: seq<Item>)
    requires PortsInv(st, done) && st'.ports == st.ports && st'.basePorts == st.basePorts && st'.ifIndex == st.ifIndex
    ensures PortsInv(st', done)
  {
  }

  lemma WireBuilt(st: St, done: seq<Item>, ln: LinkName, st': St)
    requires FreshItem(done, WireItem(ln)) && Inv(st, done) && ln in st'.ports && st'.nodes == st.nodes
    requires Extends(st.held, st'.held) && Extends(st.ports, st'.ports)
    requires st'.links == st.links + [LinkWith(ln, Value(st'.held, P2POf(ln)), st'.ports[ln].0, st'.ports[ln].1)]
    ensures BuiltInv(st', done + [WireItem(ln)])
  {
    hide HeldInv, PortsInv, OwnersOf, NamesOf, WiresOf, NodesOf, LinksOf, LinkWith, LinkOf;
    FreshParts(done, WireItem(ln));
    hide FreshItem, AllWellFormed;
    GrowKeepsBuilt(st, done, st'.held, st'.ports);
    Extend(done, WireItem(ln));
    LinksOfConcat(WiresOf(done), [ln], st'.held, st'.ports);
    OneLink(ln, st'.held, st'.ports);
    LinkOnPorts(ln, st'.held, st'.ports);
    assert NamesOf(done) + [] == NamesOf(done);
  }

  lemma StepWire(st: St, done: seq<Item>, ln: LinkName)
    requires FreshItem(done, WireItem(ln)) && Inv(st, done) && AddLink(st, ln).Some?
    ensures Inv(AddLink(st, ln).value, done + [WireItem(ln)])
    ensures AddLink(st, ln).value.pins == st.pins && AddLink(st, ln).value.basePorts == st.basePorts
  {
    hide Take, AddPorts, Books, BuiltInv, PortsInv, OwnersOf, NamesOf, WiresOf, FreshItem, LinkWith;
    var x, st' := WireItem(ln), AddLink(st, ln).value;
    if KindOf(ln).Fabric? {
      FreshOwners(done, x, P2POf(ln));
      TakeKeepsHeld(st, P2POf(ln), OwnersOf(done));
    }
    var s1 := if KindOf(ln).Fabric? then Take(st, P2POf(ln)).value else st;
    PortsSame(st, s1, done);
    PortsGrow(s1, done, ln);
    PortsSame(AddPorts(s1, ln), st', done + [x]);
    WireBuilt(st, done, ln, st');
    Extend(done, x);
  }

  lemma LinkOnPorts(ln: LinkName, held: map<Owner, nat>, ports: map<LinkName, (nat, nat)>)
    requires ln in ports
    ensures LinkOf(ln, held, ports) == LinkWith(ln, Value(held, P2POf(ln)), ports[ln].0, ports[ln].1)
  {
  }

  lemma OneLink(ln: LinkName, held: map<Owner, nat>, ports: map<LinkName, (nat, nat)>)
    ensures LinksOf([ln], held, ports) == [LinkOf(ln, held, ports)]
  {
  }

  lemma LastIsFresh(xs: seq<Item>)
    requires xs != [] && OneEach(xs) && AllWellFormed(xs)
    ensures OneEach(xs[..|xs| - 1]) && FreshItem(xs[..|xs| - 1], xs[|xs| - 1])
  {
  }

  /** A build from any consistent starting point keeps the invariant at every item. */
  lemma {:induction false} RunKeepsInv(st: St, xs: seq<Item>)
    requires Inv(st, []) && OneEach(xs) && AllWellFormed(xs)
    requires Run(st, xs).Some?
    ensures Inv(Run(st, xs).value, xs)
    ensures Run(st, xs).value.pins == st.pins && Run(st, xs).value.basePorts == st.basePorts
  {
    hide Inv, FreshItem, OneEach, Step;
    if xs != [] {
      var init, last := xs[..|xs| - 1], xs[|xs| - 1];
      LastIsFresh(xs);
      RunKeepsInv(st, init);
      assert xs == init + [last];
      StepKeepsInv(Run(st, init).value, init, last);
    }
  }

  lemma StepKeepsInv(st: St, done: seq<Item>, x: Item)
    requires FreshItem(done, x) && Inv(st, done) && Step(st, x).Some?
    ensures Inv(Step(st, x).value, done + [x])
    ensures Step(st, x).value.pins == st.pins && Step(st, x).value.basePorts == st.basePorts
  {
    hide Inv, FreshItem, AddRouter, AddRack, AddLink;
    match x
    case RouterItem(n) => StepRouter(st, done, n);
    case RackItem(pod, rack, servers) => StepRack(st, done, pod, rack, servers);
    case WireItem(ln) => StepWire(st, done, ln);
  }
}
