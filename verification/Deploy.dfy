/**
 The agent's incremental deploy: containers and veth pairs changed in place, phase by phase. Within a phase
 the items run concurrently, so each loop below picks any unfinished item and does its next small step, and
 any step may fail and end the run.
 */
module Deploy {
  import opened Wrappers
  import opened Sequences
  import opened Fabric
  import opened PlanDiff

  predicate OnPort(w: Wire, p: Port) {
    w.a == p || w.z == p
  }

  function PortsOf(ws: seq<Wire>): set<Port> {
    (set w | w in ws :: w.a) + (set w | w in ws :: w.z)
  }

  predicate TouchesPorts(w: Wire, ps: set<Port>) {
    w.a in ps || w.z in ps
  }

  predicate TouchesNodes(w: Wire, ns: set<Name>) {
    w.a.node in ns || w.z.node in ns
  }

  /** What is left of a set of pairs when some containers go, or some interfaces are deleted. */
  function WithoutNodes(ws: set<Wire>, ns: set<Name>): set<Wire> {
    set w | w in ws && !TouchesNodes(w, ns)
  }

  function WithoutPorts(ws: set<Wire>, ps: set<Port>): set<Wire> {
    set w | w in ws && !TouchesPorts(w, ps)
  }

  /** The links of an increment use every interface at most once. */
  ghost predicate PortsDisjoint(ws: seq<Wire>) {
    && (forall w :: w in ws ==> w.a != w.z)
    && forall w, w', p :: w in ws && w' in ws && OnPort(w, p) && OnPort(w', p) ==> w == w'
  }

  /** What one complete run leaves, whatever it started from and in whatever order its items ran. */
  function FinalContainers(c: set<Name>, inc: Increment): set<Name> {
    (c + Elements(inc.addNodes)) - Elements(inc.removeNodes)
  }

  function FinalWires(ws: set<Wire>, inc: Increment): set<Wire> {
    var added := Elements(inc.addNodes);
    var removed := Elements(inc.removeNodes);
    set w | w in ws + Elements(inc.addLinks)
            && (w in inc.addLinks || (!TouchesNodes(w, added) && !TouchesPorts(w, PortsOf(inc.addLinks))))
            && !TouchesNodes(w, removed)
  }

  /** A pair the increment has no business with. */
  predicate Untouched(w: Wire, inc: Increment) {
    && !TouchesNodes(w, Elements(inc.addNodes)) && !TouchesNodes(w, Elements(inc.removeNodes))
    && !TouchesPorts(w, PortsOf(inc.addLinks))
  }

  // ---------- the running lab ----------

  /** Everything running, and everything ever taken down: stopped containers and deleted pairs. */
  datatype World = World(containers: set<Name>, wires: set<Wire>, stopped: set<Name>, lost: set<Wire>)

  /** A container goes with every pair it holds an end of; a missing one is success. */
  function Removed(w: World, n: Name): World {
    World(w.containers - {n}, WithoutNodes(w.wires, {n}), w.stopped + ({n} * w.containers),
          w.lost + (w.wires - WithoutNodes(w.wires, {n})))
  }

  /** Deleting an interface removes the pair it is an end of. */
  function Cleared(w: World, p: Port): World {
    w.(wires := WithoutPorts(w.wires, {p}), lost := w.lost + (w.wires - WithoutPorts(w.wires, {p})))
  }

  /** Nothing beyond the given containers was stopped, and nothing away from them was lost. */
  ghost predicate HarmOnly(w0: World, w: World, ns: set<Name>) {
    && w.stopped <= w0.stopped + ns
    && forall x :: x in w.lost ==> x in w0.lost || TouchesNodes(x, ns)
  }

  /** Phase one under way: `removed` are the leftovers already gone, `todo` the nodes not yet created. */
  ghost predicate Creating(w0: World, w: World, ns: set<Name>, todo: set<Name>, removed: set<Name>) {
    && todo <= ns && removed <= todo
    && w.containers == (w0.containers - removed) + (ns - todo)
    && w.wires == WithoutNodes(w0.wires, removed + (ns - todo))
    && HarmOnly(w0, w, ns)
  }

  lemma LeftoverGone(w0: World, w: World, ns: set<Name>, todo: set<Name>, removed: set<Name>, n: Name)
    requires Creating(w0, w, ns, todo, removed) && n in todo
    ensures Creating(w0, Removed(w, n), ns, todo, removed + {n})
  {
  }

  lemma NodeCreated(w0: World, w: World, ns: set<Name>, todo: set<Name>, removed: set<Name>, n: Name)
    requires Creating(w0, w, ns, todo, removed) && n in removed
    ensures Creating(w0, w.(containers := w.containers + {n}), ns, todo - {n}, removed - {n})
  {
  }

  /** Phase six under way. */
  ghost predicate Removing(w0: World, w: World, ns: set<Name>, todo: set<Name>) {
    && todo <= ns
    && w.containers == w0.containers - (ns - todo)
    && w.wires == WithoutNodes(w0.wires, ns - todo)
    && HarmOnly(w0, w, ns)
  }

  lemma NodeGone(w0: World, w: World, ns: set<Name>, todo: set<Name>, n: Name)
    requires Removing(w0, w, ns, todo) && n in todo
    ensures Removing(w0, Removed(w, n), ns, todo - {n})
  {
  }

  /** Phase two under way: the finished pairs own their interfaces, and pairs elsewhere are intact. */
  ghost predicate Wiring(w0: World, w: World, links: seq<Wire>, todo: set<Wire>) {
    var added := Elements(links);
    && todo <= added
    && added - todo <= w.wires <= w0.wires + (added - todo)
    && (forall x :: x in w0.wires && !TouchesPorts(x, PortsOf(links)) ==> x in w.wires)
    && (forall x, v, p :: x in added && x !in todo && v in w.wires && OnPort(x, p) && OnPort(v, p) ==> v == x)
    && w.containers == w0.containers && w.stopped == w0.stopped
    && (forall x :: x in w.lost ==> x in w0.lost || TouchesPorts(x, PortsOf(links)))
  }

  lemma PortCleared(w0: World, w: World, links: seq<Wire>, todo: set<Wire>, x: Wire, p: Port)
    requires PortsDisjoint(links) && Wiring(w0, w, links, todo) && x in todo && OnPort(x, p)
    ensures Wiring(w0, Cleared(w, p), links, todo)
  {
  }

  lemma PairWired(w0: World, w: World, links: seq<Wire>, todo: set<Wire>, x: Wire)
    requires PortsDisjoint(links) && Wiring(w0, w, links, todo) && x in todo
    requires forall v :: v in w.wires ==> !OnPort(v, x.a) && !OnPort(v, x.z)
    ensures Wiring(w0, w.(wires := w.wires + {x}), links, todo - {x})
  {
  }

  lemma AllWired(w0: World, w: World, links: seq<Wire>)
    requires Wiring(w0, w, links, {})
    ensures w.wires == WithoutPorts(w0.wires, PortsOf(links)) + Elements(links)
  {
    var added, ps := Elements(links), PortsOf(links);
    forall x | x in w.wires
      ensures x in WithoutPorts(w0.wires, ps) + added
    {
      if TouchesPorts(x, ps) {
        var p := if x.a in ps then x.a else x.z;
        var v := PortUser(links, p);
        assert OnPort(x, p) && v == x;
      }
    }
  }

  class Runtime {
    var containers: set<Name>
    var wires: set<Wire>
    ghost var stopped: set<Name>
    ghost var lost: set<Wire>

    ghost function Now(): World
      reads this
    {
      World(containers, wires, stopped, lost)
    }

    constructor (containers: set<Name>, wires: set<Wire>)
      ensures Now() == World(containers, wires, {}, {})
    {
      this.containers, this.wires, stopped, lost := containers, wires, {}, {};
    }

    /** `docker rm -f`. */
    method RemoveContainer(n: Name)
      modifies this
      ensures Now() == Removed(old(Now()), n)
    {
      stopped := stopped + ({n} * containers);
      containers := containers - {n};
      lost := lost + (wires - WithoutNodes(wires, {n}));
      wires := WithoutNodes(wires, {n});
    }

    /** `ip link del` inside the node. */
    method DeletePort(p: Port)
      modifies this
      ensures Now() == Cleared(old(Now()), p)
    {
      lost := lost + (wires - WithoutPorts(wires, {p}));
      wires := WithoutPorts(wires, {p});
    }

    /** `containerlab tools veth create`: both containers must run and both names be free. */
    method CreatePair(w: Wire) returns (ok: bool)
      modifies this
      ensures ok <==> w.a.node in containers && w.z.node in containers
                      && forall v :: v in old(wires) ==> !OnPort(v, w.a) && !OnPort(v, w.z)
      ensures Now() == if ok then old(Now()).(wires := old(wires) + {w}) else old(Now())
    {
      if w.a.node !in containers || w.z.node !in containers
         || exists v :: v in wires && (OnPort(v, w.a) || OnPort(v, w.z)) {
        return false;
      }
      wires := wires + {w};
      return true;
    }

    /** Phase one: each new container is removed if left over, then created. */
    method CreateNodes(nodes: seq<Name>) returns (ok: bool)
      modifies this
      ensures var ns := Elements(nodes);
              && (exists todo, removed :: Creating(old(Now()), Now(), ns, todo, removed))
              && (ok ==> Creating(old(Now()), Now(), ns, {}, {}))
    {
      hide Creating, Removed;
      var todo := Elements(nodes);
      var removed: set<Name> := {};
      ghost var ns := todo;
      NothingCreated(Now(), ns);
      while todo != {}
        invariant removed <= todo
        invariant Creating(old(Now()), Now(), ns, todo, removed)
        decreases todo, todo - removed
      {
        var n :| n in todo;
        if * {
          return false;
        }
        if n !in removed {
          LeftoverGone(old(Now()), Now(), ns, todo, removed, n);
          RemoveContainer(n);
          removed := removed + {n};
        } else {
          NodeCreated(old(Now()), Now(), ns, todo, removed, n);
          containers := containers + {n};
          removed := removed - {n};
          todo := todo - {n};
        }
      }
      assert removed == {};
      return true;
    }

    /** Phase two: each link deletes whatever sits on its two names, then wires the pair. */
    method CreateLinks(links: seq<Wire>) returns (ok: bool)
      requires PortsDisjoint(links)
      modifies this
      ensures exists todo :: Wiring(old(Now()), Now(), links, todo)
      ensures ok ==> Wiring(old(Now()), Now(), links, {})
    {
      hide Wiring, PortsDisjoint, Cleared;
      var todo := Elements(links);
      var uncleared := set w, end: bool | w in todo :: (w, end);
      NothingWired(Now(), links);
      while todo != {}
        invariant Wiring(old(Now()), Now(), links, todo)
        decreases todo, uncleared
      {
        var w :| w in todo;
        if * {
          return false;
        }
        if (w, false) in uncleared || (w, true) in uncleared {
          var end := (w, false) !in uncleared;
          var p := if end then w.z else w.a;
          if * {
            PortCleared(old(Now()), Now(), links, todo, w, p);
            DeletePort(p);
          }
          uncleared := uncleared - {(w, end)};
        } else {
          ghost var before := Now();
          var done := CreatePair(w);
          if !done {
            return false;
          }
          PairWired(old(Now()), before, links, todo, w);
          todo := todo - {w};
        }
      }
      return true;
    }

    /** Phase six: removed devices go, and their pairs with them. */
    method RemoveNodes(nodes: seq<Name>) returns (ok: bool)
      modifies this
      ensures var ns := Elements(nodes);
              && (exists todo :: Removing(old(Now()), Now(), ns, todo))
              && (ok ==> Removing(old(Now()), Now(), ns, {}))
    {
      hide Removing, Removed;
      var todo := Elements(nodes);
      ghost var ns := todo;
      NothingRemoved(Now(), ns);
      while todo != {}
        invariant Removing(old(Now()), Now(), ns, todo)
        decreases todo
      {
        var n :| n in todo;
        if * {
          return false;
        }
        NodeGone(old(Now()), Now(), ns, todo, n);
        RemoveContainer(n);
        todo := todo - {n};
      }
      return true;
    }

    /** Phases three to five run commands inside containers; for the wiring they can only fail. */
    method RunCommands(nodes: set<Name>) returns (ok: bool)
    {
      var todo := nodes;
      while todo != {}
        decreases todo
      {
        var n :| n in todo;
        if * {
          return false;
        }
        todo := todo - {n};
      }
      return true;
    }

    /** One run of an increment, complete or cut short anywhere. */
    method DeployIncrement(inc: Increment) returns (ok: bool)
      requires PortsDisjoint(inc.addLinks)
      modifies this
      ensures CutShort(old(Now()), Now(), inc)
      ensures ok ==> containers == FinalContainers(old(containers), inc) && wires == FinalWires(old(wires), inc)
    {
      hide Creating, Wiring, Removing, CutShort, FinalContainers, FinalWires;
      ghost var w0 := Now();
      ok := CreateNodes(inc.addNodes);
      ghost var w1 := Now();
      if !ok {
        StoppedInPhaseOne(w0, w1, inc);
        return;
      }
      ok := CreateLinks(inc.addLinks);
      ghost var w2 := Now();
      StoppedInPhaseTwo(w0, w1, w2, inc);
      if !ok { return; }
      ok := RunCommands(Elements(inc.addNodes));
      if !ok { return; }
      ok := RunCommands(inc.nodeExec.Keys);
      if !ok { return; }
      ok := RunCommands(Elements(inc.reloadNodes));
      if !ok { return; }
      ok := RemoveNodes(inc.removeNodes);
      StoppedInPhaseSix(w0, w1, w2, Now(), inc);
      if ok {
        Completed(w0, w1, w2, Now(), inc);
      }
    }
  }

  lemma NothingCreated(w: World, ns: set<Name>)
    ensures Creating(w, w, ns, ns, {})
  {
  }

  lemma NothingWired(w: World, links: seq<Wire>)
    ensures Wiring(w, w, links, Elements(links))
  {
  }

  lemma NothingRemoved(w: World, ns: set<Name>)
    ensures Removing(w, w, ns, ns)
  {
  }

  /** Where a run can stop: survivors and pairs the increment has no business with are as they were. */
  ghost predicate CutShort(w0: World, w: World, inc: Increment) {
    var added, removed := Elements(inc.addNodes), Elements(inc.removeNodes);
    && w0.containers - added - removed <= w.containers <= w0.containers + added
    && w.stopped <= w0.stopped + added + removed
    && w.wires <= w0.wires + Elements(inc.addLinks)
    && (forall x :: x in w0.wires && Untouched(x, inc) ==> x in w.wires)
    && (forall x :: x in w.lost ==> x in w0.lost || !Untouched(x, inc))
  }

  lemma StoppedInPhaseOne(w0: World, w1: World, inc: Increment)
    requires exists todo, removed :: Creating(w0, w1, Elements(inc.addNodes), todo, removed)
    ensures CutShort(w0, w1, inc)
  {
  }

  lemma StoppedInPhaseTwo(w0: World, w1: World, w2: World, inc: Increment)
    requires Creating(w0, w1, Elements(inc.addNodes), {}, {})
    requires exists todo :: Wiring(w1, w2, inc.addLinks, todo)
    ensures CutShort(w0, w2, inc)
  {
  }

  lemma StoppedInPhaseSix(w0: World, w1: World, w2: World, w3: World, inc: Increment)
    requires Creating(w0, w1, Elements(inc.addNodes), {}, {}) && Wiring(w1, w2, inc.addLinks, {})
    requires exists todo :: Removing(w2, w3, Elements(inc.removeNodes), todo)
    ensures CutShort(w0, w3, inc)
  {
  }

  lemma Completed(w0: World, w1: World, w2: World, w3: World, inc: Increment)
    requires Creating(w0, w1, Elements(inc.addNodes), {}, {}) && Wiring(w1, w2, inc.addLinks, {})
    requires Removing(w2, w3, Elements(inc.removeNodes), {})
    ensures w3.containers == FinalContainers(w0.containers, inc) && w3.wires == FinalWires(w0.wires, inc)
  {
    AllWired(w1, w2, inc.addLinks);
    hide Wiring, HarmOnly, PortsOf;
    var added, removed := Elements(inc.addNodes), Elements(inc.removeNodes);
    assert w1.wires == WithoutNodes(w0.wires, {} + (added - {}));
    assert {} + (added - {}) == added && removed - {} == removed;
  }

  lemma PortUser(links: seq<Wire>, p: Port) returns (w: Wire)
    requires p in PortsOf(links)
    ensures w in links && OnPort(w, p)
  {
    w :| w in links && OnPort(w, p);
  }
}
