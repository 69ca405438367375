/** Global rack numbers: deployed slots keep theirs, and new ones never meet a number already in use. */
module RackNumbers {
  import opened Fabric
  import opened Script
  import opened Build
  import opened Decimal
  import opened Sequences

  ghost predicate Ascending(xs: seq<nat>) {
    forall i, j :: 0 <= i < j < |xs| ==> xs[i] < xs[j]
  }

  lemma {:induction false} InsertAscends(xs: seq<nat>, x: nat)
    requires Ascending(xs) && x !in xs
    ensures Ascending(Insert(xs, x))
    ensures forall y :: y in Insert(xs, x) <==> y == x || y in xs
  {
    if xs != [] && xs[|xs| - 1] > x {
      var init := xs[..|xs| - 1];
      assert xs == init + [xs[|xs| - 1]];
      InsertAscends(init, x);
      forall i | 0 <= i < |Insert(init, x)| ensures Insert(init, x)[i] < xs[|xs| - 1] {
        assert Insert(init, x)[i] in Insert(init, x);
      }
    }
  }

  lemma {:induction false} SortAscends(xs: seq<nat>)
    requires Distinct(xs)
    ensures Ascending(SortInts(xs))
    ensures forall y :: y in SortInts(xs) <==> y in xs
  {
    if xs != [] {
      var init, last := xs[..|xs| - 1], xs[|xs| - 1];
      assert xs == init + [last];
      SortAscends(init);
      assert last !in init;
      InsertAscends(SortInts(init), last);
    }
  }

  lemma Inhabited(xs: seq<nat>)
    ensures xs == [] || exists x :: x in xs
  {
    if xs != [] { assert xs[0] in xs; }
  }

  lemma {:induction false} AscendingUnique(xs: seq<nat>, ys: seq<nat>)
    requires Ascending(xs) && Ascending(ys) && forall x :: x in xs <==> x in ys
    ensures xs == ys
  {
    Inhabited(xs);
    Inhabited(ys);
    if xs != [] {
      var m, n := |xs| - 1, |ys| - 1;
      assert xs[m] in xs && ys[n] in ys && xs[m] in ys && ys[n] in xs;
      assert xs[m] == ys[n];
      forall x ensures x in xs[..m] <==> x in ys[..n] {
        if x in xs[..m] { assert x in ys && x != ys[n]; }
        if x in ys[..n] { assert x in xs && x != xs[m]; }
      }
      AscendingUnique(xs[..m], ys[..n]);
      assert xs == xs[..m] + [xs[m]] && ys == ys[..n] + [ys[n]];
    }
  }

  /** What a replayed base hands to the numbering: each pod's racks in order, no rack in two pods. */
  ghost predicate SlotsReady(slots: map<string, seq<nat>>, maxRack: nat) {
    && (forall pod :: Ascending(Slots(slots, pod)))
    && (forall pod, x :: x in Slots(slots, pod) ==> x <= maxRack)
    && (forall pod, pod', x :: x in Slots(slots, pod) && x in Slots(slots, pod') ==> pod == pod')
  }

  lemma {:induction false} NewRacksAre(maxRack: nat, n: nat)
    ensures |NewRacks(maxRack, n)| == n && Ascending(NewRacks(maxRack, n))
    ensures forall x :: x in NewRacks(maxRack, n) <==> maxRack < x <= maxRack + n
  {
    if n > 0 {
      NewRacksAre(maxRack, n - 1);
      var init := NewRacks(maxRack, n - 1);
      forall i | 0 <= i < n - 1 ensures init[i] < maxRack + n { assert init[i] in init; }
    }
  }

  /** A pod keeps the first racks it has, in order, and only then takes numbers above every one in use. */
  lemma RacksForPod(slots: seq<nat>, maxRack: nat, count: nat)
    requires Ascending(slots) && forall x :: x in slots ==> x <= maxRack
    ensures var racks := RacksFor(slots, maxRack, count);
            && |racks| == count && Ascending(racks)
            && (forall i :: 0 <= i < |slots| && i < count ==> racks[i] == slots[i])
            && (forall x :: x in racks ==> x in slots || maxRack < x <= MaxAfter(slots, maxRack, count))
  {
    if count > |slots| {
      NewRacksAre(maxRack, count - |slots|);
      var more := NewRacks(maxRack, count - |slots|);
      forall i, j | 0 <= i < |slots| && 0 <= j < |more| ensures slots[i] < more[j] {
        assert slots[i] in slots && more[j] in more;
      }
    }
  }

  ghost predicate DistinctIds(pods: seq<PodSpec>) {
    forall k, l :: 0 <= k < l < |pods| ==> PodId(pods[k].name, k + 1) != PodId(pods[l].name, l + 1)
  }

  ghost predicate PodsNumbered(slots: map<string, seq<nat>>, maxRack: nat, pods: seq<PodSpec>, n: Numbered) {
    && |n.pods| == |pods| && n.maxRack >= maxRack
    && (forall k :: 0 <= k < |pods| ==> NumberedPod(slots, maxRack, n.maxRack, pods[k], k, n.pods[k]))
    && DistinctPods(Shape(0, 0, 0, n.pods))
  }

  ghost predicate NumberedPod(slots: map<string, seq<nat>>, low: nat, high: nat, p: PodSpec, k: nat, q: PodShape) {
    && q.name == PodId(p.name, k + 1) && q.spines == p.spines && q.servers == p.servers
    && |q.racks| == p.racks
    && (forall i :: 0 <= i < |q.racks| && i < |Slots(slots, q.name)| ==> q.racks[i] == Slots(slots, q.name)[i])
    && (forall x :: x in q.racks ==> x in Slots(slots, q.name) || low < x <= high)
  }

  lemma {:induction false} NumberingIsDistinct(slots: map<string, seq<nat>>, maxRack: nat, pods: seq<PodSpec>)
    requires SlotsReady(slots, maxRack) && DistinctIds(pods)
    ensures PodsNumbered(slots, maxRack, pods, NumberPods(slots, maxRack, pods))
  {
    if pods != [] {
      var init, p := pods[..|pods| - 1], pods[|pods| - 1];
      NumberingIsDistinct(slots, maxRack, init);
      var before, after := NumberPods(slots, maxRack, init), NumberPods(slots, maxRack, pods);
      var id := PodId(p.name, |pods|);
      assert forall x :: x in Slots(slots, id) ==> x <= before.maxRack;
      RacksForPod(Slots(slots, id), before.maxRack, p.racks);
      var q := after.pods[|init|];
      assert after.pods == before.pods + [q];
      forall k | 0 <= k < |init|
        ensures NumberedPod(slots, maxRack, after.maxRack, pods[k], k, after.pods[k])
        ensures after.pods[k].name != q.name
        ensures forall x :: x in after.pods[k].racks ==> x !in q.racks
      {
        assert NumberedPod(slots, maxRack, before.maxRack, init[k], k, before.pods[k]);
      }
      PodsStayDistinct(before.pods, q);
    }
  }

  lemma PodsStayDistinct(pods: seq<PodShape>, q: PodShape)
    requires DistinctPods(Shape(0, 0, 0, pods)) && Ascending(q.racks)
    requires forall k :: 0 <= k < |pods| ==> pods[k].name != q.name && forall x :: x in pods[k].racks ==> x !in q.racks
    ensures DistinctPods(Shape(0, 0, 0, pods + [q]))
  {
  }
}
