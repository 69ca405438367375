/**
 The desired fabric shape and its preconditions: what a topology update accepts, and how it settles the names
 of its pods in place, so that the builder always sees distinct ones.
 */
module LabSpec {
  import opened Decimal
  import opened Build
  import opened RackNumbers

  /** `validateTopologySpec`. */
  predicate ValidTopologySpec(t: TopologySpec) {
    && t.externals >= 1 && t.edges >= 1 && t.supers >= 1 && |t.pods| > 0
    && forall i :: 0 <= i < |t.pods| ==> ValidPod(t.pods[i])
  }

  predicate ValidPod(p: PodSpec) {
    p.spines >= 1 && p.racks >= 1 && 1 <= p.servers <= 200
  }

  method ValidateTopologySpec(t: TopologySpec) returns (ok: bool)
    ensures ok <==> ValidTopologySpec(t)
  {
    if t.externals < 1 || t.edges < 1 || t.supers < 1 || |t.pods| == 0 {
      return false;
    }
    for i := 0 to |t.pods|
      invariant forall j :: 0 <= j < i ==> ValidPod(t.pods[j])
    {
      var p := t.pods[i];
      if p.spines < 1 || p.racks < 1 || p.servers < 1 || p.servers > 200 {
        return false;
      }
    }
    return true;
  }

  // ---------- what settling the names means ----------

  predicate Explicit(pods: seq<PodSpec>, name: string) {
    exists i :: 0 <= i < |pods| && pods[i].name == name && name != ""
  }

  /** No two pods give the same name. */
  ghost predicate ExplicitDistinct(pods: seq<PodSpec>) {
    forall i, j :: 0 <= i < j < |pods| && pods[i].name != "" ==> pods[i].name != pods[j].name
  }

  /** An unnamed slot takes back its previous name unless someone has it already. */
  predicate Reclaims(pods: seq<PodSpec>, prev: seq<PodSpec>, i: nat)
    requires i < |pods|
  {
    && pods[i].name == "" && i < |prev| && prev[i].name != ""
    && !Explicit(pods, prev[i].name)
    && forall j :: 0 <= j < i && j < |prev| && pods[j].name == "" ==> prev[j].name != prev[i].name
  }

  predicate Unsettled(pods: seq<PodSpec>, prev: seq<PodSpec>, i: nat)
    requires i < |pods|
  {
    pods[i].name == "" && !Reclaims(pods, prev, i)
  }

  /** The names taken when the fresh ones are handed out, up to slot `i`. */
  ghost predicate TakenBefore(pods: seq<PodSpec>, prev: seq<PodSpec>, after: seq<PodSpec>, i: nat, name: string)
    requires |after| == |pods| && i < |pods|
  {
    exists j :: 0 <= j < |pods| && after[j].name == name && (Unsettled(pods, prev, j) ==> j < i)
  }

  /** Slot `i` has the first default name not taken. */
  ghost predicate FirstFree(pods: seq<PodSpec>, prev: seq<PodSpec>, after: seq<PodSpec>, i: nat, k: nat)
    requires |after| == |pods| && i < |pods|
  {
    && k >= 1 && after[i].name == DefaultPodName(k) && !TakenBefore(pods, prev, after, i, DefaultPodName(k))
    && forall m :: 1 <= m < k ==> TakenBefore(pods, prev, after, i, DefaultPodName(m))
  }

  ghost predicate Settled(pods: seq<PodSpec>, prev: seq<PodSpec>, after: seq<PodSpec>) {
    && |after| == |pods|
    && (forall i :: 0 <= i < |pods| ==> after[i] == pods[i].(name := after[i].name))
    && (forall i :: 0 <= i < |pods| && pods[i].name != "" ==> after[i].name == pods[i].name)
    && (forall i :: 0 <= i < |pods| && Reclaims(pods, prev, i) ==> after[i].name == prev[i].name)
    && (forall i :: 0 <= i < |pods| && Unsettled(pods, prev, i) ==> exists k :: FirstFree(pods, prev, after, i, k))
  }

  // ---------- what follows from it ----------

  lemma SettledNonEmpty(pods: seq<PodSpec>, prev: seq<PodSpec>, after: seq<PodSpec>, i: nat)
    requires Settled(pods, prev, after) && i < |pods|
    ensures after[i].name != ""
  {
    if Unsettled(pods, prev, i) {
      var k :| FirstFree(pods, prev, after, i, k);
    }
  }

  lemma TwoSettledDiffer(pods: seq<PodSpec>, prev: seq<PodSpec>, after: seq<PodSpec>, i: nat, j: nat)
    requires Settled(pods, prev, after) && ExplicitDistinct(pods) && i < j < |pods|
    ensures after[i].name != after[j].name
  {
    if Unsettled(pods, prev, j) {
      var k :| FirstFree(pods, prev, after, j, k);
    } else if Unsettled(pods, prev, i) {
      var k :| FirstFree(pods, prev, after, i, k);
    } else if pods[i].name != "" && pods[j].name == "" {
      assert Explicit(pods, pods[i].name);
    } else if pods[i].name == "" && pods[j].name != "" {
      assert Explicit(pods, pods[j].name);
    }
  }

  /** A settled spec meets what the builder asks for: pod names are present and distinct. */
  lemma SettledIsDistinct(pods: seq<PodSpec>, prev: seq<PodSpec>, after: seq<PodSpec>)
    requires Settled(pods, prev, after) && ExplicitDistinct(pods)
    ensures forall i :: 0 <= i < |after| ==> after[i].name != ""
    ensures DistinctIds(after)
  {
    forall i: nat | i < |after| { SettledNonEmpty(pods, prev, after, i); }
    forall i: nat, j: nat | i < j < |after| { TwoSettledDiffer(pods, prev, after, i, j); }
  }

  /** The description leaves no choice: two settled results are the same. */
  lemma SettledIsUnique(pods: seq<PodSpec>, prev: seq<PodSpec>, after: seq<PodSpec>, after': seq<PodSpec>)
    requires Settled(pods, prev, after) && Settled(pods, prev, after')
    ensures after == after'
  {
    SameUpTo(pods, prev, after, after', |pods|);
  }

  lemma {:induction false} SameUpTo(pods: seq<PodSpec>, prev: seq<PodSpec>, after: seq<PodSpec>, after': seq<PodSpec>, n: nat)
    requires Settled(pods, prev, after) && Settled(pods, prev, after') && n <= |pods|
    ensures after[..n] == after'[..n]
  {
    if n > 0 {
      var i := n - 1;
      SameUpTo(pods, prev, after, after', i);
      if Unsettled(pods, prev, i) {
        var k :| FirstFree(pods, prev, after, i, k);
        var k' :| FirstFree(pods, prev, after', i, k');
        forall name ensures TakenBefore(pods, prev, after, i, name) <==> TakenBefore(pods, prev, after', i, name) {
          SameTaken(pods, prev, after, after', i, name);
        }
        assert k == k';
      }
      assert after[i].name == after'[i].name;
      assert after[..n] == after[..i] + [after[i]] && after'[..n] == after'[..i] + [after'[i]];
    }
  }

  lemma SameTaken(pods: seq<PodSpec>, prev: seq<PodSpec>, after: seq<PodSpec>, after': seq<PodSpec>, i: nat, name: string)
    requires Settled(pods, prev, after) && Settled(pods, prev, after') && i < |pods| && after[..i] == after'[..i]
    ensures TakenBefore(pods, prev, after, i, name) <==> TakenBefore(pods, prev, after', i, name)
  {
    forall j | 0 <= j < |pods| && (Unsettled(pods, prev, j) ==> j < i)
      ensures after[j].name == after'[j].name
    {
      if j < i { assert after[j] == after[..i][j] == after'[..i][j] == after'[j]; }
    }
  }

  /** Editing counts in place, with no names given, keeps every pod what it was. */
  lemma EditInPlaceKeepsNames(pods: seq<PodSpec>, prev: seq<PodSpec>, after: seq<PodSpec>)
    requires Settled(pods, prev, after) && |pods| == |prev|
    requires forall i :: 0 <= i < |pods| ==> pods[i].name == "" && prev[i].name != ""
    requires ExplicitDistinct(prev)
    ensures forall i :: 0 <= i < |pods| ==> after[i].name == prev[i].name
  {
  }

  /** With no names given and none to take back, the pods are numbered from one. */
  lemma {:induction false} UnnamedAreNumbered(pods: seq<PodSpec>, prev: seq<PodSpec>, after: seq<PodSpec>, i: nat)
    requires Settled(pods, prev, after) && i < |pods| && prev == [] && forall j :: 0 <= j < |pods| ==> pods[j].name == ""
    ensures after[i].name == DefaultPodName(i + 1)
  {
    hide DefaultPodName;
    forall j: nat | j < i { UnnamedAreNumbered(pods, prev, after, j); }
    assert forall j: nat :: j < |pods| ==> Unsettled(pods, prev, j);
    assert Unsettled(pods, prev, i);
    forall m: nat | 1 <= m <= i ensures TakenBefore(pods, prev, after, i, DefaultPodName(m)) {
      assert after[m - 1].name == DefaultPodName(m);
    }
    var k: nat :| FirstFree(pods, prev, after, i, k);
    if k > i + 1 {
      assert TakenBefore(pods, prev, after, i, DefaultPodName(i + 1));
      var j :| 0 <= j < |pods| && after[j].name == DefaultPodName(i + 1) && (Unsettled(pods, prev, j) ==> j < i);
      assert after[j].name == DefaultPodName(j + 1);
      DefaultPodNameInjective(j + 1, i + 1);
    }
  }

  // ---------- settling names in place ----------

  /** The names given so far. */
  function NamesGiven(pods: seq<PodSpec>): set<string> {
    set p | p in pods && p.name != "" :: p.name
  }

  lemma GivenIs(pods: seq<PodSpec>, name: string)
    ensures name in NamesGiven(pods) <==> exists i :: 0 <= i < |pods| && pods[i].name == name && name != ""
    ensures name in NamesGiven(pods) <==> Explicit(pods, name)
  {
  }

  lemma GivenNext(pods: seq<PodSpec>, i: nat)
    requires i < |pods|
    ensures NamesGiven(pods[..i + 1]) == NamesGiven(pods[..i]) + if pods[i].name == "" then {} else {pods[i].name}
  {
  }

  lemma GivenSet(pods: seq<PodSpec>, i: nat, name: string)
    requires i < |pods| && pods[i].name == "" && name != ""
    ensures NamesGiven(pods[i := pods[i].(name := name)]) == NamesGiven(pods) + {name}
  {
    var after := pods[i := pods[i].(name := name)];
    assert after[i] in after;
    forall x | x in NamesGiven(pods) ensures x in NamesGiven(after) {
      GivenIs(pods, x);
      GivenIs(after, x);
      var j :| 0 <= j < |pods| && pods[j].name == x && x != "";
      assert after[j].name == x;
    }
    forall x | x in NamesGiven(after) ensures x in NamesGiven(pods) + {name} {
      GivenIs(pods, x);
      GivenIs(after, x);
    }
  }

  /** After the reclaiming pass has reached slot `i`. */
  ghost predicate ReclaimedUpTo(pods: seq<PodSpec>, prev: seq<PodSpec>, now: seq<PodSpec>, i: nat) {
    && |now| == |pods| && i <= |pods|
    && (forall j :: 0 <= j < |pods| ==> now[j] == pods[j].(name := now[j].name))
    && (forall j :: 0 <= j < |pods| ==>
          now[j].name == if j < i && Reclaims(pods, prev, j) then prev[j].name else pods[j].name)
  }

  lemma ReclaimDecided(pods: seq<PodSpec>, prev: seq<PodSpec>, now: seq<PodSpec>, i: nat)
    requires ReclaimedUpTo(pods, prev, now, i) && i < |pods| && pods[i].name == "" && i < |prev| && prev[i].name != ""
    ensures prev[i].name in NamesGiven(now) <==> !Reclaims(pods, prev, i)
  {
    GivenIs(now, prev[i].name);
    if Explicit(pods, prev[i].name) {
      var j :| 0 <= j < |pods| && pods[j].name == prev[i].name;
      assert now[j].name == prev[i].name;
    } else if !Reclaims(pods, prev, i) {
      var j := FirstClaim(pods, prev, i);
      assert Reclaims(pods, prev, j) && now[j].name == prev[i].name;
    }
  }

  /** The first unnamed slot whose previous name is the one of slot `i`. */
  lemma FirstClaim(pods: seq<PodSpec>, prev: seq<PodSpec>, i: nat) returns (j: nat)
    requires i < |pods| && i < |prev| && pods[i].name == "" && prev[i].name != "" && !Explicit(pods, prev[i].name)
    ensures j <= i && prev[j].name == prev[i].name && Reclaims(pods, prev, j)
    decreases i
  {
    if Reclaims(pods, prev, i) {
      j := i;
    } else {
      var k :| 0 <= k < i && k < |prev| && pods[k].name == "" && prev[k].name == prev[i].name;
      j := FirstClaim(pods, prev, k);
    }
  }

  /** After fresh names have been handed out up to slot `i`. */
  ghost predicate SettledUpTo(pods: seq<PodSpec>, prev: seq<PodSpec>, now: seq<PodSpec>, i: nat) {
    && |now| == |pods| && i <= |pods|
    && (forall j :: 0 <= j < |pods| ==> now[j] == pods[j].(name := now[j].name))
    && (forall j :: 0 <= j < |pods| && pods[j].name != "" ==> now[j].name == pods[j].name)
    && (forall j :: 0 <= j < |pods| && Reclaims(pods, prev, j) ==> now[j].name == prev[j].name)
    && (forall j :: i <= j < |pods| && Unsettled(pods, prev, j) ==> now[j].name == "")
    && (forall j :: 0 <= j < i && Unsettled(pods, prev, j) ==> exists k :: FirstFree(pods, prev, now, j, k))
  }

  lemma ReclaimingDone(pods: seq<PodSpec>, prev: seq<PodSpec>, now: seq<PodSpec>)
    requires ReclaimedUpTo(pods, prev, now, |pods|)
    ensures SettledUpTo(pods, prev, now, 0)
  {
  }

  lemma TakenIsGiven(pods: seq<PodSpec>, prev: seq<PodSpec>, now: seq<PodSpec>, i: nat, name: string)
    requires SettledUpTo(pods, prev, now, i) && i < |pods| && name != ""
    ensures name in NamesGiven(now) <==> TakenBefore(pods, prev, now, i, name)
  {
  }

  lemma UnnamedIsUnsettled(pods: seq<PodSpec>, prev: seq<PodSpec>, now: seq<PodSpec>, i: nat)
    requires SettledUpTo(pods, prev, now, i) && i < |pods|
    ensures now[i].name == "" <==> Unsettled(pods, prev, i)
  {
  }

  lemma SettledSlot(pods: seq<PodSpec>, prev: seq<PodSpec>, now: seq<PodSpec>, i: nat)
    requires SettledUpTo(pods, prev, now, i) && i < |pods| && now[i].name != ""
    ensures SettledUpTo(pods, prev, now, i + 1)
  {
  }

  lemma FreshSlot(pods: seq<PodSpec>, prev: seq<PodSpec>, now: seq<PodSpec>, i: nat, k: nat)
    requires SettledUpTo(pods, prev, now, i) && i < |pods| && now[i].name == "" && k >= 1
    requires DefaultPodName(k) !in NamesGiven(now)
    requires forall m :: 1 <= m < k ==> DefaultPodName(m) in NamesGiven(now)
    ensures SettledUpTo(pods, prev, now[i := now[i].(name := DefaultPodName(k))], i + 1)
  {
    hide DefaultPodName, Reclaims;
    var after := now[i := now[i].(name := DefaultPodName(k))];
    UnnamedIsUnsettled(pods, prev, now, i);
    forall j: nat, name | j <= i && j < |pods|
      ensures TakenBefore(pods, prev, after, j, name) <==> TakenBefore(pods, prev, now, j, name)
    {
      TakenElsewhere(pods, prev, now, after, i, j, name);
    }
    forall j | 0 <= j < i && Unsettled(pods, prev, j)
      ensures exists k :: FirstFree(pods, prev, after, j, k)
    {
      var k' :| FirstFree(pods, prev, now, j, k');
      assert FirstFree(pods, prev, after, j, k');
    }
    DefaultsAreNames();
    forall m | 1 <= m <= k
      ensures TakenBefore(pods, prev, after, i, DefaultPodName(m)) <==> DefaultPodName(m) in NamesGiven(now)
    {
      TakenIsGiven(pods, prev, now, i, DefaultPodName(m));
    }
    assert FirstFree(pods, prev, after, i, k);
  }

  lemma DefaultsAreNames()
    ensures forall m: nat :: DefaultPodName(m) != ""
  {
  }

  lemma TakenElsewhere(pods: seq<PodSpec>, prev: seq<PodSpec>, now: seq<PodSpec>, after: seq<PodSpec>, i: nat, j: nat, name: string)
    requires |now| == |pods| == |after| && i < |pods| && j <= i && Unsettled(pods, prev, i)
    requires forall l :: 0 <= l < |pods| && l != i ==> after[l] == now[l]
    ensures TakenBefore(pods, prev, after, j, name) <==> TakenBefore(pods, prev, now, j, name)
  {
  }

  lemma SettlingDone(pods: seq<PodSpec>, prev: seq<PodSpec>, now: seq<PodSpec>)
    requires SettledUpTo(pods, prev, now, |pods|)
    ensures Settled(pods, prev, now)
  {
  }

  /** `fillPodNames`. */
  method FillPodNames(pods: array<PodSpec>, prev: seq<PodSpec>) returns (ok: bool)
    modifies pods
    ensures ok <==> ExplicitDistinct(old(pods[..]))
    ensures !ok ==> pods[..] == old(pods[..])
    ensures ok ==> Settled(old(pods[..]), prev, pods[..])
  {
    hide NamesGiven, ReclaimedUpTo, Reclaims, SettledUpTo, DefaultPodName, Settled;
    ghost var before := pods[..];
    var used: set<string> := {};
    assert NamesGiven([]) == {} by { NothingGiven(); }
    for i := 0 to pods.Length
      invariant pods[..] == before
      invariant used == NamesGiven(before[..i]) && ExplicitDistinct(before[..i])
    {
      GivenNext(before, i);
      GivenIs(before[..i], pods[i].name);
      assert before[..i + 1] == before[..i] + [before[i]];
      if pods[i].name != "" {
        if pods[i].name in used {
          DuplicateFound(before, i);
          return false;
        }
        used := used + {pods[i].name};
      }
    }
    assert before[..pods.Length] == before;
    NothingReclaimed(before, prev);
    for i := 0 to pods.Length
      invariant ReclaimedUpTo(before, prev, pods[..], i) && used == NamesGiven(pods[..])
    {
      ReclaimStep(before, prev, pods[..], i);
      if pods[i].name == "" && i < |prev| && prev[i].name != "" && prev[i].name !in used {
        GivenSet(pods[..], i, prev[i].name);
        ghost var was := pods[..];
        pods[i] := pods[i].(name := prev[i].name);
        assert pods[..] == was[i := was[i].(name := prev[i].name)];
        used := used + {pods[i].name};
      }
    }
    ReclaimingDone(before, prev, pods[..]);
    var next := 1;
    for i := 0 to pods.Length
      invariant SettledUpTo(before, prev, pods[..], i) && used == NamesGiven(pods[..])
      invariant next >= 1 && forall m :: 1 <= m < next ==> DefaultPodName(m) in used
    {
      if pods[i].name != "" {
        SettledSlot(before, prev, pods[..], i);
      } else {
        ghost var unseen := used;
        ghost var start := next;
        while DefaultPodName(next) in used
          invariant next >= start && forall m :: 1 <= m < next ==> DefaultPodName(m) in used
          invariant forall m :: m >= next && DefaultPodName(m) in used ==> DefaultPodName(m) in unseen
          decreases unseen
        {
          unseen := unseen - {DefaultPodName(next)};
          forall m | m > next ensures DefaultPodName(m) != DefaultPodName(next) {
            if DefaultPodName(m) == DefaultPodName(next) { DefaultPodNameInjective(m, next); }
          }
          next := next + 1;
        }
        FreshSlot(before, prev, pods[..], i, next);
        DefaultsAreNames();
        GivenSet(pods[..], i, DefaultPodName(next));
        ghost var was := pods[..];
        pods[i] := pods[i].(name := DefaultPodName(next));
        assert pods[..] == was[i := was[i].(name := DefaultPodName(next))];
        used := used + {pods[i].name};
      }
    }
    SettlingDone(before, prev, pods[..]);
    return true;
  }

  lemma NothingGiven()
    ensures NamesGiven([]) == {}
  {
  }

  lemma DuplicateFound(pods: seq<PodSpec>, i: nat)
    requires i < |pods| && pods[i].name != "" && pods[i].name in NamesGiven(pods[..i])
    ensures !ExplicitDistinct(pods)
  {
  }

  lemma NothingReclaimed(pods: seq<PodSpec>, prev: seq<PodSpec>)
    ensures ReclaimedUpTo(pods, prev, pods, 0)
  {
  }

  /** One slot of the reclaiming pass. */
  lemma ReclaimStep(pods: seq<PodSpec>, prev: seq<PodSpec>, now: seq<PodSpec>, i: nat)
    requires ReclaimedUpTo(pods, prev, now, i) && i < |pods|
    ensures if now[i].name == "" && i < |prev| && prev[i].name != "" && prev[i].name !in NamesGiven(now)
            then ReclaimedUpTo(pods, prev, now[i := now[i].(name := prev[i].name)], i + 1)
            else ReclaimedUpTo(pods, prev, now, i + 1)
  {
    hide NamesGiven;
    if pods[i].name == "" && i < |prev| && prev[i].name != "" {
      ReclaimDecided(pods, prev, now, i);
    }
  }

  // ---------- a lab's first spec ----------

  /** An explicit name that an unnamed slot's default collides with. */
  ghost predicate DefaultTaken(pods: seq<PodSpec>) {
    exists i, j :: 0 <= i < |pods| && 0 <= j < |pods| && pods[i].name != "" && pods[j].name == ""
                   && pods[i].name == DefaultPodName(j + 1)
  }

  /**
   Creating a lab settles no names, so the builder falls back to each slot's default. Its pods then get
   distinct names exactly when the explicit ones differ and none is the default of an unnamed slot.
   */
  lemma UnsettledNamesCollide(pods: seq<PodSpec>)
    ensures DistinctIds(pods) <==> ExplicitDistinct(pods) && !DefaultTaken(pods)
  {
    hide DefaultPodName;
    if DistinctIds(pods) {
      forall i, j | 0 <= i < |pods| && 0 <= j < |pods| && pods[i].name != "" && pods[j].name == ""
        ensures pods[i].name != DefaultPodName(j + 1)
      {
        if i < j {
          assert PodId(pods[i].name, i + 1) != PodId(pods[j].name, j + 1);
        } else {
          assert PodId(pods[j].name, j + 1) != PodId(pods[i].name, i + 1);
        }
      }
      forall i, j | 0 <= i < j < |pods| && pods[i].name != ""
        ensures pods[i].name != pods[j].name
      {
        assert PodId(pods[i].name, i + 1) != PodId(pods[j].name, j + 1);
      }
    }
    if ExplicitDistinct(pods) && !DefaultTaken(pods) {
      forall k, l | 0 <= k < l < |pods|
        ensures PodId(pods[k].name, k + 1) != PodId(pods[l].name, l + 1)
      {
        if pods[k].name == "" && pods[l].name == "" && DefaultPodName(k + 1) == DefaultPodName(l + 1) {
          DefaultPodNameInjective(k + 1, l + 1);
        }
      }
    }
  }

  /** For one: a first pod called `pod-2` before an unnamed second pod. */
  lemma CustomLabCanCollide(p: PodSpec, q: PodSpec)
    requires p.name == "pod-2" && q.name == ""
    ensures ExplicitDistinct([p, q]) && !DistinctIds([p, q])
  {
    assert Decimal.Decimal(2) == "2";
    assert DefaultPodName(2) == "pod-2";
    var pods := [p, q];
    UnsettledNamesCollide(pods);
    assert pods[0].name == DefaultPodName(1 + 1) && pods[1].name == "";
  }
}
