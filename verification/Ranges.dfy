/**
 The numbered-resource allocator of the controller: the per-role ASN ranges, whose cursor is a
 32-bit word, and the address pools, whose subnets are numbered from zero.
 */
module Ranges {
  import opened Wrappers

  const WORD := 0x1_0000_0000

  /** One range: `next` is the lowest number never handed out, `released` a stack of returned ones. */
  datatype Range<O> = Range(
    start: nat, end: nat, next: nat, held: map<nat, O>, released: seq<nat>)

  datatype Grant<O> = Grant(range: Range<O>, number: nat)

  /** Go's `uint32` increment. */
  function Succ(x: nat): nat {
    if x + 1 == WORD then 0 else x + 1
  }

  function Fresh<O>(start: nat, end: nat): Range<O> {
    Range(start, end, start, map[], [])
  }

  /** Hands out the most recently returned number, or the next never-used one. */
  function Allocate<O>(r: Range<O>, owner: O): Option<Grant<O>> {
    if |r.released| > 0 then
      var last := |r.released| - 1;
      var x := r.released[last];
      Some(Grant(r.(released := r.released[..last], held := r.held[x := owner]), x))
    else if r.next > r.end then
      None
    else
      Some(Grant(r.(next := Succ(r.next), held := r.held[r.next := owner]), r.next))
  }

  function Release<O>(r: Range<O>, x: nat): Option<Range<O>> {
    if x !in r.held then None
    else Some(r.(held := r.held - {x}, released := r.released + [x]))
  }

  /** Marks a number as held when state is reloaded; the cursor resumes past it. */
  function Restore<O>(r: Range<O>, x: nat, owner: O): Option<Range<O>> {
    if x < r.start || x > r.end || x in r.held then None
    else
      Some(r.(held := r.held[x := owner], next := if x >= r.next then Succ(x) else r.next))
  }

  predicate Between(lo: nat, x: nat, hi: nat) {
    lo <= x <= hi
  }

  ghost function Span(lo: nat, hi: nat): set<nat> {
    set x: nat | lo <= x <= hi && Between(lo, x, hi)
  }

  /** The numbers the cursor jumped over when a later one was restored. */
  ghost function Skipped<O>(r: Range<O>): set<nat> {
    set x | r.start <= x < r.next && x !in r.held && x !in r.released
  }

  ghost function Unreached<O>(r: Range<O>): set<nat> {
    Span(r.next, r.end)
  }

  ghost function Returned<O>(r: Range<O>): set<nat> {
    set x | x in r.released
  }

  /** Four disjoint sets that make up the whole range, with no number returned twice. */
  ghost predicate Partitioned<O>(r: Range<O>) {
    && r.start <= r.next <= r.end + 1
    && r.end < WORD
    && (forall i, j :: 0 <= i < j < |r.released| ==> r.released[i] != r.released[j])
    && r.held.Keys !! Returned(r) !! Skipped(r) !! Unreached(r)
    && r.held.Keys + Returned(r) + Skipped(r) + Unreached(r) == Span(r.start, r.end)
  }

  /** The same fact in the form proofs use: everything known lies below the cursor. */
  ghost predicate Sound<O>(r: Range<O>) {
    && r.start <= r.next <= r.end + 1
    && r.end < WORD
    && (forall x :: x in r.held ==> r.start <= x < r.next && x !in r.released)
    && (forall x :: x in r.released ==> r.start <= x < r.next)
    && (forall i, j :: 0 <= i < j < |r.released| ==> r.released[i] != r.released[j])
  }

  lemma SoundIsPartitioned<O>(r: Range<O>)
    ensures Sound(r) <==> Partitioned(r)
  {
    if Sound(r) {
      var whole := Span(r.start, r.end);
      assert r.held.Keys + Returned(r) + Skipped(r) + Unreached(r) == whole;
    } else if Partitioned(r) {
      var parts := r.held.Keys + Returned(r) + Skipped(r) + Unreached(r);
      forall x | x in r.held
        ensures r.start <= x < r.next && x !in r.released
      {
        assert x in parts && x !in Unreached(r) && x !in Returned(r);
      }
      forall x | x in r.released
        ensures r.start <= x < r.next
      {
        assert x in Returned(r) && x in parts && x !in Unreached(r);
      }
    }
  }

  /**
   An allocation never returns a held number, and the partition survives it unless the cursor itself
   wraps: the range ends at the largest 32-bit number and that number is the one handed out.
   */
  lemma AllocateKeepsPartition<O>(r: Range<O>, owner: O)
    requires Partitioned(r)
    ensures Allocate(r, owner).None? <==> Returned(r) == {} && Unreached(r) == {}
    ensures Allocate(r, owner).Some? ==>
              var t := Allocate(r, owner).value;
              && t.number !in r.held && r.start <= t.number <= r.end
              && t.range.held == r.held[t.number := owner]
              && Skipped(t.range) <= Skipped(r)
              && (Partitioned(t.range) <==> r.released != [] || r.next != WORD - 1)
  {
    SoundIsPartitioned(r);
    assert r.released != [] ==> r.released[0] in Returned(r);
    assert r.next <= r.end ==> r.next in Unreached(r);
    if Allocate(r, owner).Some? {
      SoundIsPartitioned(Allocate(r, owner).value.range);
    }
  }

  lemma ReleaseKeepsPartition<O>(r: Range<O>, x: nat)
    requires Partitioned(r) && Release(r, x).Some?
    ensures var r' := Release(r, x).value;
            && Partitioned(r') && r'.held == r.held - {x}
            && Returned(r') == Returned(r) + {x} && Skipped(r') == Skipped(r)
  {
  }

  /** The number returned last is the next one handed out, and the range is then as it was but for its holder. */
  lemma ReturnedLastGoesFirst<O>(r: Range<O>, x: nat, owner: O)
    requires x in r.held
    ensures Release(r, x).Some?
    ensures Allocate(Release(r, x).value, owner) == Some(Grant(r.(held := r.held[x := owner]), x))
  {
    assert (r.held - {x})[x := owner] == r.held[x := owner];
    assert (r.released + [x])[..|r.released|] == r.released;
  }

  /** With nothing returned, the number handed out is the lowest never reached. */
  lemma FreshIsLowest<O>(r: Range<O>, owner: O)
    requires Partitioned(r) && r.released == [] && Allocate(r, owner).Some?
    ensures Allocate(r, owner).value.number in Unreached(r)
    ensures forall x :: x in Unreached(r) ==> Allocate(r, owner).value.number <= x
  {
  }

  /**
   Restoring keeps the partition exactly when the number named is not one that was returned (nobody
   checks that it is not) and the cursor does not have to step past the largest 32-bit number.
   */
  lemma RestoreKeepsPartition<O>(r: Range<O>, x: nat, owner: O)
    requires Partitioned(r) && Restore(r, x, owner).Some?
    ensures Partitioned(Restore(r, x, owner).value) <==>
            x !in r.released && (x >= r.next ==> x != WORD - 1)
    ensures x in r.released ==> x in Restore(r, x, owner).value.held && x in Restore(r, x, owner).value.released
  {
  }

  /** What that costs: the restored number is handed out a second time while still held. */
  lemma RestoredReleaseIsAllocatedTwice<O>(r: Range<O>, x: nat, first: O, second: O)
    requires Partitioned(r) && |r.released| > 0 && x == r.released[|r.released| - 1]
    ensures Restore(r, x, first).Some?
    ensures var held := Restore(r, x, first).value;
            && held.held[x] == first
            && Allocate(held, second).Some? && Allocate(held, second).value.number == x
  {
    SoundIsPartitioned(r);
    assert x in r.released;
  }

  datatype Call<O> = CallAllocate(owner: O) | CallRelease(x: nat) | CallRestore(x: nat, owner: O)

  /** A failed call changes nothing. */
  function ApplyCall<O>(r: Range<O>, c: Call<O>): Range<O> {
    match c
    case CallAllocate(owner) => (match Allocate(r, owner) case Some(t) => t.range case None => r)
    case CallRelease(x) => (match Release(r, x) case Some(r') => r' case None => r)
    case CallRestore(x, owner) => (match Restore(r, x, owner) case Some(r') => r' case None => r)
  }

  function RunCalls<O>(r: Range<O>, calls: seq<Call<O>>): Range<O> {
    if calls == [] then r else ApplyCall(RunCalls(r, calls[..|calls| - 1]), calls[|calls| - 1])
  }

  /** No Restore of the run names a number that is on the released stack at that moment. */
  ghost predicate RestoresNothingReleased<O>(r: Range<O>, calls: seq<Call<O>>) {
    forall i :: 0 <= i < |calls| && calls[i].CallRestore? ==> calls[i].x !in RunCalls(r, calls[..i]).released
  }

  /** Over any such run the range stays partitioned, so no number ever has two holders. */
  lemma {:induction false} CallsKeepPartition<O>(start: nat, end: nat, calls: seq<Call<O>>)
    requires start <= end < WORD - 1
    requires RestoresNothingReleased(Fresh(start, end), calls)
    ensures Partitioned(RunCalls(Fresh(start, end), calls))
    ensures RunCalls(Fresh(start, end), calls).start == start && RunCalls(Fresh(start, end), calls).end == end
  {
    var r0 := Fresh<O>(start, end);
    if calls == [] {
      SoundIsPartitioned(r0);
    } else {
      var n := |calls| - 1;
      var init := calls[..n];
      forall i | 0 <= i < |init| && init[i].CallRestore?
        ensures init[i].x !in RunCalls(r0, init[..i]).released
      {
        assert init[..i] == calls[..i];
      }
      CallsKeepPartition(start, end, init);
      var r := RunCalls(r0, init);
      match calls[n]
      case CallAllocate(owner) => AllocateKeepsPartition(r, owner);
      case CallRelease(x) => if Release(r, x).Some? { ReleaseKeepsPartition(r, x); }
      case CallRestore(x, owner) => if Restore(r, x, owner).Some? { RestoreKeepsPartition(r, x, owner); }
    }
  }
}
