/** The two allocators as the controller holds them: objects updated in place. */
module Allocators {
  import opened Wrappers
  import opened Ranges
  import opened Fabric

  /** One address pool, its subnets numbered from zero. */
  class AddressPool {
    const last: nat
    var next: nat
    var held: map<nat, Owner>
    var released: seq<nat>

    ghost function View(): Range<Owner>
      reads this
    {
      Range(0, last, next, held, released)
    }

    constructor (last: nat)
      ensures View() == Fresh(0, last) && this.last == last
    {
      this.last := last;
      next, held, released := 0, map[], [];
    }

    method Allocate(owner: Owner) returns (r: Option<nat>)
      requires last < WORD - 1
      modifies this
      ensures match Ranges.Allocate(old(View()), owner)
              case Some(g) => View() == g.range && r == Some(g.number)
              case None => View() == old(View()) && r == None
    {
      if |released| > 0 {
        var x := released[|released| - 1];
        released := released[..|released| - 1];
        held := held[x := owner];
        return Some(x);
      }
      if next > last {
        return None;
      }
      r := Some(next);
      held := held[next := owner];
      next := next + 1;
    }

    method Release(x: nat) returns (ok: bool)
      modifies this
      ensures match Ranges.Release(old(View()), x)
              case Some(range) => View() == range && ok
              case None => View() == old(View()) && !ok
    {
      if x !in held {
        return false;
      }
      held := held - {x};
      released := released + [x];
      return true;
    }

    method Restore(x: nat, owner: Owner) returns (ok: bool)
      requires last < WORD - 1
      modifies this
      ensures match Ranges.Restore(old(View()), x, owner)
              case Some(range) => View() == range && ok
              case None => View() == old(View()) && !ok
    {
      if x > last || x in held {
        return false;
      }
      held := held[x := owner];
      if x >= next {
        next := x + 1;
      }
      return true;
    }
  }

  datatype AsnRange = AsnRange(role: Role, start: nat, end: nat)

  /** What `New` makes of the declared ranges; `None` on an inverted or doubly declared one. */
  function DeclareRanges(ranges: seq<AsnRange>): Option<map<Role, Range<Owner>>> {
    if ranges == [] then Some(map[])
    else
      var m :- DeclareRanges(ranges[..|ranges| - 1]);
      var r := ranges[|ranges| - 1];
      if r.end < r.start || r.role in m then None else Some(m[r.role := Fresh(r.start, r.end)])
  }

  lemma {:induction false} DeclareFails(ranges: seq<AsnRange>, k: nat)
    requires k <= |ranges| && DeclareRanges(ranges[..k]).None?
    ensures DeclareRanges(ranges).None?
    decreases |ranges|
  {
    if k < |ranges| {
      assert ranges[..|ranges| - 1][..k] == ranges[..k];
      DeclareFails(ranges[..|ranges| - 1], k);
    } else {
      assert ranges[..k] == ranges;
    }
  }

  /** The per-role ASN allocator; words wrap at 2^32. */
  class AsnAllocator {
    var ranges: map<Role, Range<Owner>>

    constructor ()
      ensures ranges == map[]
    {
      ranges := map[];
    }

    method Declare(declared: seq<AsnRange>) returns (ok: bool)
      requires ranges == map[]
      modifies this
      ensures ok <==> DeclareRanges(declared).Some?
      ensures ok ==> ranges == DeclareRanges(declared).value
    {
      for i := 0 to |declared|
        invariant DeclareRanges(declared[..i]) == Some(ranges)
      {
        var r := declared[i];
        assert declared[..i + 1][..i] == declared[..i];
        if r.end < r.start || r.role in ranges {
          DeclareFails(declared, i + 1);
          return false;
        }
        ranges := ranges[r.role := Fresh(r.start, r.end)];
      }
      assert declared[..|declared|] == declared;
      return true;
    }

    method Allocate(role: Role, owner: Owner) returns (r: Option<nat>)
      modifies this
      ensures role !in old(ranges) ==> ranges == old(ranges) && r == None
      ensures role in old(ranges) ==>
                match Ranges.Allocate(old(ranges)[role], owner)
                case Some(g) => ranges == old(ranges)[role := g.range] && r == Some(g.number)
                case None => ranges == old(ranges) && r == None
    {
      if role !in ranges {
        return None;
      }
      var range := ranges[role];
      if |range.released| > 0 {
        var last := |range.released| - 1;
        var asn := range.released[last];
        ranges := ranges[role := range.(released := range.released[..last], held := range.held[asn := owner])];
        return Some(asn);
      }
      if range.next > range.end {
        return None;
      }
      ranges := ranges[role := range.(next := Succ(range.next), held := range.held[range.next := owner])];
      return Some(range.next);
    }

    method Release(role: Role, asn: nat) returns (ok: bool)
      modifies this
      ensures ok <==> role in old(ranges) && Ranges.Release(old(ranges)[role], asn).Some?
      ensures ranges == if ok then old(ranges)[role := Ranges.Release(old(ranges)[role], asn).value] else old(ranges)
    {
      if role !in ranges || asn !in ranges[role].held {
        return false;
      }
      var range := ranges[role];
      ranges := ranges[role := range.(held := range.held - {asn}, released := range.released + [asn])];
      return true;
    }

    method Restore(role: Role, asn: nat, owner: Owner) returns (ok: bool)
      modifies this
      ensures ok <==> role in old(ranges) && Ranges.Restore(old(ranges)[role], asn, owner).Some?
      ensures ranges ==
              if ok then old(ranges)[role := Ranges.Restore(old(ranges)[role], asn, owner).value] else old(ranges)
    {
      if role !in ranges {
        return false;
      }
      var range := ranges[role];
      if asn < range.start || asn > range.end || asn in range.held {
        return false;
      }
      ranges := ranges[role := range.(held := range.held[asn := owner], next := if asn >= range.next then Succ(asn) else range.next)];
      return true;
    }
  }

  /** No range is inverted and no role is declared twice. */
  ghost predicate Declarable(ranges: seq<AsnRange>) {
    && (forall r :: r in ranges ==> r.start <= r.end)
    && (forall i, j :: 0 <= i < j < |ranges| ==> ranges[i].role != ranges[j].role)
  }

  /** Every declared role starts with its whole range free, and there are no others. */
  ghost predicate DeclaredAs(ranges: seq<AsnRange>, m: map<Role, Range<Owner>>) {
    && (forall r :: r in ranges ==>
          r.role in m && m[r.role] == Range(r.start, r.end, r.start, map[], []))
    && (forall role :: role in m ==> exists r :: r in ranges && r.role == role)
  }

  lemma DeclarableGrows(init: seq<AsnRange>, r: AsnRange)
    ensures Declarable(init + [r]) <==> Declarable(init) && r.start <= r.end && (forall x :: x in init ==> x.role != r.role)
  {
    var s := init + [r];
    assert forall i :: 0 <= i < |init| ==> init[i] == s[i];
    assert s[|init|] == r && r in s;
    if Declarable(s) {
      forall x | x in init ensures x.role != r.role {
        var i :| 0 <= i < |init| && init[i] == x;
        assert s[i].role != s[|init|].role;
      }
      forall x | x in init ensures x in s {}
      forall i, j | 0 <= i < j < |init| ensures init[i].role != init[j].role { assert s[i].role != s[j].role; }
    }
  }

  /** Declaring succeeds exactly when no range is inverted and no role comes twice, and then each role starts empty. */
  lemma {:induction false} DeclareIff(ranges: seq<AsnRange>)
    ensures DeclareRanges(ranges).Some? <==> Declarable(ranges)
    ensures DeclareRanges(ranges).Some? ==> DeclaredAs(ranges, DeclareRanges(ranges).value)
  {
    if ranges != [] {
      var init, r := ranges[..|ranges| - 1], ranges[|ranges| - 1];
      assert ranges == init + [r];
      DeclareIff(init);
      DeclarableGrows(init, r);
      hide Declarable;
      assert forall x :: x in ranges <==> x in init || x == r;
    }
  }
}
