/**
 A live capture session: the bounded window of recent packets, the pages read from it or from the recording, and
 the batches of rows pushed to subscribers whose full queues lose whole batches.
 */
module Capture {
  import opened Wrappers

  /** A row of the packet list: its place in the recording and everything decoded from it. */
  datatype Row = Row(index: nat, info: int)

  const SUBSCRIBER_BUFFER := 32

  function Max(a: int, b: int): int {
    if a < b then b else a
  }

  function Min(a: int, b: int): int {
    if a < b then a else b
  }

  /** Each packet's index is its position in the recording. */
  ghost predicate Indexed(rows: seq<Row>) {
    forall i :: 0 <= i < |rows| ==> rows[i].index == i
  }

  /** The rows `[offset, offset + limit)` of a sequence, as far as they exist. */
  function Slice(rows: seq<Row>, offset: int, limit: int): seq<Row> {
    var from := Max(offset, 0);
    if limit <= 0 || from >= |rows| then [] else rows[from..Min(from + limit, |rows|)]
  }

  /** Row `k` of a page is row `k` from its start on, and the page ends at its limit or with the last row. */
  lemma SliceIs(rows: seq<Row>, offset: int, limit: int, k: nat)
    ensures var from: nat := if offset < 0 then 0 else offset;
            && (k < |Slice(rows, offset, limit)| <==> k < limit && from + k < |rows|)
            && (k < |Slice(rows, offset, limit)| ==> Slice(rows, offset, limit)[k] == rows[from + k])
  {
  }

  // ---------- the ring ----------

  class Window {
    const size: nat
    var buf: array<Row>
    var held: nat
    var total: nat

    /** Everything ever appended. */
    ghost var rows: seq<Row>

    ghost predicate Valid()
      reads this, buf
    {
      && size > 0 && buf.Length == size
      && total == |rows| && held == Min(total, size) && buf[..held] == rows[total - held..]
    }

    constructor (size: nat)
      requires size > 0
      ensures Valid() && fresh(buf) && rows == [] && this.size == size
    {
      this.size, held, total, rows := size, 0, 0, [];
      buf := new Row[size](_ => Row(0, 0));
    }

    /** A full ring drops its oldest packet by shifting the rest down. */
    method Append(r: Row)
      requires Valid()
      modifies this, buf
      ensures Valid() && rows == old(rows) + [r] && buf == old(buf)
    {
      RingIsTail(rows, buf[..held], size, r);
      held := PushRing(buf, held, r);
      total := total + 1;
      rows := rows + [r];
    }

    /** The oldest index still held. */
    function First(): (first: nat)
      requires Valid()
      reads this, buf
      ensures first == Max(|rows| - size, 0)
    {
      total - held
    }

    method Get(index: int) returns (r: Option<Row>)
      requires Valid()
      ensures r == if First() <= index < |rows| then Some(rows[index]) else None
    {
      var first := First();
      if index < first || index >= total {
        return None;
      }
      assert buf[..held][index - first] == rows[index];
      return Some(buf[index - first]);
    }

    /** Up to `limit` rows from `offset` on, an offset that has fallen out of the window moving to its start. */
    method Page(offset: int, limit: int) returns (page: seq<Row>)
      requires Valid()
      ensures page == Slice(rows, Max(offset, First()), limit)
    {
      var first := First();
      var from := if offset < first then first else offset;
      if from >= total || limit <= 0 {
        return [];
      }
      var end := Min(from + limit, total);
      TailSlice(rows, held, from - first, end - first);
      assert buf[..held][from - first..end - first] == buf[from - first..end - first];
      return buf[from - first..end - first];
    }
  }

  /** `copy(buf, buf[1:])`. */
  method ShiftDown(a: array<Row>)
    requires a.Length > 0
    modifies a
    ensures a[..a.Length - 1] == old(a[..])[1..]
  {
    for i := 0 to a.Length - 1
      invariant a[..i] == old(a[..])[1..i + 1]
      invariant a[i..] == old(a[..])[i..]
    {
      ghost var next := old(a[..])[i + 1];
      assert a[i + 1] == a[i..][1] == next;
      assert a[i + 1..] == a[i..][1..] == old(a[..])[i + 1..];
      a[i] := a[i + 1];
      assert old(a[..])[1..i + 2] == old(a[..])[1..i + 1] + [next];
    }
  }

  /** A ring's contents after one more row. */
  function RingAfter(held: seq<Row>, size: nat, r: Row): seq<Row> {
    if |held| >= size && held != [] then held[1..] + [r] else held + [r]
  }

  method PushRing(a: array<Row>, held: nat, r: Row) returns (now: nat)
    requires held <= a.Length && a.Length > 0
    modifies a
    ensures now == Min(held + 1, a.Length) && a[..now] == RingAfter(old(a[..held]), a.Length, r)
  {
    ghost var was := a[..held];
    if held == a.Length {
      assert a[..] == was;
      ShiftDown(a);
      a[held - 1] := r;
      assert a[..held] == was[1..] + [r];
      return held;
    }
    a[held] := r;
    assert a[..held + 1] == was + [r];
    return held + 1;
  }

  /** The ring always holds the newest rows. */
  lemma RingIsTail(rows: seq<Row>, held: seq<Row>, size: nat, r: Row)
    requires size > 0 && |held| == Min(|rows|, size) && held == rows[|rows| - |held|..]
    ensures var now := RingAfter(held, size, r);
            |now| == Min(|rows| + 1, size) && now == (rows + [r])[|rows| + 1 - |now|..]
  {
    var k, more := |rows| - |held|, rows + [r];
    TailWith(rows, k, r);
    if |held| >= size {
      DropOne(more, k);
      assert (held + [r])[1..] == held[1..] + [r];
    }
  }

  lemma TailWith(rows: seq<Row>, k: nat, r: Row)
    requires k <= |rows|
    ensures (rows + [r])[k..] == rows[k..] + [r]
  {
  }

  lemma DropOne(rows: seq<Row>, k: nat)
    requires k < |rows|
    ensures rows[k + 1..] == rows[k..][1..]
  {
  }

  lemma TailSlice(rows: seq<Row>, held: nat, x: nat, y: nat)
    requires x <= y <= held <= |rows|
    ensures rows[|rows| - held..][x..y] == rows[|rows| - held + x..|rows| - held + y]
  {
  }

  // ---------- the recording ----------

  /** `ReadPage` over a recording scanned from its start. */
  method ReadPage(recording: seq<Row>, offset: int, limit: int) returns (rows: seq<Row>, total: nat)
    requires Indexed(recording)
    ensures rows == Slice(recording, offset, limit) && total == |recording|
  {
    rows, total := [], 0;
    for i := 0 to |recording|
      invariant total == i && rows == Slice(recording[..i], offset, limit)
    {
      SliceNext(recording, i, offset, limit);
      if i >= offset && |rows| < limit {
        rows := rows + [recording[i]];
      }
      total := total + 1;
    }
    assert recording[..|recording|] == recording;
  }

  lemma SliceNext(rows: seq<Row>, i: nat, offset: int, limit: int)
    requires i < |rows|
    ensures Slice(rows[..i + 1], offset, limit)
            == Slice(rows[..i], offset, limit) + if i >= offset && |Slice(rows[..i], offset, limit)| < limit then [rows[i]] else []
  {
    var from := Max(offset, 0);
    if limit > 0 && from <= i {
      if i < from + limit {
        assert rows[..i + 1][from..i + 1] == rows[..i][from..i] + [rows[i]];
      } else {
        assert rows[..i + 1][from..from + limit] == rows[..i][from..from + limit];
      }
    }
  }

  /** The live page and the recording agree exactly when nothing asked for has fallen out of the window. */
  lemma PageIsRecordingIff(rows: seq<Row>, first: nat, offset: int, limit: int)
    requires Indexed(rows) && (first < |rows| || first == 0)
    ensures Slice(rows, Max(offset, first), limit) == Slice(rows, offset, limit)
            <==> offset >= first || first == 0 || limit <= 0
  {
    if offset < first && first > 0 && limit > 0 {
      assert Slice(rows, first, limit)[0] == rows[first];
      assert Slice(rows, offset, limit)[0] == rows[Max(offset, 0)];
    }
  }

  // ---------- batches ----------

  /** Batches one after the other, none empty. */
  function Joined(batches: seq<seq<Row>>): seq<Row> {
    if batches == [] then [] else Joined(batches[..|batches| - 1]) + batches[|batches| - 1]
  }

  ghost predicate NoneEmpty(batches: seq<seq<Row>>) {
    forall i :: 0 <= i < |batches| ==> batches[i] != []
  }

  lemma JoinedNext(batches: seq<seq<Row>>, b: seq<Row>)
    ensures Joined(batches + [b]) == Joined(batches) + b
  {
  }

  /** Where batch `k` starts in the recording. */
  function StartOf(batches: seq<seq<Row>>, k: nat): nat
    requires k <= |batches|
  {
    |Joined(batches[..k])|
  }

  lemma {:induction false} BatchAt(batches: seq<seq<Row>>, k: nat)
    requires k < |batches|
    ensures StartOf(batches, k + 1) == StartOf(batches, k) + |batches[k]| <= |Joined(batches)|
    ensures Joined(batches)[StartOf(batches, k)..StartOf(batches, k + 1)] == batches[k]
  {
    var n := |batches|;
    assert batches[..k + 1] == batches[..k] + [batches[k]];
    JoinedNext(batches[..k], batches[k]);
    if k + 1 == n {
      assert batches[..n] == batches;
    } else {
      var init := batches[..n - 1];
      BatchAt(init, k);
      assert init[..k] == batches[..k] && init[..k + 1] == batches[..k + 1];
      assert Joined(batches) == Joined(init) + batches[n - 1];
    }
  }

  lemma {:induction false} StartsGrow(batches: seq<seq<Row>>, j: nat, k: nat)
    requires NoneEmpty(batches) && j <= k <= |batches|
    ensures StartOf(batches, j) + (k - j) <= StartOf(batches, k)
  {
    if j < k {
      StartsGrow(batches, j, k - 1);
      BatchAt(batches, k - 1);
    }
  }

  /** Between two received batches the indices run on exactly when no batch was flushed, and lost, in between. */
  lemma GapIffDropped(batches: seq<seq<Row>>, rest: seq<Row>, j: nat, k: nat)
    requires NoneEmpty(batches) && Indexed(Joined(batches) + rest) && j < k < |batches|
    ensures batches[j][|batches[j]| - 1].index + 1 == batches[k][0].index <==> k == j + 1
  {
    BatchAt(batches, j);
    BatchAt(batches, k);
    StartsGrow(batches, j + 1, k);
    var all := Joined(batches);
    assert all[StartOf(batches, j + 1) - 1] == batches[j][|batches[j]| - 1];
    assert all[StartOf(batches, k)] == batches[k][0];
    assert forall i :: 0 <= i < |all| ==> (all + rest)[i] == all[i];
  }

  // ---------- the session ----------

  /** A subscriber's queue, and how many batches it has taken from it. */
  datatype Subscriber = Subscriber(queue: seq<seq<Row>>, taken: nat)

  /** What a subscriber has not yet taken are the last of the batches it was given, in flushing order. */
  ghost predicate Fits(s: Subscriber, given: seq<nat>, flushed: seq<seq<Row>>) {
    && |s.queue| <= SUBSCRIBER_BUFFER && s.taken + |s.queue| == |given|
    && (forall i :: 0 <= i < |given| ==> given[i] < |flushed|)
    && (forall i, j :: 0 <= i < j < |given| ==> given[i] < given[j])
    && forall i :: 0 <= i < |s.queue| ==> s.queue[i] == flushed[given[s.taken + i]]
  }

  ghost predicate SubsFit(subs: map<nat, Subscriber>, given: map<nat, seq<nat>>, flushed: seq<seq<Row>>) {
    subs.Keys == given.Keys && forall c :: c in subs ==> Fits(subs[c], given[c], flushed)
  }

  /** One subscriber before and after a batch is offered to it. */
  ghost predicate Offered(s: Subscriber, had: seq<nat>, batch: seq<Row>, k: nat, s': Subscriber, has: seq<nat>) {
    if |s.queue| < SUBSCRIBER_BUFFER then s' == s.(queue := s.queue + [batch]) && has == had + [k]
    else s' == s && has == had
  }

  lemma OfferKeeps(s: Subscriber, had: seq<nat>, flushed: seq<seq<Row>>, batch: seq<Row>, s': Subscriber, has: seq<nat>)
    requires Fits(s, had, flushed) && Offered(s, had, batch, |flushed|, s', has)
    ensures Fits(s', has, flushed + [batch])
  {
  }

  lemma TakeKeeps(s: Subscriber, had: seq<nat>, flushed: seq<seq<Row>>)
    requires Fits(s, had, flushed) && s.queue != []
    ensures Fits(Subscriber(s.queue[1..], s.taken + 1), had, flushed)
    ensures had[s.taken] < |flushed| && s.queue[0] == flushed[had[s.taken]]
  {
  }

  class Session {
    const window: Window
    var pending: seq<Row>
    var subs: map<nat, Subscriber>
    var finished: bool

    /** Every batch flushed so far, and by subscriber the numbers of those it was given. */
    ghost var flushed: seq<seq<Row>>
    ghost var given: map<nat, seq<nat>>

    ghost predicate Valid()
      reads this, window, window.buf
    {
      && window.Valid() && Indexed(window.rows)
      && Joined(flushed) + pending == window.rows && NoneEmpty(flushed)
      && SubsFit(subs, given, flushed)
    }

    constructor (size: nat)
      requires size > 0
      ensures Valid() && fresh(window) && fresh(window.buf)
      ensures window.rows == [] && flushed == [] && subs == map[] && pending == [] && !finished
    {
      window := new Window(size);
      pending, subs, flushed, given, finished := [], map[], [], map[], false;
      new;
      hide Joined, SubsFit, NoneEmpty, Indexed;
      NothingYet();
    }

    /** The packet's index is assigned here; its row waits for the next flush. */
    method Append(info: int)
      requires Valid()
      modifies this`pending, window, window.buf
      ensures Valid() && flushed == old(flushed) && subs == old(subs) && given == old(given)
      ensures window.rows == old(window.rows) + [Row(|old(window.rows)|, info)]
      ensures pending == old(pending) + [Row(|old(window.rows)|, info)]
    {
      hide SubsFit, Joined, NoneEmpty;
      var r := Row(window.total, info);
      window.Append(r);
      pending := pending + [r];
      assert Joined(flushed) + old(pending) + [r] == Joined(flushed) + pending;
    }

    /** A snapshot of the window, and an empty queue for the batches to come; a finished session has none to come. */
    method Subscribe(c: nat) returns (snapshot: seq<Row>, registered: bool)
      requires Valid() && c !in subs
      modifies this`subs, this`given
      ensures Valid() && snapshot == window.rows[Max(|window.rows| - window.size, 0)..]
      ensures registered <==> !finished
      ensures registered ==> subs == old(subs)[c := Subscriber([], 0)] && given == old(given)[c := []]
      ensures !registered ==> subs == old(subs) && given == old(given)
    {
      hide Joined, NoneEmpty;
      snapshot := window.Page(window.First(), window.size);
      registered := !finished;
      if registered {
        subs, given := subs[c := Subscriber([], 0)], given[c := []];
      }
    }

    /** The capture has ended; what is still pending is flushed once more. */
    method Finish()
      requires Valid()
      modifies this`finished
      ensures Valid() && finished
    {
      hide Joined, NoneEmpty, SubsFit;
      finished := true;
    }

    method Unsubscribe(c: nat)
      requires Valid()
      modifies this`subs, this`given
      ensures Valid() && subs == old(subs) - {c}
    {
      hide Joined, NoneEmpty, Fits;
      subs, given := subs - {c}, given - {c};
    }

    /** The pending rows become one batch; a subscriber whose queue is full misses it. */
    method Flush()
      requires Valid()
      modifies this`pending, this`subs, this`flushed, this`given
      ensures Valid() && pending == [] && subs.Keys == old(subs.Keys)
      ensures flushed == if old(pending) == [] then old(flushed) else old(flushed) + [old(pending)]
      ensures old(pending) == [] ==> subs == old(subs)
      ensures old(pending) != [] ==> forall c :: c in subs ==>
                var q := old(subs)[c].queue;
                subs[c] == Subscriber(if |q| < SUBSCRIBER_BUFFER then q + [old(pending)] else q, old(subs)[c].taken)
    {
      hide Joined, SubsFit, Offered, Indexed;
      SameKeys(subs, given, flushed);
      var batch := pending;
      pending := [];
      if |batch| == 0 {
        return;
      }
      JoinedNext(flushed, batch);
      ghost var before, k := given, |flushed|;
      subs, given := Offer(subs, given, batch, k);
      AllOffered(old(subs), before, flushed, batch, subs, given);
      OfferedQueues(old(subs), before, batch, k, subs, given);
      flushed := flushed + [batch];
    }

    /** A consumer takes its next batch. */
    method Receive(c: nat) returns (batch: Option<seq<Row>>)
      requires Valid()
      modifies this`subs
      ensures Valid() && flushed == old(flushed) && given == old(given)
      ensures batch.Some? <==> c in old(subs) && old(subs)[c].queue != []
      ensures batch.Some? ==> batch.value == old(flushed)[old(given)[c][old(subs)[c].taken]]
      ensures batch.Some? ==> subs == old(subs)[c := Subscriber(old(subs)[c].queue[1..], old(subs)[c].taken + 1)]
      ensures batch.None? ==> subs == old(subs)
    {
      hide Joined, NoneEmpty;
      if c !in subs || subs[c].queue == [] {
        return None;
      }
      var s := subs[c];
      TakeKeeps(s, given[c], flushed);
      hide Fits;
      subs := subs[c := Subscriber(s.queue[1..], s.taken + 1)];
      return Some(s.queue[0]);
    }
  }

  lemma NothingYet()
    ensures Joined([]) == [] && NoneEmpty([]) && Indexed([]) && SubsFit(map[], map[], [])
  {
  }

  /** The batch goes to every queue that has room. */
  method Offer(subs: map<nat, Subscriber>, ghost given: map<nat, seq<nat>>, batch: seq<Row>, ghost k: nat)
    returns (after: map<nat, Subscriber>, ghost gave: map<nat, seq<nat>>)
    requires subs.Keys == given.Keys
    ensures after.Keys == subs.Keys == gave.Keys
    ensures forall c :: c in subs ==> Offered(subs[c], given[c], batch, k, after[c], gave[c])
  {
    after, gave := subs, given;
    var todo := subs.Keys;
    while todo != {}
      invariant todo <= subs.Keys == after.Keys && gave.Keys == subs.Keys
      invariant forall c :: c in todo ==> after[c] == subs[c] && gave[c] == given[c]
      invariant forall c :: c in subs.Keys - todo ==> Offered(subs[c], given[c], batch, k, after[c], gave[c])
      decreases todo
    {
      var c :| c in todo;
      var s := subs[c];
      if |s.queue| < SUBSCRIBER_BUFFER {
        after := after[c := s.(queue := s.queue + [batch])];
        gave := gave[c := given[c] + [k]];
      }
      todo := todo - {c};
    }
  }

  lemma SameKeys(subs: map<nat, Subscriber>, given: map<nat, seq<nat>>, flushed: seq<seq<Row>>)
    requires SubsFit(subs, given, flushed)
    ensures subs.Keys == given.Keys
  {
  }

  lemma AllOffered(subs: map<nat, Subscriber>, given: map<nat, seq<nat>>, flushed: seq<seq<Row>>, batch: seq<Row>,
                   after: map<nat, Subscriber>, gave: map<nat, seq<nat>>)
    requires SubsFit(subs, given, flushed) && after.Keys == subs.Keys == gave.Keys
    requires forall c :: c in subs ==> Offered(subs[c], given[c], batch, |flushed|, after[c], gave[c])
    ensures SubsFit(after, gave, flushed + [batch])
  {
    hide Fits, Offered;
    forall c | c in subs { OfferKeeps(subs[c], given[c], flushed, batch, after[c], gave[c]); }
  }

  lemma OfferedQueues(subs: map<nat, Subscriber>, given: map<nat, seq<nat>>, batch: seq<Row>, k: nat,
                      after: map<nat, Subscriber>, gave: map<nat, seq<nat>>)
    requires subs.Keys == given.Keys == after.Keys == gave.Keys
    requires forall c :: c in subs ==> Offered(subs[c], given[c], batch, k, after[c], gave[c])
    ensures forall c :: c in subs ==>
              after[c] == Subscriber(if |subs[c].queue| < SUBSCRIBER_BUFFER then subs[c].queue + [batch] else subs[c].queue, subs[c].taken)
  {
  }

  // ---------- a subscription ----------

  /** Everything a subscriber that misses no batch is pushed after a moment: what is flushed from then on. */
  ghost function PushedSince(flushed: seq<seq<Row>>, later: seq<seq<Row>>): seq<Row>
    requires flushed <= later
  {
    Joined(later[|flushed|..])
  }

  lemma {:induction false} JoinedConcat(xs: seq<seq<Row>>, ys: seq<seq<Row>>)
    ensures Joined(xs + ys) == Joined(xs) + Joined(ys)
  {
    if ys == [] {
      assert xs + ys == xs;
    } else {
      var init := ys[..|ys| - 1];
      assert (xs + ys)[..|xs + ys| - 1] == xs + init;
      JoinedConcat(xs, init);
    }
  }

  /** What is pushed after a moment starts with the rows that were pending at that moment. */
  lemma PushedStartsPending(rows: seq<Row>, flushed: seq<seq<Row>>, pending: seq<Row>,
                            rows': seq<Row>, flushed': seq<seq<Row>>, pending': seq<Row>)
    requires Joined(flushed) + pending == rows && Joined(flushed') + pending' == rows'
    requires flushed <= flushed' && rows <= rows'
    ensures PushedSince(flushed, flushed') + pending' == pending + rows'[|rows|..]
    ensures PushedSince(flushed, flushed') + pending' == rows'[|rows| - |pending|..]
  {
    hide Joined;
    assert flushed' == flushed + flushed'[|flushed|..];
    JoinedConcat(flushed, flushed'[|flushed|..]);
    var start := |Joined(flushed)|;
    assert start == |rows| - |pending|;
    assert rows'[start..] == PushedSince(flushed, flushed') + pending';
    assert rows'[start..|rows|] == pending;
    assert rows'[start..] == rows'[start..|rows|] + rows'[|rows|..];
  }

  /**
   Between any two states of a session, the first one a subscription: its snapshot and what is pushed or pending
   afterwards hold every row from the snapshot's start on, and the rows they both hold are exactly those pending
   when it subscribed that the window still had. So no row comes twice if and only if none was pending.
   */
  lemma SnapshotThenBatches(rows: seq<Row>, size: nat, flushed: seq<seq<Row>>, pending: seq<Row>,
                            rows': seq<Row>, flushed': seq<seq<Row>>, pending': seq<Row>)
    requires size > 0 && Indexed(rows') && rows <= rows' && flushed <= flushed'
    requires Joined(flushed) + pending == rows && Joined(flushed') + pending' == rows'
    ensures var first := Max(|rows| - size, 0);
            var snapshot, after := rows[first..], PushedSince(flushed, flushed') + pending';
            && (forall r :: r in rows'[first..] <==> r in snapshot || (r in after && r.index >= first))
            && (forall r :: r in snapshot && r in after <==> r in pending && r.index >= first)
            && ((forall r :: r in snapshot ==> r !in after) <==> pending == [])
  {
    hide Joined, PushedSince;
    PushedStartsPending(rows, flushed, pending, rows', flushed', pending');
    var first, start := Max(|rows| - size, 0), |rows| - |pending|;
    TailIs(rows', first);
    TailIs(rows', start);
    TailIs(rows, first);
    TailIs(rows, start);
    assert rows[start..] == pending;
    assert forall i :: 0 <= i < |rows| ==> rows[i] == rows'[i];
    assert |rows| > 0 ==> rows[|rows| - 1] in rows[first..];
  }

  /** A tail of the recording holds the rows from its start on. */
  lemma TailIs(rows: seq<Row>, from: nat)
    requires Indexed(rows) && from <= |rows|
    ensures forall r :: r in rows[from..] <==> from <= r.index < |rows| && rows[r.index] == r
  {
    forall r ensures r in rows[from..] <==> from <= r.index < |rows| && rows[r.index] == r {
      if r in rows[from..] {
        var i :| 0 <= i < |rows[from..]| && rows[from..][i] == r;
        assert rows[from + i] == r;
      }
      if from <= r.index < |rows| && rows[r.index] == r { assert rows[from..][r.index - from] == r; }
    }
  }
}
