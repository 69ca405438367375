/**
 The channels of a capture session. A flush and the final `end` event both copy the subscribers under the lock and
 send after releasing it, while unsubscribing or dropping the session closes channels under the lock; a send on a
 closed channel panics. This says exactly which interleavings do.
 */
module Broadcast {

  datatype Sender = Flush | Finish

  /** `subs` are registered; `flushing` and `finishing` are copied and not yet sent to. */
  datatype World = World(subs: set<nat>, closed: set<nat>, flushing: set<nat>, finishing: set<nat>, panicked: bool)

  datatype Event =
    | Subscribes(c: nat)
    | Cancels(c: nat)
    | Drops
    | Copies(s: Sender)
    | Sends(s: Sender, c: nat)

  function Idle(): World {
    World({}, {}, {}, {}, false)
  }

  function Sending(w: World, s: Sender): set<nat> {
    if s.Flush? then w.flushing else w.finishing
  }

  function SetSending(w: World, s: Sender, cs: set<nat>): World {
    if s.Flush? then w.(flushing := cs) else w.(finishing := cs)
  }

  /** The subscribers a step closes. */
  function Closing(w: World, e: Event): set<nat> {
    match e
    case Cancels(c) => {c} * w.subs
    case Drops => w.subs
    case _ => {}
  }

  /** A channel is made by its Subscribe and never used again; a broadcast starts after the previous one is through. */
  function Next(w: World, e: Event): World {
    match e
    case Subscribes(c) => if c in w.subs + w.closed then w else w.(subs := w.subs + {c})
    case Cancels(_) => w.(subs := w.subs - Closing(w, e), closed := w.closed + Closing(w, e))
    case Drops => w.(subs := w.subs - Closing(w, e), closed := w.closed + Closing(w, e))
    case Copies(s) => if Sending(w, s) == {} then SetSending(w, s, w.subs) else w
    case Sends(s, c) =>
      if c !in Sending(w, s) then w
      else SetSending(w, s, Sending(w, s) - {c}).(panicked := w.panicked || c in w.closed)
  }

  function Trace(events: seq<Event>): World {
    if events == [] then Idle() else Next(Trace(events[..|events| - 1]), events[|events| - 1])
  }

  /** Step `i` of a run closes a channel that a broadcast has copied and not yet sent to. */
  ghost predicate ClosedUnder(events: seq<Event>, i: nat, s: Sender, c: nat)
    requires i < |events|
  {
    var w := Trace(events[..i]);
    (events[i] == Cancels(c) || events[i] == Drops) && c in w.subs && c in Sending(w, s)
  }

  /** Step `j` sends to the channel. */
  ghost predicate SentAt(events: seq<Event>, j: nat, s: Sender, c: nat)
    requires j < |events|
  {
    events[j] == Sends(s, c) && c in Sending(Trace(events[..j]), s)
  }

  lemma {:induction false} SubsAreOpen(events: seq<Event>)
    ensures Trace(events).subs !! Trace(events).closed
  {
    if events != [] { SubsAreOpen(events[..|events| - 1]); }
  }

  /** Step `k` subscribes the channel, for the first time, and nothing closes it afterwards. */
  ghost predicate RegisteredAt(events: seq<Event>, k: nat, c: nat)
    requires k < |events|
  {
    && events[k] == Subscribes(c) && (forall j :: 0 <= j < k ==> events[j] != Subscribes(c))
    && forall j :: k < j < |events| ==> events[j] != Cancels(c) && events[j] != Drops
  }

  /** Step `k` starts a broadcast while the channel is registered, and it has not been sent to since. */
  ghost predicate CopiedAt(events: seq<Event>, k: nat, s: Sender, c: nat)
    requires k < |events|
  {
    && events[k] == Copies(s) && Sending(Trace(events[..k]), s) == {} && c in Trace(events[..k]).subs
    && forall j :: k < j < |events| ==> events[j] != Sends(s, c)
  }

  /** A channel exists from its subscription on. */
  lemma {:induction false} MadeIff(events: seq<Event>, c: nat)
    ensures c in Trace(events).subs + Trace(events).closed <==> Subscribes(c) in events
  {
    if events != [] {
      MadeIff(events[..|events| - 1], c);
      assert events == events[..|events| - 1] + [events[|events| - 1]];
    }
  }

  /** The registered subscribers of a run, read off its events. */
  lemma {:induction false} RegisteredIff(events: seq<Event>, c: nat)
    ensures c in Trace(events).subs <==> exists k :: 0 <= k < |events| && RegisteredAt(events, k, c)
  {
    if events != [] {
      var n := |events| - 1;
      var init, e := events[..n], events[n];
      RegisteredIff(init, c);
      MadeIff(init, c);
      if c in Trace(init).subs && e != Cancels(c) && e != Drops {
        var k :| 0 <= k < n && RegisteredAt(init, k, c);
        assert RegisteredAt(events, k, c);
      }
      if e == Subscribes(c) && Subscribes(c) !in init {
        assert RegisteredAt(events, n, c);
      }
      if k :| 0 <= k < |events| && RegisteredAt(events, k, c) {
        if k < n { assert RegisteredAt(init, k, c); } else { MadeBefore(init, c); }
      }
    }
  }

  lemma MadeBefore(events: seq<Event>, c: nat)
    requires forall j :: 0 <= j < |events| ==> events[j] != Subscribes(c)
    ensures c !in Trace(events).subs + Trace(events).closed
  {
    MadeIff(events, c);
  }

  lemma CopiedNext(init: seq<Event>, e: Event, k: nat, s: Sender, c: nat)
    requires k < |init|
    ensures CopiedAt(init + [e], k, s, c) <==> CopiedAt(init, k, s, c) && e != Sends(s, c)
  {
    var events := init + [e];
    assert events[..k] == init[..k];
    assert forall j :: 0 <= j < |init| ==> events[j] == init[j];
    assert events[|init|] == e;
  }

  lemma CopiedLast(init: seq<Event>, e: Event, s: Sender, c: nat)
    ensures CopiedAt(init + [e], |init|, s, c) <==> e == Copies(s) && Sending(Trace(init), s) == {} && c in Trace(init).subs
  {
    assert (init + [e])[..|init|] == init;
  }

  /** The channels a broadcast has still to send to, read off the events. */
  lemma {:induction false} CopiedIff(events: seq<Event>, s: Sender, c: nat)
    ensures c in Sending(Trace(events), s) <==> exists k :: 0 <= k < |events| && CopiedAt(events, k, s, c)
  {
    if events != [] {
      var n := |events| - 1;
      var init, e := events[..n], events[n];
      CopiedIff(init, s, c);
      hide CopiedAt;
      assert events == init + [e];
      forall k: nat | k < n { CopiedNext(init, e, k, s, c); }
      CopiedLast(init, e, s, c);
    }
  }

  /** A closed channel stays closed, and what a longer run did first a shorter one did too. */
  lemma {:induction false} ClosedStays(events: seq<Event>, i: nat, c: nat)
    requires i <= |events| && c in Trace(events[..i]).closed
    ensures c in Trace(events).closed
    decreases |events|
  {
    if i == |events| {
      assert events[..i] == events;
    } else {
      assert events[..|events| - 1][..i] == events[..i];
      ClosedStays(events[..|events| - 1], i, c);
    }
  }

  /** A channel about to be sent to is closed exactly if it was closed under that broadcast. */
  lemma {:induction false} ClosedWhileSending(events: seq<Event>, s: Sender, c: nat)
    requires c in Sending(Trace(events), s) && c in Trace(events).closed
    ensures exists i :: 0 <= i < |events| && ClosedUnder(events, i, s, c)
    decreases |events|
  {
    var k := |events| - 1;
    var init, e := events[..k], events[k];
    var w := Trace(init);
    SubsAreOpen(init);
    if c in Closing(w, e) && c in Sending(w, s) {
      assert ClosedUnder(events, k, s, c);
    } else {
      ClosedWhileSending(init, s, c);
      var i :| 0 <= i < |init| && ClosedUnder(init, i, s, c);
      assert events[..i] == init[..i];
      assert ClosedUnder(events, i, s, c);
    }
  }

  lemma {:induction false} PanickedAt(events: seq<Event>)
    requires Trace(events).panicked
    ensures exists j, s, c :: 0 <= j < |events| && SentAt(events, j, s, c) && c in Trace(events[..j]).closed
    decreases |events|
  {
    var k := |events| - 1;
    var init := events[..k];
    if Trace(init).panicked {
      PanickedAt(init);
      var j, s, c :| 0 <= j < |init| && SentAt(init, j, s, c) && c in Trace(init[..j]).closed;
      assert events[..j] == init[..j];
      assert SentAt(events, j, s, c);
    } else {
      assert SentAt(events, k, events[k].s, events[k].c);
    }
  }

  lemma {:induction false} PanicStays(events: seq<Event>, j: nat)
    requires j <= |events| && Trace(events[..j]).panicked
    ensures Trace(events).panicked
    decreases |events|
  {
    if j == |events| {
      assert events[..j] == events;
    } else {
      assert events[..|events| - 1][..j] == events[..j];
      PanicStays(events[..|events| - 1], j);
    }
  }

  /**
   A run panics if and only if some channel is closed, by an unsubscribe or a drop, after a broadcast has copied it
   and is sent to by that broadcast later.
   */
  lemma PanicsIff(events: seq<Event>)
    ensures Trace(events).panicked <==>
            exists i, j, s, c :: 0 <= i < j < |events| && ClosedUnder(events, i, s, c) && SentAt(events, j, s, c)
  {
    hide ClosedUnder, SentAt;
    if Trace(events).panicked {
      PanickedAt(events);
      var j, s, c :| 0 <= j < |events| && SentAt(events, j, s, c) && c in Trace(events[..j]).closed;
      ClosedBefore(events, j, s, c);
    }
    if i, j, s, c :| 0 <= i < j < |events| && ClosedUnder(events, i, s, c) && SentAt(events, j, s, c) {
      SendPanics(events, i, j, s, c);
    }
  }

  lemma ClosedBefore(events: seq<Event>, j: nat, s: Sender, c: nat)
    requires j < |events| && SentAt(events, j, s, c) && c in Trace(events[..j]).closed
    ensures exists i :: 0 <= i < j && ClosedUnder(events, i, s, c)
  {
    ClosedWhileSending(events[..j], s, c);
    var i :| 0 <= i < j && ClosedUnder(events[..j], i, s, c);
    assert events[..j][..i] == events[..i];
    assert ClosedUnder(events, i, s, c);
  }

  lemma SendPanics(events: seq<Event>, i: nat, j: nat, s: Sender, c: nat)
    requires i < j < |events| && ClosedUnder(events, i, s, c) && SentAt(events, j, s, c)
    ensures Trace(events).panicked
  {
    assert events[..i + 1][..i] == events[..i];
    assert c in Trace(events[..i + 1]).closed;
    assert events[..j][..i + 1] == events[..i + 1];
    ClosedStays(events[..j], i + 1, c);
    assert events[..j + 1][..j] == events[..j];
    assert Trace(events[..j + 1]).panicked;
    PanicStays(events, j + 1);
  }

  /** The shortest such run: one subscriber leaves while a flush is about to send to it. */
  lemma LeavingUnderAFlushPanics()
    ensures Trace([Subscribes(0), Copies(Flush), Cancels(0), Sends(Flush, 0)]).panicked
  {
    var es := [Subscribes(0), Copies(Flush), Cancels(0), Sends(Flush, 0)];
    assert es[..3][..2] == es[..2] && es[..2][..1] == es[..1] && es[..1][..0] == [];
    assert Trace(es[..1]) == World({0}, {}, {}, {}, false);
    assert Trace(es[..2]) == World({0}, {}, {0}, {}, false);
    assert Trace(es[..3]) == World({}, {0}, {0}, {}, false);
  }
}
