/**
 What the supervisor promises in every interleaving: one supervision and one process per definition, no process
 behind a program that does not run, a Stop that waits for the end of what it cancelled, and two races that the
 guarantees per name do not survive.
 */
module SupervisorTheorems {
  import opened Wrappers
  import opened Supervisor

  // ---------- what the invariant promises ----------

  /** The live process is one of the definition's. */
  ghost predicate RunsFor(w: World, pid: nat, d: nat) {
    pid in w.live && exists r :: 0 <= r < |w.runs| && ProcessOf(w.runs[r]) == Some(pid) && w.runs[r].program == d
  }

  /** At most one supervision of a definition acts, and at most one process of it lives. */
  lemma OneSupervisionOneProcess(w: World, r: nat, s: nat, pid: nat, pid': nat, d: nat)
    requires Inv(w)
    ensures r < |w.runs| && s < |w.runs| && Acting(w.runs[r]) && Acting(w.runs[s]) && w.runs[r].program == w.runs[s].program
            ==> r == s
    ensures RunsFor(w, pid, d) && RunsFor(w, pid', d) ==> pid == pid'
  {
  }

  /** A program that is not running has no live process and no recorded one. */
  lemma NotRunningNoProcess(w: World, d: nat, pid: nat)
    requires Inv(w) && d < |w.programs| && w.programs[d].state != Running
    ensures w.programs[d].pid == 0 && !RunsFor(w, pid, d)
  {
  }

  /** So whichever step takes a program out of Running does it with no process left. */
  lemma LeavesRunningWithoutProcess(w: World, e: Event, d: nat, pid: nat)
    requires Inv(w) && d < |w.programs| <= |Next(w, e).programs| && Next(w, e).programs[d].state != Running
    ensures !RunsFor(Next(w, e), pid, d)
  {
    hide Inv, Next, RunsFor;
    StepKeeps(w, e);
    NotRunningNoProcess(Next(w, e), d, pid);
  }

  /**
   A Stop that returned without an error, having cancelled a supervision, has seen it end: unless the program
   was started again since, it does not run and has no process.
   */
  lemma StopHasStopped(w: World, c: nat, d: nat, r: nat, pid: nat)
    requires Inv(w) && c < |w.calls| && w.calls[c] == Returned(d, Some(r))
    ensures r < |w.runs| && w.runs[r].stage == Ended && w.runs[r].program == d < |w.programs|
    ensures w.programs[d].run == Some(r) ==> w.programs[d].state != Running && w.programs[d].pid == 0 && !RunsFor(w, pid, d)
  {
  }

  /** An ended supervision stays ended, so it never acts or holds a process again. */
  lemma {:induction false} EndedForever(w: World, events: seq<Event>, r: nat)
    requires Inv(w) && r < |w.runs| && w.runs[r].stage == Ended
    ensures r < |Trace(w, events).runs| && Trace(w, events).runs[r].stage == Ended
  {
    if events != [] {
      var init, e := events[..|events| - 1], events[|events| - 1];
      EndedForever(w, init, r);
      EndedStays(Trace(w, init), e, r);
    }
  }

  lemma EndedStays(w: World, e: Event, r: nat)
    requires r < |w.runs| && w.runs[r].stage == Ended
    ensures r < |Next(w, e).runs| && Next(w, e).runs[r].stage == Ended
  {
  }

  // ---------- one name ----------

  /** Only installed definitions run. */
  ghost predicate OnlyInstalledRun(w: World) {
    forall d :: 0 <= d < |w.programs| && w.programs[d].state == Running ==>
      w.programs[d].name in w.table && w.table[w.programs[d].name] == d
  }

  lemma StepKeepsNames(w: World, e: Event)
    requires Inv(w) && OnlyInstalledRun(w) && !e.RemoveDeletes?
    ensures OnlyInstalledRun(Next(w, e))
  {
    hide ProcessesOwned, PidsRecorded, CallsFit, CallStep, RunStep;
    match e
    case TerminateLooksUp(c) => if c < |w.calls| { CallsTouchNoProgram(w, c, e); }
    case TerminateCancels(c) => if c < |w.calls| { CallsTouchNoProgram(w, c, e); }
    case TerminateReturns(c) => if c < |w.calls| { CallsTouchNoProgram(w, c, e); }
    case TerminateTimesOut(c) => if c < |w.calls| { CallsTouchNoProgram(w, c, e); }
    case WaitReturns(r, _) => if r < |w.runs| { RunsStartNothing(w, r, e); }
    case Settles(r) => if r < |w.runs| { RunsStartNothing(w, r, e); }
    case BackoffCancelled(r) => if r < |w.runs| { RunsStartNothing(w, r, e); }
    case BackoffOver(r, _) => if r < |w.runs| { RunsStartNothing(w, r, e); }
    case Resumes(r) => if r < |w.runs| { RunsStartNothing(w, r, e); }
    case Closes(r) => if r < |w.runs| { RunsStartNothing(w, r, e); }
    case _ =>
  }

  lemma CallsTouchNoProgram(w: World, c: nat, e: Event)
    requires c < |w.calls|
    ensures CallStep(w, c, e).programs == w.programs && CallStep(w, c, e).table == w.table
  {
  }

  /** A supervision never makes a program run that did not. */
  lemma RunsStartNothing(w: World, r: nat, e: Event)
    requires Inv(w) && r < |w.runs|
    ensures var w' := RunStep(w, r, e);
            && w'.table == w.table && |w'.programs| == |w.programs|
            && forall d :: 0 <= d < |w.programs| ==>
                 w'.programs[d].name == w.programs[d].name && (w'.programs[d].state == Running ==> w.programs[d].state == Running)
  {
    if Acting(w.runs[r]) { ActingRuns(w, r); }
    hide Inv;
  }

  /** As long as nothing is removed, a name has at most one live process, whichever definitions it went through. */
  lemma OneProcessPerName(w: World, d: nat, d': nat, pid: nat, pid': nat)
    requires Inv(w) && OnlyInstalledRun(w) && d < |w.programs| && d' < |w.programs|
    requires w.programs[d].name == w.programs[d'].name && RunsFor(w, pid, d) && RunsFor(w, pid', d')
    ensures d == d' && pid == pid'
  {
  }

  lemma {:induction false} NamesStayExclusive(w: World, events: seq<Event>)
    requires Booted(w) && forall e :: e in events ==> !e.RemoveDeletes?
    ensures OnlyInstalledRun(Trace(w, events))
  {
    hide Inv, Next;
    if events != [] {
      var init, e := events[..|events| - 1], events[|events| - 1];
      assert events == init + [e];
      NamesStayExclusive(w, init);
      EveryInterleavingIsSafe(w, init);
      StepKeepsNames(Trace(w, init), e);
    }
  }

  /** Deleting a name keeps that exactly when its definition does not run at that moment. */
  lemma RemoveKeepsNamesIff(w: World, name: string)
    requires Inv(w) && OnlyInstalledRun(w) && name in w.table
    ensures OnlyInstalledRun(Next(w, RemoveDeletes(name))) <==> w.programs[w.table[name]].state != Running
  {
  }

  // ---------- two races ----------

  function Idle(): World {
    World([], map[], [], {}, 1, [])
  }

  lemma TraceNext(w: World, events: seq<Event>, e: Event)
    ensures Trace(w, events + [e]) == Next(Trace(w, events), e)
  {
  }

  /** A Start between a Remove's stop and its delete leaves a process nobody can stop; a reinstall adds another. */
  lemma RemoveRacesStart()
    ensures var w := Trace(Idle(), [Install("a", Never, false), StopMarks("a"), TerminateLooksUp(0), TerminateCancels(0)]
                                   + [Start("a", true), RemoveDeletes("a"), Install("a", Never, false), Start("a", true)]);
            && w.calls == [Returned(0, None)]
            && |w.programs| == 2 && w.programs[0].name == w.programs[1].name == "a" && RunsFor(w, 1, 0) && RunsFor(w, 2, 1)
  {
    var p := Program("a", Never, false, Configured, false, 0, None);
    var stopping := [Install("a", Never, false), StopMarks("a"), TerminateLooksUp(0), TerminateCancels(0)];
    var racing := [Start("a", true), RemoveDeletes("a"), Install("a", Never, false), Start("a", true)];
    var w4 := World([p], map["a" := 0], [], {}, 1, [Returned(0, None)]);
    assert Trace(Idle(), stopping) == w4 by { NothingToStop(); }
    var p0 := p.(wanted := true, state := Running, pid := 1, run := Some(0));
    var w5 := World([p0], map["a" := 0], [Supervision(0, Watching(1), false)], {1}, 2, w4.calls);
    assert Next(w4, racing[0]) == w5;
    var w7 := w5.(programs := [p0, p], table := map["a" := 1]);
    assert Next(w5, racing[1]).table == map[] && Next(Next(w5, racing[1]), racing[2]) == w7;
    var w8 := Next(w7, racing[3]);
    assert w8.live == {1, 2} && w8.runs == [Supervision(0, Watching(1), false), Supervision(1, Watching(2), false)];
    assert ProcessOf(w8.runs[0]) == Some(1) && ProcessOf(w8.runs[1]) == Some(2);
    hide Next, RunsFor;
    assert stopping + racing[..1] == stopping + [racing[0]] && stopping + racing[..2] == stopping + racing[..1] + [racing[1]]
      && stopping + racing[..3] == stopping + racing[..2] + [racing[2]] && stopping + racing == stopping + racing[..3] + [racing[3]];
    TraceNext(Idle(), stopping, racing[0]);
    TraceNext(Idle(), stopping + racing[..1], racing[1]);
    TraceNext(Idle(), stopping + racing[..2], racing[2]);
    TraceNext(Idle(), stopping + racing[..3], racing[3]);
  }

  lemma NothingToStop()
    ensures Trace(Idle(), [Install("a", Never, false), StopMarks("a"), TerminateLooksUp(0), TerminateCancels(0)])
            == World([Program("a", Never, false, Configured, false, 0, None)], map["a" := 0], [], {}, 1, [Returned(0, None)])
  {
    var p := Program("a", Never, false, Configured, false, 0, None);
    var es := [Install("a", Never, false), StopMarks("a"), TerminateLooksUp(0), TerminateCancels(0)];
    var w1 := World([p], map["a" := 0], [], {}, 1, []);
    assert Next(Idle(), es[0]) == w1;
    assert Next(w1, es[1]) == w1.(calls := [Marked("a", 0)]);
    assert Next(w1.(calls := [Marked("a", 0)]), es[2]) == w1.(calls := [Captured(0, None)]);
    assert Next(w1.(calls := [Captured(0, None)]), es[3]) == w1.(calls := [Returned(0, None)]);
    hide Next;
    assert es[..1] == [] + [es[0]] && es[..2] == es[..1] + [es[1]] && es[..3] == es[..2] + [es[2]] && es == es[..3] + [es[3]];
    TraceNext(Idle(), [], es[0]);
    TraceNext(Idle(), es[..1], es[1]);
    TraceNext(Idle(), es[..2], es[2]);
    TraceNext(Idle(), es[..3], es[3]);
  }

  // ---------- what a Stop cancels ----------

  /** The step gives a name another definition, or takes its definition away. */
  predicate Rebinds(w: World, e: Event, name: string) {
    match e
    case Install(n, policy, oneshot) => n == name && !InstallRefused(w, n, policy, oneshot)
    case RemoveDeletes(n) => n == name && name in w.table
    case _ => false
  }

  ghost predicate Rebound(w: World, events: seq<Event>, name: string) {
    exists k :: 0 <= k < |events| && Rebinds(Trace(w, events[..k]), events[k], name)
  }

  /** No other step changes what a name means. */
  lemma OnlyRebindsTable(w: World, e: Event, name: string)
    requires Inv(w)
    ensures |Next(w, e).programs| >= |w.programs|
    ensures !Rebinds(w, e, name) ==> (name in Next(w, e).table <==> name in w.table)
                                     && (name in w.table ==> Next(w, e).table[name] == w.table[name])
    ensures Rebinds(w, e, name) && name in Next(w, e).table ==> Next(w, e).table[name] == |w.programs|
  {
    hide ProcessesOwned, PidsRecorded, CallsFit, RunningIsActing, InstallRefused;
  }

  lemma {:induction false} InvAlong(w: World, events: seq<Event>)
    requires Inv(w)
    ensures Inv(Trace(w, events))
  {
    hide Inv, Next;
    if events != [] {
      InvAlong(w, events[..|events| - 1]);
      StepKeeps(Trace(w, events[..|events| - 1]), events[|events| - 1]);
    }
  }

  /** A name means the same definition at the end of a run if and only if no step of the run rebound it. */
  lemma {:induction false} SameDefinitionIff(w: World, events: seq<Event>, name: string)
    requires Inv(w) && name in w.table
    ensures var w' := Trace(w, events);
            && |w'.programs| >= |w.programs|
            && (name in w'.table && w'.table[name] == w.table[name] <==> !Rebound(w, events, name))
            && (name in w'.table && Rebound(w, events, name) ==> w'.table[name] >= |w.programs|)
  {
    hide Next, Rebinds;
    if events != [] {
      var init, e := events[..|events| - 1], events[|events| - 1];
      SameDefinitionIff(w, init, name);
      InvAlong(w, init);
      OnlyRebindsTable(Trace(w, init), e, name);
      assert Rebound(w, events, name) <==> Rebound(w, init, name) || Rebinds(Trace(w, init), e, name) by {
        RebindsSoFar(w, init, e, name);
        assert events == init + [e];
      }
    }
    hide ProcessesOwned, PidsRecorded, CallsFit, RunningIsActing;
  }

  lemma RebindsSoFar(w: World, init: seq<Event>, e: Event, name: string)
    ensures Rebound(w, init + [e], name) <==> Rebound(w, init, name) || Rebinds(Trace(w, init), e, name)
  {
    hide Rebinds, Trace;
    var events := init + [e];
    assert forall k :: 0 <= k <= |init| ==> events[..k] == init[..k];
    assert init[..|init|] == init && events[|init|] == e;
    if Rebound(w, init, name) {
      var k :| 0 <= k < |init| && Rebinds(Trace(w, init[..k]), init[k], name);
      assert Rebinds(Trace(w, events[..k]), events[k], name);
    }
    if Rebinds(Trace(w, init), e, name) {
      assert Rebinds(Trace(w, events[..|init|]), events[|init|], name);
    }
  }

  /** A call looks its name up when it says so, and not before. */
  lemma {:induction false} StaysMarked(w: World, events: seq<Event>, c: nat)
    requires c < |w.calls| && w.calls[c].Marked? && TerminateLooksUp(c) !in events
    ensures c < |Trace(w, events).calls| && Trace(w, events).calls[c] == w.calls[c]
  {
    if events != [] {
      var init, e := events[..|events| - 1], events[|events| - 1];
      assert events == init + [e] && e in events;
      StaysMarked(w, init, c);
      MarkedStep(Trace(w, init), e, c);
    }
  }

  lemma MarkedStep(w: World, e: Event, c: nat)
    requires c < |w.calls| && w.calls[c].Marked? && e != TerminateLooksUp(c)
    ensures c < |Next(w, e).calls| && Next(w, e).calls[c] == w.calls[c]
  {
  }

  /**
   Whatever runs between the two lookups of a Stop, the second one finds the definition the first one marked if and
   only if no effective Install or Remove of the name came between; if one did, it finds a later definition or none.
   */
  lemma StopFindsWhatItMarkedIff(w: World, name: string, events: seq<Event>)
    requires Inv(w) && name in w.table && TerminateLooksUp(|w.calls|) !in events
    ensures var c, d := |w.calls|, w.table[name];
            var marked := Next(w, StopMarks(name));
            var before := Trace(marked, events);
            var w' := Next(before, TerminateLooksUp(c));
            && c < |before.calls| && c < |w'.calls| && d < |w.programs| <= |before.programs|
            && before.calls[c] == Marked(name, d)
            && (Rebound(marked, events, name) ==>
                  w'.calls[c] == GaveUp || (w'.calls[c].Captured? && w'.calls[c].program >= |w.programs|))
            && (w'.calls[c] == Captured(d, before.programs[d].run) <==> !Rebound(marked, events, name))
  {
    var c := |w.calls|;
    var marked := Next(w, StopMarks(name));
    assert marked.calls[c] == Marked(name, w.table[name]) && marked.table == w.table && |marked.programs| == |w.programs|;
    StepKeeps(w, StopMarks(name));
    StaysMarked(marked, events, c);
    SameDefinitionIff(marked, events, name);
    InvAlong(marked, events);
    LookupFinds(Trace(marked, events), c);
    hide Inv, Next, Rebound, Trace;
  }

  lemma LookupFinds(w: World, c: nat)
    requires Inv(w) && c < |w.calls| && w.calls[c].Marked?
    ensures var w', name := Next(w, TerminateLooksUp(c)), w.calls[c].name;
            && |w'.calls| == |w.calls|
            && (name !in w.table ==> w'.calls[c] == GaveUp)
            && (name in w.table ==> w.table[name] < |w.programs|
                                    && w'.calls[c] == Captured(w.table[name], w.programs[w.table[name]].run))
  {
    hide ProcessesOwned, PidsRecorded, CallsFit, RunningIsActing;
  }

  /** While a definition runs its name can be removed but not reinstalled. */
  lemma RunningRefusesInstall(w: World, e: Event, name: string)
    requires Inv(w) && name in w.table && w.programs[w.table[name]].state == Running
    ensures Rebinds(w, e, name) <==> e == RemoveDeletes(name)
  {
    hide ProcessesOwned, PidsRecorded, CallsFit, RunningIsActing;
  }

  /** So a Stop finds what it marked if that runs until the lookup and the name is not removed. */
  lemma {:induction false} RunningKeepsItsName(w: World, events: seq<Event>, name: string)
    requires Inv(w) && name in w.table && RemoveDeletes(name) !in events
    requires forall k :: 0 <= k < |events| ==>
               && w.table[name] < |Trace(w, events[..k]).programs|
               && Trace(w, events[..k]).programs[w.table[name]].state == Running
    ensures !Rebound(w, events, name)
  {
    if events != [] {
      var init, e := events[..|events| - 1], events[|events| - 1];
      assert events == init + [e] && e in events;
      forall k | 0 <= k < |init|
        ensures w.table[name] < |Trace(w, init[..k]).programs| && Trace(w, init[..k]).programs[w.table[name]].state == Running
      {
        assert init[..k] == events[..k];
      }
      RunningKeepsItsName(w, init, name);
      SameDefinitionIff(w, init, name);
      InvAlong(w, init);
      assert init == events[..|events| - 1];
      RunningRefusesInstall(Trace(w, init), e, name);
      RebindsSoFar(w, init, e, name);
    }
  }

  /**
   A Stop looks its name up twice: if the name is reinstalled and started in between, the new definition is the
   one cancelled, though it is still wanted.
   */
  lemma StopHitsNewerDefinition(w: World, name: string, policy: Policy, oneshot: bool)
    requires Inv(w) && name in w.table && w.programs[w.table[name]].state != Running && !(oneshot && policy == Always)
    ensures var c, r, d := |w.calls|, |w.runs|, |w.programs|;
            var started := Next(Next(Next(w, StopMarks(name)), Install(name, policy, oneshot)), Start(name, true));
            var w' := Next(Next(started, TerminateLooksUp(c)), TerminateCancels(c));
            && |w'.runs| == r + 1 && |w'.programs| == d + 1 && |w'.calls| == c + 1
            && w'.calls[c] == Waiting(d, r) && w'.runs[r].cancelled && w'.programs[d].wanted && d != w.table[name]
  {
    hide ProcessesOwned, PidsRecorded, CallsFit, RunningIsActing, RunStep;
  }
}
