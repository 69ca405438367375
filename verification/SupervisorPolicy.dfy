/**
 What a supervision does with the end of a process, over every interleaving: whether it restarts, in which state it
 leaves its program, and how many processes it ever runs. All of it is told from the run's history: how the last
 process ended, or that the next could not be spawned.
 */
module SupervisorPolicy {
  import opened Wrappers
  import opened Supervisor
  import opened SupervisorTheorems

  /** The last thing a supervision learned. */
  datatype Verdict = Exit(failed: bool) | Respawn(spawned: bool)

  /** Whether the event is the end of the wait for the supervision's process, or of its backoff. */
  function Lesson(w: World, e: Event, r: nat): Option<Verdict> {
    if r >= |w.runs| then None
    else
      match e
      case WaitReturns(r', failed) =>
        if r' == r && w.runs[r].stage.Watching? && w.runs[r].stage.process !in w.live then Some(Exit(failed)) else None
      case BackoffOver(r', spawned) => if r' == r && w.runs[r].stage.Backoff? then Some(Respawn(spawned)) else None
      case _ => None
  }

  function Learned(w: World, events: seq<Event>, r: nat): Option<Verdict> {
    if events == [] then None
    else
      var init, e := events[..|events| - 1], events[|events| - 1];
      var lesson := Lesson(Trace(w, init), e, r);
      if lesson.Some? then lesson else Learned(w, init, r)
  }

  /** Whether the policy asks for another process after an exit. */
  predicate AsksAgain(policy: Policy, failed: bool) {
    policy == Always || (policy == OnFailure && failed)
  }

  // ---------- what the stages remember ----------

  /** Where a supervision stands agrees with what it learned, and a watched process is the recorded one. */
  ghost predicate Knows(w: World, r: nat, learned: Option<Verdict>)
    requires Linked(w) && r < |w.runs|
  {
    var p := w.programs[w.runs[r].program];
    match w.runs[r].stage
    case Watching(pid) => p.pid == pid && (p.policy == Never ==> learned == None)
    case Reaped(failed) => learned == Some(Exit(failed))
    case Backoff => learned.Some? && learned.value.Exit? && AsksAgain(p.policy, learned.value.failed)
    case Spawned(_) => learned == Some(Respawn(true)) && p.policy != Never
    case SpawnFailed => learned == Some(Respawn(false)) && p.policy != Never
    case _ => true
  }

  /** A step outside the supervision: its stage stays, and so does its program's record while it acts. */
  ghost predicate Bystander(w: World, w': World, r: nat)
    requires Linked(w) && r < |w.runs|
  {
    && r < |w'.runs| && w'.runs[r].stage == w.runs[r].stage && w'.runs[r].program == w.runs[r].program
    && w.runs[r].program < |w'.programs|
    && w'.programs[w.runs[r].program].policy == w.programs[w.runs[r].program].policy
    && (Acting(w.runs[r]) ==> w'.programs[w.runs[r].program].pid == w.programs[w.runs[r].program].pid)
  }

  lemma BystanderKnows(w: World, w': World, r: nat, learned: Option<Verdict>)
    requires Linked(w) && Linked(w') && r < |w.runs| && Bystander(w, w', r) && Knows(w, r, learned)
    ensures r < |w'.runs| && Knows(w', r, learned)
  {
    hide Linked;
  }

  lemma InstallAside(w: World, name: string, policy: Policy, oneshot: bool, r: nat)
    requires Inv(w) && r < |w.runs|
    ensures Bystander(w, InstallStep(w, name, policy, oneshot), r)
  {
    hide ProcessesOwned, PidsRecorded, CallsFit, RunningIsActing, InstallRefused;
  }

  lemma StartAside(w: World, name: string, spawned: bool, r: nat)
    requires Inv(w) && r < |w.runs|
    ensures Bystander(w, StartStep(w, name, spawned), r)
  {
    hide ProcessesOwned, PidsRecorded, CallsFit;
  }

  lemma CallAside(w: World, c: nat, e: Event, r: nat)
    requires Linked(w) && c < |w.calls| && r < |w.runs|
    ensures Bystander(w, CallStep(w, c, e), r)
  {
  }

  lemma MarkAside(w: World, name: string, r: nat)
    requires Linked(w) && r < |w.runs|
    ensures Bystander(w, Next(w, StopMarks(name)), r) && Bystander(w, Next(w, ShutdownPicks(name)), r)
  {
  }

  /** A supervision's step changes its own stage and its program's record, the latter only while it acts. */
  lemma RunTouchesOwn(w: World, q: nat, e: Event)
    requires q < |w.runs| && w.runs[q].program < |w.programs|
    ensures var w', d := RunStep(w, q, e), w.runs[q].program;
            && |w'.runs| == |w.runs| && |w'.programs| == |w.programs| && w'.programs[d].policy == w.programs[d].policy
            && (forall r :: 0 <= r < |w.runs| && r != q ==> w'.runs[r] == w.runs[r])
            && (forall other :: 0 <= other < |w.programs| && other != d ==> w'.programs[other] == w.programs[other])
            && (!Acting(w.runs[q]) ==> w'.programs == w.programs)
  {
  }

  /** Another supervision's step is none of this one's business. */
  lemma RunAside(w: World, q: nat, e: Event, r: nat)
    requires Inv(w) && q < |w.runs| && r < |w.runs| && r != q
    ensures Bystander(w, RunStep(w, q, e), r)
  {
    if Acting(w.runs[r]) { ActingRuns(w, r); }
    if Acting(w.runs[q]) { ActingRuns(w, q); }
    assert w.runs[r].program < |w.programs| && w.runs[q].program < |w.programs|;
    hide Inv, Linked, RunStep, Acting;
    RunTouchesOwn(w, q, e);
  }

  /** Which supervision an event is a step of. */
  function Mover(e: Event): Option<nat> {
    match e
    case WaitReturns(r, _) => Some(r)
    case Settles(r) => Some(r)
    case BackoffCancelled(r) => Some(r)
    case BackoffOver(r, _) => Some(r)
    case Resumes(r) => Some(r)
    case Closes(r) => Some(r)
    case _ => None
  }

  lemma OthersStandBy(w: World, e: Event, r: nat)
    requires Inv(w) && r < |w.runs| && Mover(e) != Some(r)
    ensures Bystander(w, Next(w, e), r)
  {
    hide Inv, InstallStep, StartStep, CallStep, RunStep, Bystander;
    LinkedOf(w);
    match e
    case Install(name, policy, oneshot) => InstallAside(w, name, policy, oneshot, r);
    case Start(name, spawned) => StartAside(w, name, spawned, r);
    case StopMarks(name) => MarkAside(w, name, r);
    case ShutdownPicks(name) => MarkAside(w, name, r);
    case RemoveDeletes(_) => Untouched(w, Next(w, e), r);
    case ProcessExits(_) => Untouched(w, Next(w, e), r);
    case TerminateLooksUp(c) => if c < |w.calls| { CallAside(w, c, e, r); } else { Untouched(w, w, r); }
    case TerminateCancels(c) => if c < |w.calls| { CallAside(w, c, e, r); } else { Untouched(w, w, r); }
    case TerminateReturns(c) => if c < |w.calls| { CallAside(w, c, e, r); } else { Untouched(w, w, r); }
    case TerminateTimesOut(c) => if c < |w.calls| { CallAside(w, c, e, r); } else { Untouched(w, w, r); }
    case WaitReturns(q, _) => if q < |w.runs| { RunAside(w, q, e, r); } else { Untouched(w, w, r); }
    case Settles(q) => if q < |w.runs| { RunAside(w, q, e, r); } else { Untouched(w, w, r); }
    case BackoffCancelled(q) => if q < |w.runs| { RunAside(w, q, e, r); } else { Untouched(w, w, r); }
    case BackoffOver(q, _) => if q < |w.runs| { RunAside(w, q, e, r); } else { Untouched(w, w, r); }
    case Resumes(q) => if q < |w.runs| { RunAside(w, q, e, r); } else { Untouched(w, w, r); }
    case Closes(q) => if q < |w.runs| { RunAside(w, q, e, r); } else { Untouched(w, w, r); }
  }

  lemma LinkedOf(w: World)
    requires Inv(w)
    ensures Linked(w)
  {
  }

  lemma Untouched(w: World, w': World, r: nat)
    requires Linked(w) && r < |w.runs| && w'.runs == w.runs && w'.programs == w.programs
    ensures Bystander(w, w', r)
  {
  }

  /** A new supervision watches the process recorded with it. */
  lemma NewRunWatches(w: World, e: Event, r: nat)
    requires Inv(w) && |w.runs| <= r < |Next(w, e).runs|
    ensures Linked(Next(w, e)) && Knows(Next(w, e), r, None)
  {
    StepKeeps(w, e);
    LinkedOf(Next(w, e));
    if !e.Start? { OnlyStartsAddRuns(w, e); }
    hide Inv, Next;
    if e.Start? { StartWatches(w, e.name, e.spawned, r); }
  }

  lemma OnlyStartsAddRuns(w: World, e: Event)
    requires !e.Start?
    ensures |Next(w, e).runs| == |w.runs|
  {
    hide InstallRefused;
  }

  lemma StartWatches(w: World, name: string, spawned: bool, r: nat)
    requires |w.runs| <= r < |Next(w, Start(name, spawned)).runs| && Linked(Next(w, Start(name, spawned)))
    ensures Knows(Next(w, Start(name, spawned)), r, None)
  {
    hide Linked;
  }

  lemma SettleKnows(w: World, r: nat, failed: bool, learned: Option<Verdict>)
    requires Linked(w) && r < |w.runs| && w.runs[r].program < |w.programs| && w.runs[r].stage == Reaped(failed)
    requires Knows(w, r, learned) && Linked(SettleStep(w, r, failed))
    ensures r < |SettleStep(w, r, failed).runs| && Knows(SettleStep(w, r, failed), r, learned)
  {
    hide Linked;
  }

  lemma ResumeKnows(w: World, r: nat, learned: Option<Verdict>)
    requires Linked(w) && r < |w.runs| && w.runs[r].program < |w.programs|
    requires w.runs[r].stage.Spawned? || w.runs[r].stage.SpawnFailed?
    requires Knows(w, r, learned) && Linked(ResumeStep(w, r))
    ensures r < |ResumeStep(w, r).runs| && Knows(ResumeStep(w, r), r, learned)
  {
    hide Linked;
  }

  lemma LessonKnows(w: World, e: Event, r: nat, learned: Option<Verdict>)
    requires Linked(w) && r < |w.runs| && w.runs[r].program < |w.programs| && Mover(e) == Some(r) && !e.Settles? && !e.Resumes?
    requires Knows(w, r, learned) && Linked(RunStep(w, r, e))
    ensures r < |RunStep(w, r, e).runs|
    ensures Knows(RunStep(w, r, e), r, if Lesson(w, e, r).Some? then Lesson(w, e, r) else learned)
  {
    hide Linked, SettleStep, ResumeStep;
  }

  /** Its own step takes a supervision from one remembered stage to the next. */
  lemma OwnStepKnows(w: World, e: Event, r: nat, learned: Option<Verdict>)
    requires Inv(w) && r < |w.runs| && Mover(e) == Some(r) && Knows(w, r, learned) && Linked(RunStep(w, r, e))
    ensures r < |RunStep(w, r, e).runs|
    ensures Knows(RunStep(w, r, e), r, if Lesson(w, e, r).Some? then Lesson(w, e, r) else learned)
  {
    LinkedOf(w);
    assert w.runs[r].program < |w.programs|;
    hide Inv, Linked, Knows, SettleStep, ResumeStep;
    var stage := w.runs[r].stage;
    if e.Settles? && stage.Reaped? {
      SettleKnows(w, r, stage.failed, learned);
    } else if e.Resumes? && (stage.Spawned? || stage.SpawnFailed?) {
      ResumeKnows(w, r, learned);
    } else if !e.Settles? && !e.Resumes? {
      LessonKnows(w, e, r, learned);
    }
  }

  /** Over every run, each supervision stands where what it learned puts it. */
  lemma {:induction false} HistoryIsKnown(w: World, events: seq<Event>, r: nat)
    requires Booted(w)
    ensures Inv(Trace(w, events))
    ensures r < |Trace(w, events).runs| ==> Knows(Trace(w, events), r, Learned(w, events, r))
    ensures r >= |Trace(w, events).runs| ==> Learned(w, events, r) == None
    decreases |events|
  {
    hide Inv, Next, Booted, Knows, Linked;
    EveryInterleavingIsSafe(w, events);
    LinkedOf(Trace(w, events));
    if events == [] {
      NothingRuns(w, r);
    } else {
      var init, e := events[..|events| - 1], events[|events| - 1];
      var now := Trace(w, init);
      HistoryIsKnown(w, init, r);
      LinkedOf(now);
      if r < |Next(now, e).runs| {
        if r >= |now.runs| {
          NewRunWatches(now, e, r);
        } else if Mover(e) == Some(r) {
          RunIsNext(now, e, r);
          OwnStepKnows(now, e, r, Learned(w, init, r));
        } else {
          OthersStandBy(now, e, r);
          NoLesson(now, e, r);
          BystanderKnows(now, Next(now, e), r, Learned(w, init, r));
        }
      } else {
        RunsStay(now, e);
      }
    }
  }

  lemma NothingRuns(w: World, r: nat)
    requires Booted(w)
    ensures w.runs == [] && Linked(w)
  {
  }

  lemma RunIsNext(w: World, e: Event, r: nat)
    requires Mover(e) == Some(r) && r < |w.runs|
    ensures Next(w, e) == RunStep(w, r, e)
  {
  }

  lemma NoLesson(w: World, e: Event, r: nat)
    requires Mover(e) != Some(r)
    ensures Lesson(w, e, r) == None
  {
  }

  lemma RunsStay(w: World, e: Event)
    ensures |w.runs| <= |Next(w, e).runs|
  {
    hide InstallRefused;
  }

  // ---------- what becomes of a program ----------

  /**
   The lock region after an exit, in any run: the supervision goes on, with the program still running, if and only
   if nobody cancelled it or asked the program to stop and the policy asks for another process. Otherwise the program
   is left Stopped on request, Failed after a failure, Exited after a clean run of a oneshot, and Stopped after any
   other clean exit; a oneshot that ran to its end is no longer wanted.
   */
  lemma AfterAnExit(w: World, events: seq<Event>, e: Event, r: nat)
    requires Booted(w) && r < |Trace(w, events).runs| && Trace(w, events).runs[r].stage.Reaped?
    requires r < |Next(Trace(w, events), e).runs| ==> !Next(Trace(w, events), e).runs[r].stage.Reaped?
    ensures var now, next := Trace(w, events), Next(Trace(w, events), e);
            && Linked(now) && Linked(next) && r < |next.runs| && next.runs[r].program == now.runs[r].program
            && Learned(w, events, r).Some? && Learned(w, events, r).value.Exit?
            && var d, failed := now.runs[r].program, Learned(w, events, r).value.failed;
            && var p, asked := now.programs[d], now.runs[r].cancelled || !now.programs[d].wanted;
            && (Acting(next.runs[r]) <==> !asked && AsksAgain(p.policy, failed))
            && next.programs[d].state == (if asked then Stopped
                                          else if AsksAgain(p.policy, failed) then Running
                                          else if failed then Failed
                                          else if p.oneshot then Exited else Stopped)
            && next.programs[d].pid == 0
            && next.programs[d].wanted == (p.wanted && next.programs[d].state != Exited)
  {
    hide Inv, Booted, Knows, Learned;
    var now := Trace(w, events);
    HistoryIsKnown(w, events, r);
    LinkedOf(now);
    StepKeeps(now, e);
    LinkedOf(Next(now, e));
    RunsStay(now, e);
    ReapedKnows(now, r, Learned(w, events, r));
    hide Trace, Linked;
    if Mover(e) != Some(r) {
      OthersStandBy(now, e, r);
      assert false;
    }
    ActingRuns(now, r);
  }

  lemma ReapedKnows(w: World, r: nat, learned: Option<Verdict>)
    requires Linked(w) && r < |w.runs| && w.runs[r].stage.Reaped? && Knows(w, r, learned)
    ensures learned == Some(Exit(w.runs[r].stage.failed))
  {
  }

  /** A program stops running only by a step of the supervision that runs it. */
  lemma OnlyItsOwnStepStopsIt(w: World, e: Event, d: nat)
    requires Inv(w) && d < |w.programs| && w.programs[d].state == Running
    requires d < |Next(w, e).programs| ==> Next(w, e).programs[d].state != Running
    ensures var run := w.programs[d].run;
            && run.Some? && run.value < |w.runs| && w.runs[run.value].program == d && Acting(w.runs[run.value])
            && d < |Next(w, e).programs| && Mover(e) == run && Next(w, e) == RunStep(w, run.value, e)
  {
    RunningHasRun(w, d);
    hide Inv, Next, RunStep;
    if Mover(e).None? {
      CallersStopNothing(w, e, d);
    } else if Mover(e).value >= |w.runs| {
      NoSuchRun(w, e);
    } else {
      RunIsNext(w, e, Mover(e).value);
      if w.programs[d].run != Mover(e) { OthersStopNothing(w, Mover(e).value, e, d); }
    }
  }

  lemma NoSuchRun(w: World, e: Event)
    requires Mover(e).Some? && Mover(e).value >= |w.runs|
    ensures Next(w, e) == w
  {
  }

  lemma CallersStopNothing(w: World, e: Event, d: nat)
    requires Mover(e).None? && d < |w.programs| && w.programs[d].state == Running
    ensures d < |Next(w, e).programs| && Next(w, e).programs[d].state == Running
  {
    hide InstallRefused;
  }

  lemma RunningHasRun(w: World, d: nat)
    requires Inv(w) && d < |w.programs| && w.programs[d].state == Running
    ensures var run := w.programs[d].run;
            run.Some? && run.value < |w.runs| && w.runs[run.value].program == d && Acting(w.runs[run.value])
  {
    hide ProcessesOwned, PidsRecorded, CallsFit;
  }

  lemma OthersStopNothing(w: World, q: nat, e: Event, d: nat)
    requires Inv(w) && q < |w.runs| && d < |w.programs| && w.programs[d].state == Running && w.programs[d].run != Some(q)
    ensures |RunStep(w, q, e).programs| == |w.programs| && RunStep(w, q, e).programs[d].state == Running
  {
    RunningHasRun(w, d);
    if Acting(w.runs[q]) { ActingRuns(w, q); }
    hide Inv;
  }

  /**
   Why a program stops running, in any run. If it is still wanted and nobody cancelled its supervision, then one with
   policy Always could not be respawned, and one with policy OnFailure either that or its process ended cleanly; it is
   left Failed exactly if its last exit or respawn failed, Exited exactly if a oneshot ended cleanly, and Stopped
   otherwise. On request it is left Stopped, unless a respawn under way has just failed.
   */
  lemma WhyItStopsRunning(w: World, events: seq<Event>, e: Event, d: nat)
    requires Booted(w) && d < |Trace(w, events).programs| && Trace(w, events).programs[d].state == Running
    requires d < |Next(Trace(w, events), e).programs| ==> Next(Trace(w, events), e).programs[d].state != Running
    ensures var now, next := Trace(w, events), Next(Trace(w, events), e);
            && d < |next.programs| && now.programs[d].run.Some? && now.programs[d].run.value < |now.runs|
            && var p, state := now.programs[d], next.programs[d].state;
               var r := p.run.value;
               var learned, asked := Learned(w, events, r), now.runs[r].cancelled || !p.wanted;
            && learned.Some?
            && (p.policy == Always && !asked ==> learned == Some(Respawn(false)))
            && (p.policy == OnFailure && !asked ==> learned == Some(Respawn(false)) || learned == Some(Exit(false)))
            && (!asked ==>
                  && (state == Failed <==> learned == Some(Exit(true)) || learned == Some(Respawn(false)))
                  && (state == Exited <==> learned == Some(Exit(false)) && p.oneshot)
                  && (state == Stopped <==> learned == Some(Exit(false)) && !p.oneshot))
            && (asked ==> state == if learned == Some(Respawn(false)) then Failed else Stopped)
  {
    hide Inv, Booted, Knows, Learned, Linked;
    var now := Trace(w, events);
    EveryInterleavingIsSafe(w, events);
    OnlyItsOwnStepStopsIt(now, e, d);
    var r := now.programs[d].run.value;
    HistoryIsKnown(w, events, r);
    LinkedOf(now);
    StageLearned(now, r, Learned(w, events, r));
    hide Trace;
  }

  /** What the stages that can end a supervision have learned. */
  lemma StageLearned(w: World, r: nat, learned: Option<Verdict>)
    requires Linked(w) && r < |w.runs| && Knows(w, r, learned)
    ensures w.runs[r].program < |w.programs|
    ensures match w.runs[r].stage
            case Reaped(failed) => learned == Some(Exit(failed))
            case Backoff => learned.Some? && learned.value.Exit?
                            && AsksAgain(w.programs[w.runs[r].program].policy, learned.value.failed)
            case SpawnFailed => learned == Some(Respawn(false))
            case _ => true
  {
  }

  /** Another process is spawned only after an exit for which the policy asks for one. */
  lemma RespawnsAsAsked(w: World, events: seq<Event>, e: Event, r: nat, pid: nat)
    requires Booted(w) && r < |Trace(w, events).runs| && r < |Next(Trace(w, events), e).runs|
    requires ProcessOf(Next(Trace(w, events), e).runs[r]) == Some(pid) != ProcessOf(Trace(w, events).runs[r])
    ensures var now := Trace(w, events);
            && now.runs[r].program < |now.programs| && Learned(w, events, r).Some? && Learned(w, events, r).value.Exit?
            && AsksAgain(now.programs[now.runs[r].program].policy, Learned(w, events, r).value.failed)
  {
    hide Inv, Booted, Knows, Learned, Linked;
    var now := Trace(w, events);
    HistoryIsKnown(w, events, r);
    LinkedOf(now);
    StageLearned(now, r, Learned(w, events, r));
    hide Trace;
    if Mover(e) != Some(r) {
      OthersStandBy(now, e, r);
      assert false;
    }
  }

  /** So a supervision of a program that is never restarted has one process ever. */
  lemma {:induction false} NeverHasOneProcess(w: World, events: seq<Event>, i: nat, r: nat, pid: nat, pid': nat)
    requires Booted(w) && i <= |events| && r < |Trace(w, events[..i]).runs| && r < |Trace(w, events).runs|
    requires Trace(w, events[..i]).runs[r].program < |Trace(w, events[..i]).programs|
    requires Trace(w, events[..i]).programs[Trace(w, events[..i]).runs[r].program].policy == Never
    requires ProcessOf(Trace(w, events[..i]).runs[r]) == Some(pid) && ProcessOf(Trace(w, events).runs[r]) == Some(pid')
    ensures pid == pid'
    decreases |events|
  {
    hide Next, Booted, ProcessOf, Learned;
    if i == |events| {
      assert events[..i] == events;
    } else {
      var init, e := events[..|events| - 1], events[|events| - 1];
      assert init[..i] == events[..i];
      NeverStays(w, init, i, r);
      if ProcessOf(Trace(w, init).runs[r]) == Some(pid') {
        NeverHasOneProcess(w, init, i, r, pid, pid');
      } else {
        RespawnsAsAsked(w, init, e, r, pid');
        assert false;
      }
    }
  }

  lemma {:induction false} NeverStays(w: World, events: seq<Event>, i: nat, r: nat)
    requires Booted(w) && i <= |events| && r < |Trace(w, events[..i]).runs|
    requires Trace(w, events[..i]).runs[r].program < |Trace(w, events[..i]).programs|
    requires Trace(w, events[..i]).programs[Trace(w, events[..i]).runs[r].program].policy == Never
    ensures r < |Trace(w, events).runs| && Trace(w, events).runs[r].program < |Trace(w, events).programs|
    ensures Trace(w, events).programs[Trace(w, events).runs[r].program].policy == Never
    decreases |events|
  {
    hide Next, Booted;
    if i == |events| {
      assert events[..i] == events;
    } else {
      var init, e := events[..|events| - 1], events[|events| - 1];
      assert init[..i] == events[..i];
      NeverStays(w, init, i, r);
      EveryInterleavingIsSafe(w, init);
      PolicyStays(Trace(w, init), e, r);
    }
  }

  lemma PolicyStays(w: World, e: Event, r: nat)
    requires Inv(w) && r < |w.runs|
    ensures var w' := Next(w, e);
            && w.runs[r].program < |w.programs| && r < |w'.runs| && w'.runs[r].program == w.runs[r].program
            && w.runs[r].program < |w'.programs|
            && w'.programs[w.runs[r].program].policy == w.programs[w.runs[r].program].policy
  {
    LinkedOf(w);
    if Mover(e) == Some(r) {
      RunIsNext(w, e, r);
      OwnStepKeepsPolicy(w, e, r);
    } else {
      OthersStandBy(w, e, r);
    }
    hide Inv, Next;
  }

  lemma OwnStepKeepsPolicy(w: World, e: Event, r: nat)
    requires Linked(w) && r < |w.runs|
    ensures var w' := RunStep(w, r, e);
            && w.runs[r].program < |w.programs| && r < |w'.runs| && w'.runs[r].program == w.runs[r].program
            && |w'.programs| == |w.programs|
            && w'.programs[w.runs[r].program].policy == w.programs[w.runs[r].program].policy
  {
  }

  /** While a process is watched it is the one recorded with its program. */
  lemma WatchedIsRecorded(w: World, events: seq<Event>, r: nat)
    requires Booted(w) && r < |Trace(w, events).runs| && Trace(w, events).runs[r].stage.Watching?
    ensures var now := Trace(w, events);
            && now.runs[r].program < |now.programs|
            && now.programs[now.runs[r].program].pid == now.runs[r].stage.process
            && now.programs[now.runs[r].program].state == Running
  {
    hide Booted;
    HistoryIsKnown(w, events, r);
    ActingRuns(Trace(w, events), r);
    hide Inv;
  }

  // ---------- what the calls do ----------

  /** A Start of a program that does not run leaves it Running behind a new process, or Failed if none could be spawned. */
  lemma StartRunsOrFails(w: World, name: string, spawned: bool)
    requires Inv(w) && name in w.table && w.programs[w.table[name]].state != Running
    ensures var d, w' := w.table[name], Next(w, Start(name, spawned));
            && d < |w'.programs| && w'.programs[d].wanted && w'.table == w.table
            && w'.programs[d].state == (if spawned then Running else Failed)
            && (if spawned then w'.programs[d].pid !in w.live && w'.live == w.live + {w'.programs[d].pid} && RunsFor(w', w'.programs[d].pid, d)
                else w'.live == w.live && w'.runs == w.runs)
            && forall other :: 0 <= other < |w.programs| && other != d ==> w'.programs[other] == w.programs[other]
  {
    var w' := Next(w, Start(name, spawned));
    if spawned {
      assert ProcessOf(w'.runs[|w.runs|]) == Some(w.nextPid);
    }
    hide RunningIsActing, PidsRecorded, CallsFit;
  }

  /** A Start of a running program, or of a name nobody installed, changes nothing. */
  lemma StartTwiceIsOnce(w: World, name: string, spawned: bool)
    requires Inv(w) && (name in w.table ==> w.programs[w.table[name]].state == Running)
    ensures Next(w, Start(name, spawned)) == w
  {
    hide ProcessesOwned, RunningIsActing, PidsRecorded, CallsFit;
  }

  /** An Install gives the name a fresh definition that has never run and is not wanted, and touches no other. */
  lemma InstallIsFresh(w: World, name: string, policy: Policy, oneshot: bool)
    requires Inv(w)
    ensures var w', d := Next(w, Install(name, policy, oneshot)), |w.programs|;
            if (name in w.table && w.programs[w.table[name]].state == Running) || (oneshot && policy == Always) then w' == w
            else
              && |w'.programs| == d + 1 && w'.programs[..d] == w.programs && w'.table == w.table[name := d]
              && w'.programs[d] == Program(name, policy, oneshot, Configured, false, 0, None)
              && w'.runs == w.runs && w'.live == w.live && w'.calls == w.calls
  {
    hide ProcessesOwned, RunningIsActing, PidsRecorded, CallsFit;
  }

  /** A Shutdown terminates running programs without touching what is wanted; a Stop marks its program unwanted. */
  lemma ShutdownKeepsWishes(w: World, name: string)
    requires Inv(w)
    ensures var down, stop := Next(w, ShutdownPicks(name)), Next(w, StopMarks(name));
            && down.programs == w.programs
            && (|down.calls| == |w.calls| + 1 <==> name in w.table && w.programs[w.table[name]].state == Running)
            && (name !in w.table ==> stop == w)
            && (name in w.table ==> |stop.calls| == |w.calls| + 1 && stop.programs[w.table[name]] == w.programs[w.table[name]].(wanted := false))
  {
    hide ProcessesOwned, RunningIsActing, PidsRecorded, CallsFit;
  }
}
