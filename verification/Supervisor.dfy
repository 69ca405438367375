/**
 The node agent's process supervisor, as an interleaving of its lock regions and of what happens between them:
 calls of Install, Start, Stop and Remove, the steps of each supervision goroutine, and process exits at any
 moment. A definition is one installed program record; reinstalling a name makes a new one.
 */
module Supervisor {
  import opened Wrappers

  datatype Policy = Never | OnFailure | Always

  datatype State = Configured | Running | Stopped | Failed | Exited

  /** `run` is the supervision its `cancel` and `done` belong to; `pid` is zero when none is recorded. */
  datatype Program = Program(
    name: string, policy: Policy, oneshot: bool, state: State, wanted: bool, pid: nat, run: Option<nat>)

  /** Where a supervision goroutine stands. */
  datatype Stage =
    | Watching(process: nat)       // in waitProcess
    | Reaped(failed: bool)         // the process is gone, the lock not yet taken
    | Backoff                      // unlocked, waiting to restart
    | Spawned(process: nat)        // the next process runs, the lock not yet taken
    | SpawnFailed
    | Returning                    // its last lock region is over
    | Ended                        // `done` is closed

  datatype Supervision = Supervision(program: nat, stage: Stage, cancelled: bool)

  /**
   A Stop (or a Shutdown's terminate) in progress, by what it has looked up so far: the definition it marked as
   unwanted (or found running), then the one its second lookup of the name found.
   */
  datatype Call =
    | Marked(name: string, program: nat)
    | Captured(program: nat, context: Option<nat>)
    | Waiting(program: nat, run: nat)
    | Returned(program: nat, context: Option<nat>)
    | GaveUp

  datatype World = World(
    programs: seq<Program>, table: map<string, nat>, runs: seq<Supervision>, live: set<nat>, nextPid: nat,
    calls: seq<Call>)

  datatype Event =
    | Install(name: string, policy: Policy, oneshot: bool)
    | Start(name: string, spawned: bool)
    | StopMarks(name: string)
    | ShutdownPicks(name: string)
    | TerminateLooksUp(call: nat)
    | TerminateCancels(call: nat)
    | TerminateReturns(call: nat)
    | TerminateTimesOut(call: nat)
    | RemoveDeletes(name: string)
    | ProcessExits(pid: nat)
    | WaitReturns(run: nat, failed: bool)
    | Settles(run: nat)
    | BackoffCancelled(run: nat)
    | BackoffOver(run: nat, spawned: bool)
    | Resumes(run: nat)
    | Closes(run: nat)

  // ---------- the steps ----------

  function SetProgram(w: World, d: nat, p: Program): World
    requires d < |w.programs|
  {
    w.(programs := w.programs[d := p])
  }

  function SetStage(w: World, r: nat, stage: Stage): World
    requires r < |w.runs|
  {
    w.(runs := w.runs[r := w.runs[r].(stage := stage)])
  }

  function SetCall(w: World, c: nat, call: Call): World
    requires c < |w.calls|
  {
    w.(calls := w.calls[c := call])
  }

  /** An install is refused while the installed definition runs. */
  predicate InstallRefused(w: World, name: string, policy: Policy, oneshot: bool) {
    || (name in w.table && w.table[name] < |w.programs| && w.programs[w.table[name]].state == Running)
    || (oneshot && policy == Always)
  }

  /** Otherwise a new definition takes the name. */
  function InstallStep(w: World, name: string, policy: Policy, oneshot: bool): World {
    if InstallRefused(w, name, policy, oneshot) then w
    else
      w.(programs := w.programs + [Program(name, policy, oneshot, Configured, false, 0, None)],
         table := w.table[name := |w.programs|])
  }

  /** A running program is left alone; otherwise the first process is spawned under the lock. */
  function StartStep(w: World, name: string, spawned: bool): World {
    if name !in w.table || w.table[name] >= |w.programs| then w
    else
      var d := w.table[name];
      var p := w.programs[d];
      if p.state == Running then w
      else if !spawned then SetProgram(w, d, p.(wanted := true, state := Failed))
      else
        w.(programs := w.programs[d := p.(wanted := true, state := Running, pid := w.nextPid, run := Some(|w.runs|))],
           runs := w.runs + [Supervision(d, Watching(w.nextPid), false)],
           live := w.live + {w.nextPid}, nextPid := w.nextPid + 1)
  }

  /** The lock region after a process is gone. */
  function SettleStep(w: World, r: nat, failed: bool): World
    requires r < |w.runs| && w.runs[r].program < |w.programs|
  {
    var d := w.runs[r].program;
    var p := w.programs[d].(pid := 0);
    if w.runs[r].cancelled || !p.wanted then SetStage(SetProgram(w, d, p.(state := Stopped)), r, Returning)
    else if p.policy == Always || (p.policy == OnFailure && failed) then SetStage(SetProgram(w, d, p), r, Backoff)
    else if failed then SetStage(SetProgram(w, d, p.(state := Failed)), r, Returning)
    else if p.oneshot then SetStage(SetProgram(w, d, p.(state := Exited, wanted := false)), r, Returning)
    else SetStage(SetProgram(w, d, p.(state := Stopped)), r, Returning)
  }

  /** The lock region after a respawn. */
  function ResumeStep(w: World, r: nat): World
    requires r < |w.runs| && w.runs[r].program < |w.programs|
  {
    var d := w.runs[r].program;
    match w.runs[r].stage
    case Spawned(pid) => SetStage(SetProgram(w, d, w.programs[d].(pid := pid, state := Running)), r, Watching(pid))
    case _ => SetStage(SetProgram(w, d, w.programs[d].(state := Failed)), r, Returning)
  }

  function CallStep(w: World, c: nat, e: Event): World
    requires c < |w.calls|
  {
    match (w.calls[c], e)
    case (Marked(name, _), TerminateLooksUp(_)) =>
      if name in w.table && w.table[name] < |w.programs|
      then SetCall(w, c, Captured(w.table[name], w.programs[w.table[name]].run)) else SetCall(w, c, GaveUp)
    case (Captured(d, None), TerminateCancels(_)) => SetCall(w, c, Returned(d, None))
    case (Captured(d, Some(r)), TerminateCancels(_)) =>
      if r < |w.runs| then SetCall(w.(runs := w.runs[r := w.runs[r].(cancelled := true)]), c, Waiting(d, r)) else w
    case (Waiting(d, r), TerminateReturns(_)) =>
      if r < |w.runs| && w.runs[r].stage == Ended then SetCall(w, c, Returned(d, Some(r))) else w
    case (Waiting(_, _), TerminateTimesOut(_)) => SetCall(w, c, GaveUp)
    case _ => w
  }

  /** One step of a supervision goroutine; a step that does not fit its stage does not happen. */
  function RunStep(w: World, r: nat, e: Event): World
    requires r < |w.runs|
  {
    if w.runs[r].program >= |w.programs| then w
    else
      match (w.runs[r].stage, e)
      case (Watching(pid), WaitReturns(_, failed)) => if pid in w.live then w else SetStage(w, r, Reaped(failed))
      case (Reaped(failed), Settles(_)) => SettleStep(w, r, failed)
      case (Backoff, BackoffCancelled(_)) =>
        if !w.runs[r].cancelled then w
        else
          var d := w.runs[r].program;
          SetStage(SetProgram(w, d, w.programs[d].(state := Stopped)), r, Returning)
      case (Backoff, BackoffOver(_, spawned)) =>
        if spawned
        then SetStage(w.(live := w.live + {w.nextPid}, nextPid := w.nextPid + 1), r, Spawned(w.nextPid))
        else SetStage(w, r, SpawnFailed)
      case (Spawned(_), Resumes(_)) => ResumeStep(w, r)
      case (SpawnFailed, Resumes(_)) => ResumeStep(w, r)
      case (Returning, Closes(_)) => SetStage(w, r, Ended)
      case _ => w
  }

  function Next(w: World, e: Event): World {
    match e
    case Install(name, policy, oneshot) => InstallStep(w, name, policy, oneshot)
    case Start(name, spawned) => StartStep(w, name, spawned)
    case StopMarks(name) =>
      if name in w.table && w.table[name] < |w.programs|
      then SetProgram(w, w.table[name], w.programs[w.table[name]].(wanted := false))
             .(calls := w.calls + [Marked(name, w.table[name])])
      else w
    case ShutdownPicks(name) =>
      if name in w.table && w.table[name] < |w.programs| && w.programs[w.table[name]].state == Running
      then w.(calls := w.calls + [Marked(name, w.table[name])])
      else w
    case RemoveDeletes(name) => w.(table := w.table - {name})
    case ProcessExits(pid) => w.(live := w.live - {pid})
    case TerminateLooksUp(c) => if c < |w.calls| then CallStep(w, c, e) else w
    case TerminateCancels(c) => if c < |w.calls| then CallStep(w, c, e) else w
    case TerminateReturns(c) => if c < |w.calls| then CallStep(w, c, e) else w
    case TerminateTimesOut(c) => if c < |w.calls| then CallStep(w, c, e) else w
    case WaitReturns(r, _) => if r < |w.runs| then RunStep(w, r, e) else w
    case Settles(r) => if r < |w.runs| then RunStep(w, r, e) else w
    case BackoffCancelled(r) => if r < |w.runs| then RunStep(w, r, e) else w
    case BackoffOver(r, _) => if r < |w.runs| then RunStep(w, r, e) else w
    case Resumes(r) => if r < |w.runs| then RunStep(w, r, e) else w
    case Closes(r) => if r < |w.runs| then RunStep(w, r, e) else w
  }

  // ---------- the invariant ----------

  /** Not yet past its last lock region. */
  predicate Acting(s: Supervision) {
    !s.stage.Returning? && !s.stage.Ended?
  }

  /** The process a supervision is responsible for, if any. */
  function ProcessOf(s: Supervision): Option<nat> {
    match s.stage
    case Watching(pid) => Some(pid)
    case Spawned(pid) => Some(pid)
    case _ => None
  }

  ghost predicate Linked(w: World) {
    && (forall r :: 0 <= r < |w.runs| ==> w.runs[r].program < |w.programs|)
    && (forall d :: 0 <= d < |w.programs| && w.programs[d].run.Some? ==>
          w.programs[d].run.value < |w.runs| && w.runs[w.programs[d].run.value].program == d)
    && (forall name :: name in w.table ==> w.table[name] < |w.programs| && w.programs[w.table[name]].name == name)
  }

  /** A definition runs exactly while its current supervision acts, and no other supervision of it does. */
  ghost predicate RunningIsActing(w: World)
    requires Linked(w)
  {
    && (forall r :: 0 <= r < |w.runs| && Acting(w.runs[r]) ==>
          w.programs[w.runs[r].program].run == Some(r) && w.programs[w.runs[r].program].state == Running)
    && (forall d :: 0 <= d < |w.programs| && w.programs[d].state == Running ==>
          w.programs[d].run.Some? && Acting(w.runs[w.programs[d].run.value]))
  }

  /** Every live process is one supervision's, and process numbers are never reused. */
  ghost predicate ProcessesOwned(w: World) {
    && (forall pid :: pid in w.live ==>
          0 < pid < w.nextPid && exists r :: 0 <= r < |w.runs| && ProcessOf(w.runs[r]) == Some(pid))
    && (forall r :: 0 <= r < |w.runs| && ProcessOf(w.runs[r]).Some? ==> 0 < ProcessOf(w.runs[r]).value < w.nextPid)
    && (forall r, s :: 0 <= r < s < |w.runs| && ProcessOf(w.runs[r]).Some? ==> ProcessOf(w.runs[r]) != ProcessOf(w.runs[s]))
    && w.nextPid > 0
  }

  /** A recorded process number is the watched one; between incarnations none is recorded. */
  ghost predicate PidsRecorded(w: World)
    requires Linked(w)
  {
    forall d :: 0 <= d < |w.programs| && w.programs[d].pid != 0 ==>
      && w.programs[d].state == Running && w.programs[d].run.Some?
      && var s := w.runs[w.programs[d].run.value].stage; s.Reaped? || s == Watching(w.programs[d].pid)
  }

  /** What a call has looked up exists; a supervision it waited for was cancelled, and has ended once it returns. */
  ghost predicate CallFits(w: World, call: Call)
    requires Linked(w)
  {
    match call
    case Marked(name, d) => d < |w.programs| && w.programs[d].name == name
    case Captured(d, Some(r)) => d < |w.programs| && r < |w.runs| && w.runs[r].program == d
    case Captured(d, None) => d < |w.programs|
    case Waiting(d, r) => d < |w.programs| && r < |w.runs| && w.runs[r].program == d && w.runs[r].cancelled
    case Returned(d, Some(r)) =>
      d < |w.programs| && r < |w.runs| && w.runs[r].program == d && w.runs[r].cancelled && w.runs[r].stage == Ended
    case Returned(d, None) => d < |w.programs|
    case _ => true
  }

  ghost predicate CallsFit(w: World)
    requires Linked(w)
  {
    forall c :: 0 <= c < |w.calls| ==> CallFits(w, w.calls[c])
  }

  ghost predicate Inv(w: World) {
    Linked(w) && RunningIsActing(w) && ProcessesOwned(w) && PidsRecorded(w) && CallsFit(w)
  }

  /** An agent that has loaded its definitions and started nothing yet. */
  ghost predicate Booted(w: World) {
    && Linked(w) && w.runs == [] && w.live == {} && w.calls == [] && w.nextPid > 0
    && forall d :: 0 <= d < |w.programs| ==>
         w.programs[d].state == Configured && w.programs[d].pid == 0 && w.programs[d].run == None
  }

  lemma BootedInv(w: World)
    requires Booted(w)
    ensures Inv(w)
  {
  }

  /** What a call has looked up still fits once definitions are added or a supervision moves on. */
  lemma CallStillFits(w: World, w': World, call: Call)
    requires Linked(w) && Linked(w') && CallFits(w, call) && |w.programs| <= |w'.programs| && |w.runs| <= |w'.runs|
    requires forall d :: 0 <= d < |w.programs| ==> w'.programs[d].name == w.programs[d].name
    requires forall r :: 0 <= r < |w.runs| ==>
               && w'.runs[r].program == w.runs[r].program && (w.runs[r].cancelled ==> w'.runs[r].cancelled)
               && (w.runs[r].stage.Ended? ==> w'.runs[r].stage.Ended?)
    ensures CallFits(w', call)
  {
    hide Linked;
  }

  lemma CallsStillFit(w: World, w': World)
    requires Linked(w) && Linked(w') && CallsFit(w) && w'.calls == w.calls
    requires |w.programs| <= |w'.programs| && |w.runs| <= |w'.runs|
    requires forall d :: 0 <= d < |w.programs| ==> w'.programs[d].name == w.programs[d].name
    requires forall r :: 0 <= r < |w.runs| ==>
               && w'.runs[r].program == w.runs[r].program && (w.runs[r].cancelled ==> w'.runs[r].cancelled)
               && (w.runs[r].stage.Ended? ==> w'.runs[r].stage.Ended?)
    ensures CallsFit(w')
  {
    hide Linked, CallFits;
    forall c | 0 <= c < |w.calls| ensures CallFits(w', w.calls[c]) {
      CallStillFits(w, w', w.calls[c]);
    }
  }

  lemma InstallLinks(w: World, name: string, policy: Policy, oneshot: bool)
    requires Inv(w)
    ensures var w' := InstallStep(w, name, policy, oneshot); Linked(w') && RunningIsActing(w') && PidsRecorded(w')
  {
    hide ProcessesOwned, CallsFit, ProcessOf, InstallRefused;
  }

  lemma InstallKeeps(w: World, name: string, policy: Policy, oneshot: bool)
    requires Inv(w)
    ensures Inv(InstallStep(w, name, policy, oneshot))
  {
    var w' := InstallStep(w, name, policy, oneshot);
    InstallLinks(w, name, policy, oneshot);
    hide RunningIsActing, PidsRecorded, InstallRefused, Linked, CallsFit, ProcessesOwned;
    CallsStillFit(w, w');
    ProcessesElsewhere(w, w');
  }

  // A start: a program that does not run gets a new supervision and its first process.

  function Launched(w: World, d: nat): World
    requires d < |w.programs|
  {
    w.(programs := w.programs[d := w.programs[d].(wanted := true, state := Running, pid := w.nextPid, run := Some(|w.runs|))],
       runs := w.runs + [Supervision(d, Watching(w.nextPid), false)],
       live := w.live + {w.nextPid}, nextPid := w.nextPid + 1)
  }

  lemma LaunchLinks(w: World, d: nat)
    requires Inv(w) && d < |w.programs| && w.programs[d].state != Running
    ensures Linked(Launched(w, d)) && RunningIsActing(Launched(w, d))
  {
    hide ProcessesOwned, PidsRecorded, CallsFit;
    forall r | 0 <= r < |w.runs| && Acting(w.runs[r]) ensures w.runs[r].program != d {
    }
  }

  lemma LaunchOwns(w: World, d: nat)
    requires ProcessesOwned(w) && d < |w.programs|
    ensures ProcessesOwned(Launched(w, d))
  {
    var w' := Launched(w, d);
    assert ProcessOf(w'.runs[|w.runs|]) == Some(w.nextPid);
    forall pid | pid in w.live
      ensures exists r :: 0 <= r < |w'.runs| && ProcessOf(w'.runs[r]) == Some(pid)
    {
      var r :| 0 <= r < |w.runs| && ProcessOf(w.runs[r]) == Some(pid);
      assert ProcessOf(w'.runs[r]) == Some(pid);
    }
  }

  lemma LaunchRecords(w: World, d: nat)
    requires Inv(w) && d < |w.programs| && w.programs[d].state != Running && Linked(Launched(w, d))
    ensures PidsRecorded(Launched(w, d)) && CallsFit(Launched(w, d))
  {
    hide ProcessesOwned, RunningIsActing;
  }

  lemma StartKeeps(w: World, name: string, spawned: bool)
    requires Inv(w)
    ensures Inv(StartStep(w, name, spawned))
  {
    if name in w.table && w.programs[w.table[name]].state != Running {
      var d := w.table[name];
      if spawned {
        LaunchLinks(w, d);
        LaunchOwns(w, d);
        LaunchRecords(w, d);
        hide Linked, RunningIsActing, ProcessesOwned, PidsRecorded, CallsFit;
        assert StartStep(w, name, spawned) == Launched(w, d);
      } else {
        StillIdle(w, d, w.programs[d].(wanted := true, state := Failed));
      }
    }
  }

  /** A program that does not run may change anything but what ties it to its supervision. */
  lemma StillIdle(w: World, d: nat, p: Program)
    requires Inv(w) && d < |w.programs| && w.programs[d].state != Running && p.state != Running
    requires p.name == w.programs[d].name && p.run == w.programs[d].run && p.pid == w.programs[d].pid
    ensures Inv(SetProgram(w, d, p))
  {
    hide ProcessesOwned;
    ProcessesElsewhere(w, SetProgram(w, d, p));
  }

  lemma ProcessesElsewhere(w: World, w': World)
    requires ProcessesOwned(w) && w'.live == w.live && w'.nextPid == w.nextPid && w'.runs == w.runs
    ensures ProcessesOwned(w')
  {
  }

  // A supervision's own step, while it acts.

  function Replaced(w: World, r: nat, p: Program, s: Supervision, live: set<nat>, nextPid: nat): World
    requires r < |w.runs| && w.runs[r].program < |w.programs|
  {
    w.(programs := w.programs[w.runs[r].program := p], runs := w.runs[r := s], live := live, nextPid := nextPid)
  }

  /** What such a step may do to its program, its stage and the processes. */
  ghost predicate Fits(w: World, r: nat, p: Program, s: Supervision, live: set<nat>, nextPid: nat)
    requires r < |w.runs| && w.runs[r].program < |w.programs|
  {
    var was, q := w.runs[r], w.programs[w.runs[r].program];
    && Acting(was) && !s.stage.Ended?
    && s.program == was.program && s.cancelled == was.cancelled && p.name == q.name && p.run == q.run
    && (Acting(s) <==> p.state == Running)
    && (p.pid != 0 ==> p.state == Running && (s.stage.Reaped? || s.stage == Watching(p.pid)))
    && (if live == w.live && nextPid == w.nextPid
        then (ProcessOf(s) == ProcessOf(was) || (ProcessOf(s) == None && ProcessOf(was).value !in w.live))
        else ProcessOf(was) == None && ProcessOf(s) == Some(w.nextPid)
             && live == w.live + {w.nextPid} && nextPid == w.nextPid + 1)
  }

  lemma ReplaceLinks(w: World, r: nat, p: Program, s: Supervision, live: set<nat>, nextPid: nat)
    requires Inv(w) && r < |w.runs| && Fits(w, r, p, s, live, nextPid)
    ensures var w' := Replaced(w, r, p, s, live, nextPid); Linked(w') && RunningIsActing(w')
  {
    hide ProcessesOwned, PidsRecorded, CallsFit, ProcessOf;
    var w' := Replaced(w, r, p, s, live, nextPid);
    var d := w.runs[r].program;
    forall r' | 0 <= r' < |w.runs| && r' != r && Acting(w.runs[r']) ensures w.runs[r'].program != d {
    }
  }

  lemma ReplaceOwns(w: World, r: nat, p: Program, s: Supervision, live: set<nat>, nextPid: nat)
    requires Linked(w) && ProcessesOwned(w) && r < |w.runs| && Fits(w, r, p, s, live, nextPid)
    ensures ProcessesOwned(Replaced(w, r, p, s, live, nextPid))
  {
    var w' := Replaced(w, r, p, s, live, nextPid);
    forall pid | pid in w'.live
      ensures exists r' :: 0 <= r' < |w'.runs| && ProcessOf(w'.runs[r']) == Some(pid)
    {
      if pid in w.live {
        var r' :| 0 <= r' < |w.runs| && ProcessOf(w.runs[r']) == Some(pid);
        assert ProcessOf(w'.runs[r']) == Some(pid);
      } else {
        assert ProcessOf(w'.runs[r]) == Some(pid);
      }
    }
  }

  lemma ReplaceRecords(w: World, r: nat, p: Program, s: Supervision, live: set<nat>, nextPid: nat)
    requires Inv(w) && r < |w.runs| && Fits(w, r, p, s, live, nextPid) && Linked(Replaced(w, r, p, s, live, nextPid))
    ensures PidsRecorded(Replaced(w, r, p, s, live, nextPid))
  {
    hide ProcessesOwned, CallsFit, ProcessOf;
  }

  lemma ReplaceCalls(w: World, r: nat, p: Program, s: Supervision, live: set<nat>, nextPid: nat)
    requires Inv(w) && r < |w.runs| && Fits(w, r, p, s, live, nextPid) && Linked(Replaced(w, r, p, s, live, nextPid))
    ensures CallsFit(Replaced(w, r, p, s, live, nextPid))
  {
    assert w.runs[r].program < |w.programs|;
    hide ProcessesOwned, RunningIsActing, PidsRecorded, ProcessOf, CallsFit, Linked;
    CallsStillFit(w, Replaced(w, r, p, s, live, nextPid));
  }

  lemma ReplaceKeeps(w: World, r: nat, p: Program, s: Supervision, live: set<nat>, nextPid: nat)
    requires Inv(w) && r < |w.runs| && Fits(w, r, p, s, live, nextPid)
    ensures Inv(Replaced(w, r, p, s, live, nextPid))
  {
    ReplaceLinks(w, r, p, s, live, nextPid);
    ReplaceOwns(w, r, p, s, live, nextPid);
    ReplaceRecords(w, r, p, s, live, nextPid);
    ReplaceCalls(w, r, p, s, live, nextPid);
    hide Linked, RunningIsActing, ProcessesOwned, PidsRecorded, CallsFit, Fits;
  }

  lemma ActingRuns(w: World, r: nat)
    requires Inv(w) && r < |w.runs| && Acting(w.runs[r])
    ensures w.runs[r].program < |w.programs|
    ensures var p := w.programs[w.runs[r].program];
            p.state == Running && p.run == Some(r) && (p.pid != 0 ==> w.runs[r].stage.Reaped? || w.runs[r].stage == Watching(p.pid))
  {
    hide ProcessesOwned, CallsFit;
  }

  lemma RunKeeps(w: World, r: nat, e: Event)
    requires Inv(w) && r < |w.runs|
    ensures Inv(RunStep(w, r, e))
  {
    var was := w.runs[r];
    if Acting(was) {
      ActingRuns(w, r);
      hide Inv, Fits;
      var p := w.programs[was.program];
      var next := RunStep(w, r, e);
      if next != w {
        var q, s := next.programs[was.program], next.runs[r];
        assert next == Replaced(w, r, q, s, next.live, next.nextPid);
        StepFits(w, r, e, next);
        ReplaceKeeps(w, r, q, s, next.live, next.nextPid);
      }
    } else if was.stage.Returning? && e.Closes? {
      CloseKeeps(w, r);
    }
  }

  lemma StepFits(w: World, r: nat, e: Event, next: World)
    requires Inv(w) && r < |w.runs| && Acting(w.runs[r]) && next == RunStep(w, r, e) && next != w
    requires w.runs[r].program < |w.programs| && |next.runs| == |w.runs| && |next.programs| == |w.programs|
    ensures Fits(w, r, next.programs[w.runs[r].program], next.runs[r], next.live, next.nextPid)
  {
    ActingRuns(w, r);
    NotYetUsed(w);
    hide Inv;
  }

  lemma NotYetUsed(w: World)
    requires Inv(w)
    ensures w.nextPid !in w.live && w.nextPid > 0
  {
  }

  lemma CloseLinks(w: World, r: nat)
    requires Inv(w) && r < |w.runs| && w.runs[r].stage.Returning?
    ensures var w' := SetStage(w, r, Ended); Linked(w') && RunningIsActing(w') && PidsRecorded(w')
  {
    hide ProcessesOwned, CallsFit, ProcessOf;
  }

  lemma CloseKeeps(w: World, r: nat)
    requires Inv(w) && r < |w.runs| && w.runs[r].stage.Returning?
    ensures Inv(SetStage(w, r, Ended))
  {
    var w' := SetStage(w, r, Ended);
    CloseLinks(w, r);
    hide RunningIsActing, PidsRecorded, Linked, CallsFit, ProcessesOwned;
    CallsStillFit(w, w');
    SameProcesses(w, w');
  }

  lemma SameProcesses(w: World, w': World)
    requires ProcessesOwned(w) && w'.live <= w.live && w'.nextPid == w.nextPid && |w'.runs| == |w.runs|
    requires forall r :: 0 <= r < |w.runs| ==> ProcessOf(w'.runs[r]) == ProcessOf(w.runs[r])
    ensures ProcessesOwned(w')
  {
    hide ProcessOf;
    forall pid | pid in w'.live
      ensures exists r :: 0 <= r < |w'.runs| && ProcessOf(w'.runs[r]) == Some(pid)
    {
      var r :| 0 <= r < |w.runs| && ProcessOf(w.runs[r]) == Some(pid);
      assert ProcessOf(w'.runs[r]) == Some(pid);
    }
  }

  /** The same supervisions and programs, as far as the invariant looks at them. */
  ghost predicate Alike(w: World, w': World) {
    && |w'.runs| == |w.runs| && |w'.programs| == |w.programs| && w'.live <= w.live && w'.nextPid == w.nextPid
    && (forall r :: 0 <= r < |w.runs| ==> w'.runs[r].stage == w.runs[r].stage && w'.runs[r].program == w.runs[r].program)
    && (forall d :: 0 <= d < |w.programs| ==>
          var p, p' := w.programs[d], w'.programs[d];
          p'.state == p.state && p'.run == p.run && p'.pid == p.pid && p'.name == p.name)
    && (forall name :: name in w'.table ==> name in w.table && w'.table[name] == w.table[name])
  }

  lemma AlikeLinks(w: World, w': World)
    requires Inv(w) && Alike(w, w')
    ensures Linked(w') && RunningIsActing(w') && PidsRecorded(w')
  {
    hide ProcessesOwned, CallsFit, ProcessOf;
  }

  lemma AlikeKeeps(w: World, w': World)
    requires Inv(w) && Alike(w, w')
    requires Linked(w') ==> CallsFit(w')
    ensures Inv(w')
  {
    AlikeLinks(w, w');
    SameProcesses(w, w') by { hide Linked, RunningIsActing, PidsRecorded, CallsFit; }
    hide Linked, RunningIsActing, ProcessesOwned, PidsRecorded, CallsFit, Alike;
  }

  lemma SameCalls(w: World, w': World)
    requires Inv(w) && Alike(w, w') && w'.calls == w.calls
    requires forall r :: 0 <= r < |w.runs| ==> w.runs[r].cancelled ==> w'.runs[r].cancelled
    ensures Inv(w')
  {
    AlikeLinks(w, w');
    CallsStillFit(w, w') by { hide ProcessesOwned, RunningIsActing, PidsRecorded, CallsFit, Linked; }
    AlikeKeeps(w, w');
  }

  lemma CallsOnly(w: World, calls: seq<Call>)
    requires Inv(w) && CallsFit(w.(calls := calls))
    ensures Inv(w.(calls := calls))
  {
    hide CallsFit, ProcessesOwned, RunningIsActing, PidsRecorded;
    AlikeKeeps(w, w.(calls := calls));
  }

  lemma CancelKeeps(w: World, r: nat)
    requires Inv(w) && r < |w.runs|
    ensures Inv(w.(runs := w.runs[r := w.runs[r].(cancelled := true)]))
  {
    hide Inv;
    SameCalls(w, w.(runs := w.runs[r := w.runs[r].(cancelled := true)]));
  }

  lemma CallChanges(w: World, c: nat, call: Call)
    requires Inv(w) && c < |w.calls| && CallFits(w, call)
    ensures Inv(SetCall(w, c, call))
  {
    assert CallsFit(SetCall(w, c, call)) by { hide ProcessesOwned, RunningIsActing, PidsRecorded, ProcessOf; }
    hide Inv;
    CallsOnly(w, w.calls[c := call]);
  }

  lemma CallKeeps(w: World, c: nat, e: Event)
    requires Inv(w) && c < |w.calls|
    ensures Inv(CallStep(w, c, e))
  {
    var next := CallStep(w, c, e);
    assert CallFits(w, w.calls[c]);
    if w.calls[c].Captured? && w.calls[c].context.Some? && e.TerminateCancels? {
      var r := w.calls[c].context.value;
      var cancelled := w.(runs := w.runs[r := w.runs[r].(cancelled := true)]);
      CancelKeeps(w, r);
      hide RunningIsActing, ProcessesOwned, PidsRecorded, CallsFit;
      CallChanges(cancelled, c, next.calls[c]);
      assert next == SetCall(cancelled, c, next.calls[c]);
    } else if next != w {
      hide RunningIsActing, ProcessesOwned, PidsRecorded, CallsFit;
      CallChanges(w, c, next.calls[c]);
      assert next == SetCall(w, c, next.calls[c]);
    }
  }

  lemma MarkAdded(w: World, name: string)
    requires Inv(w) && name in w.table
    ensures Inv(w.(calls := w.calls + [Marked(name, w.table[name])]))
  {
    var calls := w.calls + [Marked(name, w.table[name])];
    assert CallsFit(w.(calls := calls)) by { hide ProcessesOwned, RunningIsActing, PidsRecorded, ProcessOf; }
    hide CallsFit, ProcessesOwned, RunningIsActing, PidsRecorded;
    CallsOnly(w, calls);
  }

  lemma MarkKeeps(w: World, name: string)
    requires Inv(w)
    ensures Inv(Next(w, StopMarks(name))) && Inv(Next(w, ShutdownPicks(name)))
  {
    if name in w.table {
      MarkAdded(w, name);
      var marked := w.(calls := w.calls + [Marked(name, w.table[name])]);
      assert w.table[name] < |w.programs|;
      hide Inv;
      UnwantedKeeps(marked, w.table[name]);
    }
  }

  lemma UnwantedKeeps(w: World, d: nat)
    requires Inv(w) && d < |w.programs|
    ensures Inv(SetProgram(w, d, w.programs[d].(wanted := false)))
  {
    hide Inv;
    SameCalls(w, SetProgram(w, d, w.programs[d].(wanted := false)));
  }

  lemma RemoveKeeps(w: World, name: string)
    requires Inv(w)
    ensures Inv(Next(w, RemoveDeletes(name)))
  {
    hide Inv;
    SameCalls(w, w.(table := w.table - {name}));
  }

  lemma ExitKeeps(w: World, pid: nat)
    requires Inv(w)
    ensures Inv(Next(w, ProcessExits(pid)))
  {
    hide Inv;
    SameCalls(w, w.(live := w.live - {pid}));
  }

  /** Every step of every interleaving keeps the invariant. */
  lemma StepKeeps(w: World, e: Event)
    requires Inv(w)
    ensures Inv(Next(w, e))
  {
    hide Inv, InstallStep, StartStep, CallStep, RunStep;
    match e
    case Install(name, policy, oneshot) => InstallKeeps(w, name, policy, oneshot);
    case Start(name, spawned) => StartKeeps(w, name, spawned);
    case StopMarks(name) => MarkKeeps(w, name);
    case ShutdownPicks(name) => MarkKeeps(w, name);
    case RemoveDeletes(name) => RemoveKeeps(w, name);
    case ProcessExits(pid) => ExitKeeps(w, pid);
    case TerminateLooksUp(c) => if c < |w.calls| { CallKeeps(w, c, e); }
    case TerminateCancels(c) => if c < |w.calls| { CallKeeps(w, c, e); }
    case TerminateReturns(c) => if c < |w.calls| { CallKeeps(w, c, e); }
    case TerminateTimesOut(c) => if c < |w.calls| { CallKeeps(w, c, e); }
    case WaitReturns(r, _) => if r < |w.runs| { RunKeeps(w, r, e); }
    case Settles(r) => if r < |w.runs| { RunKeeps(w, r, e); }
    case BackoffCancelled(r) => if r < |w.runs| { RunKeeps(w, r, e); }
    case BackoffOver(r, _) => if r < |w.runs| { RunKeeps(w, r, e); }
    case Resumes(r) => if r < |w.runs| { RunKeeps(w, r, e); }
    case Closes(r) => if r < |w.runs| { RunKeeps(w, r, e); }
  }

  function Trace(w: World, events: seq<Event>): World {
    if events == [] then w else Next(Trace(w, events[..|events| - 1]), events[|events| - 1])
  }

  lemma {:induction false} EveryInterleavingIsSafe(w: World, events: seq<Event>)
    requires Booted(w)
    ensures Inv(Trace(w, events))
  {
    hide Inv, Next, Booted;
    if events == [] {
      BootedInv(w);
    } else {
      EveryInterleavingIsSafe(w, events[..|events| - 1]);
      StepKeeps(Trace(w, events[..|events| - 1]), events[|events| - 1]);
    }
  }
}
