/**
 The race the executor leaves open: a report tests the bar and stores its own value, and the mutex around both is
 the one of its step, so the executor, or another step's report, may move the bar in between. Each event below is one
 half of a report, or the executor finishing the current step.
 */
module ProgressRace {
  import opened Operation

  /** How many steps are done, the bar, and the reports past their test, by step. */
  datatype Bar = Bar(done: nat, progress: nat, passed: map<nat, nat>)

  datatype Event = Checks(i: nat, frac: real) | Stores(i: nat) | Finishes

  function Next(weights: seq<int>, b: Bar, e: Event): Bar {
    match e
    case Checks(i, frac) =>
      if i < |weights| && i <= b.done && i !in b.passed && Reported(weights, i, frac) > b.progress
      then b.(passed := b.passed[i := Reported(weights, i, frac)]) else b
    case Stores(i) =>
      if i in b.passed then b.(progress := b.passed[i], passed := b.passed - {i}) else b
    case Finishes =>
      if b.done < |weights| then b.(done := b.done + 1, progress := Mark(weights, b.done + 1)) else b
  }

  function Trace(weights: seq<int>, events: seq<Event>): Bar {
    if events == [] then Bar(0, 0, map[])
    else Next(weights, Trace(weights, events[..|events| - 1]), events[|events| - 1])
  }

  /** Event `j` of a run takes the bar back. */
  ghost predicate FallsAt(weights: seq<int>, events: seq<Event>, j: nat)
    requires j < |events|
  {
    var b := Trace(weights, events[..j]);
    Next(weights, b, events[j]).progress < b.progress
  }

  /** Event `j` stores a report whose step has finished since its test, below where the bar stands. */
  ghost predicate OutlivedAt(weights: seq<int>, events: seq<Event>, j: nat)
    requires j < |events|
  {
    var b := Trace(weights, events[..j]);
    events[j].Stores? && events[j].i in b.passed && events[j].i < b.done && b.passed[events[j].i] < b.progress
  }

  /** As long as nothing has gone back: a passed report of the current step lies ahead, those of earlier steps behind. */
  ghost predicate OnTrack(weights: seq<int>, b: Bar) {
    && b.done <= |weights| && InStep(weights, b.done, b.progress)
    && forall i :: i in b.passed ==>
         && i < |weights| && i <= b.done && b.passed[i] <= Mark(weights, i + 1)
         && (i == b.done ==> b.passed[i] > b.progress)
  }

  lemma EarlierIsBehind(weights: seq<int>, b: Bar, i: nat)
    requires OnTrack(weights, b) && i in b.passed && i < b.done
    ensures b.passed[i] <= b.progress
  {
    MarksGrow(weights, i + 1, b.done);
  }

  /** One event: the bar goes back exactly for a report that outlived its step, and otherwise stays on track. */
  lemma StepFallsIff(weights: seq<int>, b: Bar, e: Event)
    requires OnTrack(weights, b)
    ensures Next(weights, b, e).progress < b.progress <==>
            e.Stores? && e.i in b.passed && e.i < b.done && b.passed[e.i] < b.progress
    ensures Next(weights, b, e).progress >= b.progress ==> OnTrack(weights, Next(weights, b, e))
  {
    hide Mark, Reported;
    match e
    case Checks(i, frac) =>
      if i < |weights| && i <= b.done {
        ReportedBetween(weights, i, frac);
        MarksGrow(weights, i + 1, if i < b.done then b.done else i + 1);
      }
    case Stores(i) =>
      if i in b.passed {
        MarksGrow(weights, b.done, if b.done < |weights| then b.done + 1 else b.done);
        if i < b.done { EarlierIsBehind(weights, b, i); }
      }
    case Finishes =>
      if b.done < |weights| {
        MarksGrow(weights, b.done + 1, if b.done + 1 < |weights| then b.done + 2 else b.done + 1);
      }
  }

  lemma {:induction false} OnTrackUntilOutlived(weights: seq<int>, events: seq<Event>)
    requires |weights| > 0 && forall j :: 0 <= j < |events| ==> !OutlivedAt(weights, events, j)
    ensures OnTrack(weights, Trace(weights, events))
    ensures forall j :: 0 <= j < |events| ==> !FallsAt(weights, events, j)
  {
    hide OnTrack, Next;
    if events == [] {
      Starts(weights);
    } else {
      var k := |events| - 1;
      var init := events[..k];
      forall j | 0 <= j < k ensures !OutlivedAt(weights, init, j) {
        assert init[..j] == events[..j] && !OutlivedAt(weights, events, j);
      }
      OnTrackUntilOutlived(weights, init);
      StepFallsIff(weights, Trace(weights, init), events[k]);
      assert !OutlivedAt(weights, events, k);
      forall j | 0 <= j < |events| ensures !FallsAt(weights, events, j) {
        if j < k { assert init[..j] == events[..j] && !FallsAt(weights, init, j); }
      }
    }
  }

  lemma Starts(weights: seq<int>)
    requires |weights| > 0
    ensures OnTrack(weights, Bar(0, 0, map[]))
  {
    MarksGrow(weights, 0, 1);
  }

  /**
   Over every interleaving, the bar ever goes back if and only if some report is stored after its own step has
   finished, below where the bar stands by then.
   */
  lemma FallsIffOutlived(weights: seq<int>, events: seq<Event>)
    requires |weights| > 0
    ensures (exists j :: 0 <= j < |events| && FallsAt(weights, events, j)) <==>
            (exists j :: 0 <= j < |events| && OutlivedAt(weights, events, j))
  {
    if forall j :: 0 <= j < |events| ==> !OutlivedAt(weights, events, j) {
      OnTrackUntilOutlived(weights, events);
    } else {
      var j :| 0 <= j < |events| && OutlivedAt(weights, events, j);
      assert FallsAt(weights, events, j);
    }
  }

  /** Such a run: a report at half of the first of two steps is stored after that step has finished. */
  lemma LateReportFalls()
    ensures FallsAt([1, 1], [Checks(0, 0.5), Finishes, Stores(0)], 2)
  {
    var es, ws := [Checks(0, 0.5), Finishes, Stores(0)], [1, 1];
    assert Done(ws, 1) == 1 && Total(ws) == 2;
    assert Clamp(0.5) * 100.0 == 50.0;
    assert Reported(ws, 0, 0.5) == 25 && Mark(ws, 1) == 50;
    assert es[..2][..1] == es[..1] && es[..1][..0] == [];
    assert Trace(ws, es[..1]) == Bar(0, 0, map[0 := 25]);
    assert Trace(ws, es[..2]) == Bar(1, 50, map[0 := 25]);
  }
}
