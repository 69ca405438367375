/**
 The operation executor: weighted progress over the steps of an asynchronous change, persisted frame by frame,
 and a lossy fan-out of the frames to subscribers that never loses the newest.
 */
module Operation {
  import opened Wrappers

  datatype StepState = Queued | Running | Succeeded | Failed

  datatype Frame = Frame(state: StepState, steps: seq<StepState>, progress: nat)

  const BUFFER := 8

  // ---------- weighted progress ----------

  function WeightOf(w: int): nat {
    if w <= 0 then 1 else w
  }

  /** The weight of the first `k` steps. */
  function Done(weights: seq<int>, k: nat): nat
    requires k <= |weights|
  {
    if k == 0 then 0 else Done(weights, k - 1) + WeightOf(weights[k - 1])
  }

  function Total(weights: seq<int>): nat {
    Done(weights, |weights|)
  }

  lemma {:induction false} DoneGrows(weights: seq<int>, i: nat, j: nat)
    requires i <= j <= |weights|
    ensures Done(weights, i) + (j - i) <= Done(weights, j)
  {
    if i < j { DoneGrows(weights, i, j - 1); }
  }

  lemma TotalPositive(weights: seq<int>)
    requires |weights| > 0
    ensures Total(weights) > 0
  {
  }

  function Part(n: nat, total: nat): nat
    requires total > 0
  {
    n / total
  }

  /** The bar once the first `k` steps are done. */
  function Mark(weights: seq<int>, k: nat): nat
    requires k <= |weights| && |weights| > 0
  {
    TotalPositive(weights);
    Part(Done(weights, k) * 100, Total(weights))
  }

  lemma MarksGrow(weights: seq<int>, i: nat, j: nat)
    requires i <= j <= |weights| && |weights| > 0
    ensures Mark(weights, i) <= Mark(weights, j) <= 100
    ensures Mark(weights, 0) == 0 && Mark(weights, |weights|) == 100
  {
    DoneGrows(weights, i, j);
    DoneGrows(weights, j, |weights|);
    DoneGrows(weights, 0, |weights|);
    var total := Total(weights);
    DivGrows(Done(weights, i) * 100, Done(weights, j) * 100, total);
    DivGrows(Done(weights, j) * 100, total * 100, total);
    DivExact(total);
  }

  /** What each step weighs: at least one. */
  function Effective(weights: seq<int>): (ws: seq<nat>)
    ensures |ws| == |weights|
    ensures forall i :: 0 <= i < |weights| ==> ws[i] >= 1 && (ws[i] == weights[i] || (weights[i] < 1 && ws[i] == 1))
  {
    seq(|weights|, i requires 0 <= i < |weights| => WeightOf(weights[i]))
  }

  ghost function Sum(ws: seq<nat>): nat {
    if ws == [] then 0 else ws[0] + Sum(ws[1..])
  }

  lemma {:induction false} SumNext(ws: seq<nat>, w: nat)
    ensures Sum(ws + [w]) == Sum(ws) + w
  {
    if ws == [] {
      assert [] + [w] == [w] && [w][1..] == [];
    } else {
      SumNext(ws[1..], w);
      assert (ws + [w])[1..] == ws[1..] + [w];
    }
  }

  lemma {:induction false} DoneIsSum(weights: seq<int>, k: nat)
    requires k <= |weights|
    ensures Done(weights, k) == Sum(Effective(weights)[..k])
  {
    if k > 0 {
      DoneIsSum(weights, k - 1);
      assert Effective(weights)[..k] == Effective(weights)[..k - 1] + [Effective(weights)[k - 1]];
      SumNext(Effective(weights)[..k - 1], Effective(weights)[k - 1]);
    }
  }

  lemma PartIff(n: nat, total: nat, m: nat)
    requires total > 0
    ensures Part(n, total) == m <==> m * total <= n < (m + 1) * total
  {
    if m * total <= n < (m + 1) * total {
      DivLower(n, m, total);
      if m + 1 <= n / total { MulGrows(m + 1, n / total, total); }
    }
  }

  /** The bar at a step's end is the whole percentage of the weight done by then. */
  lemma MarkIff(weights: seq<int>, k: nat, m: nat)
    requires k <= |weights| && |weights| > 0
    ensures var ws := Effective(weights);
            Mark(weights, k) == m <==> m * Sum(ws) <= Sum(ws[..k]) * 100 < (m + 1) * Sum(ws)
  {
    hide Part, Effective, Sum;
    TotalPositive(weights);
    DoneIsSum(weights, k);
    DoneIsSum(weights, |weights|);
    assert Effective(weights)[..|weights|] == Effective(weights);
    PartIff(Done(weights, k) * 100, Total(weights), m);
  }

  lemma MulGrows(x: int, y: int, d: nat)
    requires x <= y
    ensures x * d <= y * d
  {
  }

  lemma DivLower(n: nat, x: nat, d: nat)
    requires d > 0 && x * d <= n
    ensures x <= n / d
  {
    assert n < (n / d) * d + d && (n / d) * d + d == (n / d + 1) * d;
    if n / d + 1 <= x {
      MulGrows(n / d + 1, x, d);
    }
  }

  lemma DivGrows(a: nat, b: nat, d: nat)
    requires a <= b && d > 0
    ensures a / d <= b / d
  {
    assert (a / d) * d <= a;
    DivLower(b, a / d, d);
  }

  lemma DivExact(d: nat)
    requires d > 0
    ensures d * 100 / d == 100
  {
  }

  /** A part of a whole is no more than it. */
  lemma PartOf(f: real, w: real)
    requires 0.0 <= f <= 1.0 && w >= 0.0
    ensures 0.0 <= f * w <= w
  {
  }

  lemma FloorInside(f: real, w: nat)
    requires 0.0 <= f <= 1.0
    ensures 0 <= (f * w as real).Floor <= w
  {
    PartOf(f, w as real);
  }

  /** A fraction outside [0, 1] counts as the nearer end. */
  function Clamp(frac: real): (f: real)
    ensures 0.0 <= f <= 1.0
  {
    if frac < 0.0 then 0.0 else if frac > 1.0 then 1.0 else frac
  }

  /** How far into a step's own share a report is. */
  function Share(frac: real, whole: nat): (n: nat)
    ensures n <= whole
  {
    FloorInside(Clamp(frac), whole);
    (Clamp(frac) * whole as real).Floor
  }

  /** What a report from inside step `i` maps to on the bar. */
  function Reported(weights: seq<int>, i: nat, frac: real): nat
    requires i < |weights|
  {
    TotalPositive(weights);
    Part(Done(weights, i) * 100 + Share(frac, WeightOf(weights[i]) * 100), Total(weights))
  }

  lemma InsideBetween(d: nat, weight: nat, inside: nat, total: nat)
    requires inside <= weight * 100 && total > 0
    ensures d * 100 / total <= (d * 100 + inside) / total <= (d + weight) * 100 / total
  {
    DivGrows(d * 100, d * 100 + inside, total);
    DivGrows(d * 100 + inside, (d + weight) * 100, total);
  }

  lemma ReportedBetween(weights: seq<int>, i: nat, frac: real)
    requires i < |weights|
    ensures Mark(weights, i) <= Reported(weights, i, frac) <= Mark(weights, i + 1)
  {
    hide Share, WeightOf, Total;
    DoneGrows(weights, 0, |weights|);
    var weight := WeightOf(weights[i]);
    assert Total(weights) > 0 by { TotalPositive(weights); }
    InsideBetween(Done(weights, i), weight, Share(frac, weight * 100), Total(weights));
    assert Done(weights, i + 1) == Done(weights, i) + weight;
  }

  lemma FloorBelow(x: real, n: int)
    ensures n <= x.Floor <==> n as real <= x
  {
  }

  lemma WholeProduct(m: nat, total: nat)
    ensures (m * total) as real == m as real * total as real
  {
  }

  /** A report from inside a step is the whole percentage of the weight done with that fraction of the step. */
  lemma ReportedIff(weights: seq<int>, i: nat, frac: real, m: nat)
    requires i < |weights| && 0.0 <= frac <= 1.0
    ensures var ws := Effective(weights);
            var exact := Sum(ws[..i]) as real * 100.0 + frac * (ws[i] * 100) as real;
            Reported(weights, i, frac) == m
            <==> m as real * Sum(ws) as real <= exact < (m + 1) as real * Sum(ws) as real
  {
    hide Part, Effective, Sum, Done, WeightOf;
    assert Total(weights) > 0 by { DoneGrows(weights, 0, |weights|); }
    DoneIsSum(weights, i);
    DoneIsSum(weights, |weights|);
    var ws := Effective(weights);
    assert ws[..|weights|] == ws;
    EffectiveAt(weights, i);
    var whole, share := Done(weights, i) * 100, Share(frac, ws[i] * 100);
    var part := frac * (ws[i] * 100) as real;
    PartIff(whole + share, Total(weights), m);
    assert share == part.Floor;
    FloorBelow(part, m * Total(weights) - whole);
    FloorBelow(part, (m + 1) * Total(weights) - whole);
    WholeProduct(m, Total(weights));
    WholeProduct(m + 1, Total(weights));
  }

  lemma EffectiveAt(weights: seq<int>, i: nat)
    requires i < |weights|
    ensures Effective(weights)[i] == WeightOf(weights[i])
  {
  }

  /** A fraction below nothing counts as the step's start, one above the whole as its end. */
  lemma ReportedClamps(weights: seq<int>, i: nat, frac: real)
    requires i < |weights|
    ensures frac <= 0.0 ==> Reported(weights, i, frac) == Mark(weights, i)
    ensures frac >= 1.0 ==> Reported(weights, i, frac) == Mark(weights, i + 1)
  {
    hide Part, WeightOf;
    TotalPositive(weights);
    var whole := WeightOf(weights[i]) * 100;
    assert frac <= 0.0 ==> Share(frac, whole) == 0;
    assert frac >= 1.0 ==> Share(frac, whole) == whole;
  }

  // ---------- the fan-out ----------

  /** One lab's subscribers and everything published to it. */
  class Feed {
    ghost var published: seq<Frame>
    var queues: map<nat, seq<Frame>>

    ghost predicate Valid()
      reads this
    {
      forall c :: c in queues ==> Suffix(queues[c], published) && |queues[c]| <= BUFFER
    }

    constructor ()
      ensures Valid() && published == [] && queues == map[]
    {
      published, queues := [], map[];
    }

    method Subscribe() returns (c: nat)
      requires Valid()
      modifies this
      ensures Valid() && published == old(published)
      ensures c !in old(queues) && queues == old(queues)[c := []]
    {
      c := 0;
      var seen: set<nat> := queues.Keys;
      while c in queues
        invariant forall k :: c <= k && k in queues ==> k in seen
        decreases seen
      {
        seen := seen - {c};
        c := c + 1;
      }
      queues := queues[c := []];
    }

    method Cancel(c: nat)
      requires Valid()
      modifies this
      ensures Valid() && published == old(published) && queues == old(queues) - {c}
    {
      queues := queues - {c};
    }

    /** A consumer takes the oldest frame it has not seen. */
    method Receive(c: nat) returns (f: Option<Frame>)
      requires Valid()
      modifies this
      ensures Valid() && published == old(published)
      ensures f.Some? <==> c in old(queues) && |old(queues)[c]| > 0
      ensures f.Some? ==> f.value == old(queues)[c][0] && queues == old(queues)[c := old(queues)[c][1..]]
      ensures f.None? ==> queues == old(queues)
    {
      if c !in queues || |queues[c]| == 0 {
        return None;
      }
      SuffixDrops(queues[c], published);
      f := Some(queues[c][0]);
      queues := queues[c := queues[c][1..]];
    }

    /** A full queue loses its oldest frame in favour of the new one. */
    method Publish(f: Frame)
      requires Valid()
      modifies this
      ensures Valid() && published == old(published) + [f] && queues.Keys == old(queues.Keys)
      ensures forall c :: c in queues ==> queues[c] == Pushed(old(queues)[c], f)
      ensures forall c :: c in queues ==> queues[c] != [] && queues[c][|queues[c]| - 1] == f
    {
      hide Suffix, Pushed;
      var pushed := FanOut(queues, f);
      forall c | c in pushed
        ensures Suffix(pushed[c], published + [f]) && |pushed[c]| <= BUFFER
        ensures pushed[c] != [] && pushed[c][|pushed[c]| - 1] == f
      {
        PushKeepsSuffix(queues[c], published, f);
      }
      queues, published := pushed, published + [f];
    }
  }

  /** Every subscriber's queue takes the frame. */
  method FanOut(queues: map<nat, seq<Frame>>, f: Frame) returns (pushed: map<nat, seq<Frame>>)
    requires forall c :: c in queues ==> |queues[c]| <= BUFFER
    ensures pushed.Keys == queues.Keys && forall c :: c in queues ==> pushed[c] == Pushed(queues[c], f)
  {
    hide Pushed;
    pushed := queues;
    var todo := queues.Keys;
    while todo != {}
      invariant todo <= queues.Keys == pushed.Keys
      invariant forall c :: c in queues ==> pushed[c] == if c in todo then queues[c] else Pushed(queues[c], f)
      decreases todo
    {
      var c :| c in todo;
      var q := PushFrame(queues[c], f);
      pushed := pushed[c := q];
      todo := todo - {c};
    }
  }

  /** While the buffer is full its oldest frame goes; then the new one fits. */
  method PushFrame(queue: seq<Frame>, f: Frame) returns (q: seq<Frame>)
    requires |queue| <= BUFFER
    ensures q == Pushed(queue, f)
  {
    q := queue;
    while |q| >= BUFFER
      invariant |q| <= |queue| && q == queue[|queue| - |q|..]
      invariant |q| < |queue| ==> |queue| == BUFFER && |q| == BUFFER - 1
      decreases |q|
    {
      q := q[1..];
    }
    q := q + [f];
  }

  predicate Suffix(q: seq<Frame>, all: seq<Frame>) {
    |q| <= |all| && q == all[|all| - |q|..]
  }

  /** A queue after a frame: the newest eight at most. */
  function Pushed(q: seq<Frame>, f: Frame): seq<Frame> {
    (if |q| >= BUFFER then q[|q| - BUFFER + 1..] else q) + [f]
  }

  lemma PushKeepsSuffix(q: seq<Frame>, all: seq<Frame>, f: Frame)
    requires Suffix(q, all) && |q| <= BUFFER
    ensures Suffix(Pushed(q, f), all + [f]) && |Pushed(q, f)| == if |q| < 8 then |q| + 1 else 8
    ensures |all| - |q| <= |all + [f]| - |Pushed(q, f)|
    ensures Pushed(q, f) != [] && Pushed(q, f)[|Pushed(q, f)| - 1] == f
  {
  }

  lemma SuffixDrops(q: seq<Frame>, all: seq<Frame>)
    requires Suffix(q, all) && |q| > 0
    ensures Suffix(q[1..], all)
  {
  }

  // ---------- the executor ----------

  /** Succeeded steps, at most one running or failed, then queued ones. */
  ghost predicate Shaped(steps: seq<StepState>) {
    exists k :: 0 <= k <= |steps| && ShapedAt(steps, k)
  }

  predicate ShapedAt(steps: seq<StepState>, k: nat)
    requires k <= |steps|
  {
    && (forall i :: 0 <= i < k ==> steps[i] == Succeeded)
    && (k < |steps| ==> steps[k] != Succeeded)
    && (forall i :: k < i < |steps| ==> steps[i] == Queued)
  }

  /** What holds of any run of frames of one operation. */
  ghost predicate Orderly(frames: seq<Frame>) {
    && (forall i :: 0 <= i < |frames| ==> Shaped(frames[i].steps) && frames[i].progress <= 100)
    && forall i, j :: 0 <= i < j < |frames| ==> frames[i].progress <= frames[j].progress
  }

  /** From one frame to the next at most one step moves: it starts, or, having been shown running, ends. */
  ghost predicate Moves(was: seq<StepState>, now: seq<StepState>) {
    was == now || exists k :: 0 <= k < |was| && MovesAt(was, now, k)
  }

  predicate AllQueued(steps: seq<StepState>) {
    forall i :: 0 <= i < |steps| ==> steps[i] == Queued
  }

  predicate MovesAt(was: seq<StepState>, now: seq<StepState>, k: nat)
    requires k < |was|
  {
    && |now| == |was| && now == was[k := now[k]]
    && ((was[k] == Queued && now[k] == Running) || (was[k] == Running && (now[k] == Failed || now[k] == Succeeded)))
  }

  /** Every step that ran was shown running, and each frame's bar lies in the share of its first unfinished step. */
  ghost predicate Stepwise(weights: seq<int>, frames: seq<Frame>) {
    && (frames != [] ==> frames[0].state == Running && AllQueued(frames[0].steps) && frames[0].progress == 0)
    && (forall i :: 0 <= i < |frames| ==> |frames[i].steps| == |weights|)
    && (forall i :: 0 < i < |frames| ==> Moves(frames[i - 1].steps, frames[i].steps))
    && forall i, k :: 0 <= i < |frames| && 0 <= k <= |frames[i].steps| == |weights| && ShapedAt(frames[i].steps, k) ==>
         InStep(weights, k, frames[i].progress)
  }

  /** From frame `from` on, every frame shows this state and these steps. */
  ghost predicate AllAre(frames: seq<Frame>, from: nat, state: StepState, steps: seq<StepState>) {
    forall i :: from <= i < |frames| ==> frames[i].state == state && frames[i].steps == steps
  }

  lemma OrderlyMore(frames: seq<Frame>, f: Frame)
    requires Orderly(frames) && Shaped(f.steps) && f.progress <= 100
    requires frames != [] ==> frames[|frames| - 1].progress <= f.progress
    ensures Orderly(frames + [f])
  {
  }

  lemma StepwiseMore(weights: seq<int>, frames: seq<Frame>, f: Frame, k: nat)
    requires Stepwise(weights, frames) && k <= |weights| == |f.steps| && ShapedAt(f.steps, k) && InStep(weights, k, f.progress)
    requires frames != [] ==> Moves(frames[|frames| - 1].steps, f.steps)
    requires frames == [] ==> f.state == Running && AllQueued(f.steps) && f.progress == 0
    ensures Stepwise(weights, frames + [f])
  {
    hide InStep, Moves, AllQueued;
    var all := frames + [f];
    forall i, j | 0 <= i < |all| && 0 <= j <= |all[i].steps| == |weights| && ShapedAt(all[i].steps, j)
      ensures InStep(weights, j, all[i].progress)
    {
      if i == |frames| { assert j == k; } else { assert all[i] == frames[i]; }
    }
    forall i | 0 < i < |all| ensures Moves(all[i - 1].steps, all[i].steps) {
      assert all[i - 1] == frames[i - 1];
      if i < |frames| { assert all[i] == frames[i]; }
    }
  }

  class Execution {
    const weights: seq<int>
    const feed: Feed
    var steps: seq<StepState>
    var state: StepState
    var progress: nat
    ghost var frames: seq<Frame>

    /** The first `k` steps are done; the bar stands where they, and reports of step `k`, have brought it. */
    ghost predicate Valid(k: nat)
      reads this, feed
    {
      && feed.Valid()
      && k <= |weights| && |steps| == |weights| && ShapedAt(steps, k)
      && Orderly(frames) && (frames != [] ==> frames[|frames| - 1].progress <= progress)
      && InStep(weights, k, progress)
      && Stepwise(weights, frames) && (frames != [] ==> Moves(frames[|frames| - 1].steps, steps))
    }

    /** The last frame shows the steps as they are now. */
    ghost predicate Shown()
      reads this
    {
      frames != [] && frames[|frames| - 1].steps == steps
    }

    /** The last of these frames shows the operation as it is now. */
    ghost predicate Ends(shown: seq<Frame>)
      reads this
    {
      shown != [] && shown[|shown| - 1] == Frame(state, steps, progress)
    }

    constructor (weights: seq<int>, feed: Feed)
      requires feed.Valid()
      ensures Valid(0) && frames == [] && this.weights == weights && this.feed == feed
      ensures progress == 0 && state == Queued && AllQueued(steps)
    {
      this.weights, this.feed := weights, feed;
      steps, state, progress, frames := seq(|weights|, _ => Queued), Queued, 0, [];
      new;
      if |weights| > 0 { MarksGrow(weights, 0, 1); }
    }

    method Persist(ghost k: nat)
      requires Valid(k) && (frames == [] ==> state == Running && AllQueued(steps) && progress == 0)
      modifies this`frames, feed
      ensures Valid(k) && Shown() && frames == old(frames) + [Frame(state, steps, progress)]
      ensures feed.published == old(feed.published) + [Frame(state, steps, progress)]
    {
      hide InStep, Stepwise, Moves;
      BarInRange(weights, k, progress);
      assert Shaped(steps);
      StepwiseMore(weights, frames, Frame(state, steps, progress), k);
      Stays(steps);
      OrderlyMore(frames, Frame(state, steps, progress));
      frames := frames + [Frame(state, steps, progress)];
      feed.Publish(Frame(state, steps, progress));
    }

    /** A report from step `i` while step `k` is the current one: only the current step's move the bar, forward. */
    method Report(i: nat, frac: real, ghost k: nat)
      requires Valid(k) && Shown() && i <= k && i < |weights|
      modifies this`frames, this`progress, feed
      ensures Valid(k) && Shown() && old(progress) <= progress
      ensures i < k ==> progress == old(progress)
      ensures frames == if progress == old(progress) then old(frames) else old(frames) + [Frame(state, steps, progress)]
      ensures feed.published == if progress == old(progress) then old(feed.published)
                                else old(feed.published) + [Frame(state, steps, progress)]
    {
      var p := Reported(weights, i, frac);
      ReportKept(weights, i, k, progress, frac);
      if p <= progress {
        return;
      }
      progress := p;
      Persist(k);
    }

    /** Any number of reports, in-step or from steps already over, from any goroutine. */
    method Reports(k: nat)
      requires Valid(k) && Shown()
      modifies this`frames, this`progress, feed
      ensures Valid(k) && Shown() && old(progress) <= progress && old(frames) <= frames
      ensures k == |weights| ==> progress == old(progress)
      ensures progress == old(progress) <==> frames == old(frames)
      ensures AllAre(frames, |old(frames)|, state, steps)
      ensures frames != old(frames) ==> Ends(frames) && Ends(feed.published)
      ensures frames == old(frames) ==> feed.published == old(feed.published)
    {
      hide Orderly, InStep, ShapedAt, Mark, Stepwise, Moves, Shaped;
      var more: nat := *;
      while more > 0 && |weights| > 0
        invariant Valid(k) && Shown() && old(progress) <= progress && old(frames) <= frames
        invariant k == |weights| ==> progress == old(progress)
        invariant progress == old(progress) <==> frames == old(frames)
        invariant AllAre(frames, |old(frames)|, state, steps)
        invariant frames != old(frames) ==> Ends(frames) && Ends(feed.published)
        invariant frames == old(frames) ==> feed.published == old(feed.published)
        decreases more
      {
        var i: nat, frac: real := *, *;
        if i < |weights| && i <= k {
          Report(i, frac, k);
        }
        more := more - 1;
      }
    }

    /** A step reaches state `s` and the bar `p`, which is stored, and reports may follow. */
    method Reach(i: nat, s: StepState, p: nat, k: nat)
      requires Valid(i) && Shown() && i < |weights|
      requires (steps[i] == Queued && s == Running) || (steps[i] == Running && (s == Failed || s == Succeeded))
      requires if s == Succeeded then k == i + 1 && p == Mark(weights, i + 1) else k == i && p == progress
      modifies this`frames, this`progress, this`steps, feed
      ensures Valid(k) && Shown() && steps == old(steps)[i := s]
      ensures old(frames) < frames && forall j :: |old(frames)| <= j < |frames| ==> frames[j].state == state
    {
      hide Orderly, InStep, ShapedAt, Mark, Stepwise, Moves, Shaped;
      MovesOne(steps, i, s);
      if s == Succeeded {
        ShapedNext(steps, i);
        BarNext(weights, i, progress);
      } else {
        ShapedRuns(steps, i, s);
      }
      steps, progress := steps[i := s], p;
      Persist(k);
      Reports(k);
    }

    /** One step: running, its reports, and then failed or succeeded with the bar at its mark, and late reports. */
    method RunStep(i: nat) returns (ok: bool)
      requires Valid(i) && Shown() && i < |weights| && steps[i] == Queued
      modifies this`frames, this`progress, this`steps, feed
      ensures old(frames) < frames && forall j :: |old(frames)| <= j < |frames| ==> frames[j].state == state
      ensures Shown() && steps == old(steps)[i := if ok then Succeeded else Failed]
      ensures ok ==> Valid(i + 1)
      ensures !ok ==> Valid(i)
    {
      hide Orderly, InStep, ShapedAt, Mark, Stepwise, Moves, Shaped;
      Reach(i, Running, progress, i);
      ok := *;
      if !ok {
        Reach(i, Failed, progress, i);
        return;
      }
      BarNext(weights, i, progress);
      Reach(i, Succeeded, Done(weights, i + 1) * 100 / Total(weights), i + 1);
    }

    /**
     One run: the steps in order until one fails, then the final state, with reports arriving at any time, also after
     a step failed and after the final state was stored. Every frame is orderly. From the frame that stores the
     outcome on, every frame shows it: after a success that frame is the last, with every step succeeded and a full
     bar; after a failure the failed step stands between succeeded and queued ones, and late reports of it may still
     move the bar, up to where the step would have ended.
     */
    method Run() returns (failed: Option<nat>, ghost outcome: nat)
      requires Valid(0) && frames == [] && progress == 0 && AllQueued(steps)
      modifies this, feed
      ensures Orderly(frames) && Stepwise(weights, frames) && feed.Valid() && 1 <= outcome < |frames|
      ensures AllAre(frames, outcome, state, steps) && (forall i :: 0 <= i < outcome ==> frames[i].state == Running)
      ensures Ends(frames) && Ends(feed.published)
      ensures failed == None ==>
                && state == Succeeded && progress == 100 && |steps| == |weights| && ShapedAt(steps, |steps|)
                && |frames| == outcome + 1
      ensures failed.Some? ==>
                && failed.value < |steps| == |weights| && state == Failed
                && steps[failed.value] == Failed && ShapedAt(steps, failed.value)
                && Mark(weights, failed.value) <= frames[outcome].progress <= progress <= Mark(weights, failed.value + 1)
    {
      hide Orderly, InStep, ShapedAt, Mark, Stepwise, Moves, Shaped;
      failed := None;
      state := Running;
      Persist(0);
      var i := 0;
      while i < |weights|
        invariant i <= |weights| && Valid(i) && Shown() && forall j :: i <= j < |weights| ==> steps[j] == Queued
        invariant state == Running && forall j :: 0 <= j < |frames| ==> frames[j].state == Running
      {
        var ok := RunStep(i);
        if !ok {
          outcome := |frames|;
          state := Failed;
          Persist(i);
          BarInStep(weights, i, progress);
          Reports(i);
          BarInStep(weights, i, progress);
          return Some(i), outcome;
        }
        i := i + 1;
      }
      BarFull(weights, progress);
      state, progress := Succeeded, 100;
      outcome := |frames|;
      Persist(i);
      Reports(i);
    }
  }

  /** Where the bar can be while step `k` is the current one. */
  ghost predicate InStep(weights: seq<int>, k: nat, progress: nat)
    requires k <= |weights|
  {
    if |weights| == 0 then progress == 0 || progress == 100
    else Mark(weights, k) <= progress <= Mark(weights, if k < |weights| then k + 1 else k)
  }

  lemma BarInStep(weights: seq<int>, k: nat, progress: nat)
    requires k < |weights| && InStep(weights, k, progress)
    ensures Mark(weights, k) <= progress <= Mark(weights, k + 1)
  {
  }

  lemma BarInRange(weights: seq<int>, k: nat, progress: nat)
    requires k <= |weights| && InStep(weights, k, progress)
    ensures progress <= 100
  {
    hide Mark;
    if |weights| > 0 { MarksGrow(weights, k, if k < |weights| then k + 1 else k); }
  }

  lemma ReportKept(weights: seq<int>, i: nat, k: nat, progress: nat, frac: real)
    requires i <= k <= |weights| && i < |weights| && InStep(weights, k, progress)
    ensures i < k ==> Reported(weights, i, frac) <= progress
    ensures Reported(weights, i, frac) >= progress ==> InStep(weights, k, Reported(weights, i, frac))
  {
    hide Mark, Reported;
    ReportedBetween(weights, i, frac);
    MarksGrow(weights, i + 1, if i < k then k else i + 1);
    MarksGrow(weights, k, if k < |weights| then k + 1 else k);
  }

  lemma BarNext(weights: seq<int>, k: nat, progress: nat)
    requires k < |weights| && InStep(weights, k, progress)
    ensures Total(weights) > 0 && Done(weights, k + 1) * 100 / Total(weights) == Mark(weights, k + 1)
    ensures progress <= Mark(weights, k + 1) && InStep(weights, k + 1, Mark(weights, k + 1))
  {
    DoneGrows(weights, 0, |weights|);
    MarksGrow(weights, k + 1, if k + 1 < |weights| then k + 2 else k + 1);
  }

  lemma BarFull(weights: seq<int>, progress: nat)
    requires InStep(weights, |weights|, progress)
    ensures progress <= 100 && InStep(weights, |weights|, 100)
  {
    if |weights| > 0 { MarksGrow(weights, 0, |weights|); }
  }

  lemma ShapedRuns(steps: seq<StepState>, k: nat, s: StepState)
    requires k < |steps| && ShapedAt(steps, k) && s != Succeeded
    ensures ShapedAt(steps[k := s], k)
  {
  }

  lemma MovesOne(steps: seq<StepState>, k: nat, s: StepState)
    requires k < |steps| && ((steps[k] == Queued && s == Running) || (steps[k] == Running && (s == Failed || s == Succeeded)))
    ensures Moves(steps, steps[k := s])
  {
    assert MovesAt(steps, steps[k := s], k);
  }

  lemma Stays(steps: seq<StepState>)
    ensures Moves(steps, steps)
  {
  }

  lemma ShapedNext(steps: seq<StepState>, k: nat)
    requires k < |steps| && ShapedAt(steps, k)
    ensures ShapedAt(steps[k := Succeeded], k + 1)
  {
  }
}
