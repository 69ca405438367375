/**
 One lab's metrics history: a trimmed window in memory beside hourly shards on disk. Within the window memory
 answers exactly what a scan of the shards would, through sweeps, trims, shard cleanups and restarts with replay.
 */
module History {
  import opened Wrappers

  // Times are ticks since a fixed instant; hours are numbered from it.
  const HOUR := 3_600_000_000_000
  const WINDOW := 2 * HOUR
  const RETENTION := 24 * HOUR

  datatype Point = Point(ts: int, value: int)

  datatype Rec = Rec(server: string, point: Point)

  function HourOf(t: int): int {
    t / HOUR
  }

  // ---------- what a query is asked for ----------

  /** One server's points within `[lo, hi]`, in order. */
  function Points(log: seq<Rec>, server: string, lo: int, hi: int): seq<Point> {
    if log == [] then []
    else
      var r := log[|log| - 1];
      Points(log[..|log| - 1], server, lo, hi)
      + if r.server == server && lo <= r.point.ts <= hi then [r.point] else []
  }

  ghost predicate AskedFor(r: Rec, server: string, lo: int, hi: int) {
    r.server == server && lo <= r.point.ts && r.point.ts <= hi
  }

  /** The points are those of the asked-for records, which stand at the places `at`. */
  ghost predicate StandAt(points: seq<Point>, log: seq<Rec>, server: string, lo: int, hi: int, at: seq<nat>) {
    && |at| == |points|
    && (forall i :: 0 <= i < |at| ==> at[i] < |log| && points[i] == log[at[i]].point && AskedFor(log[at[i]], server, lo, hi))
    && (forall i, j :: 0 <= i < j < |at| ==> at[i] < at[j])
    && forall k :: 0 <= k < |log| && AskedFor(log[k], server, lo, hi) ==> k in at
  }

  lemma StandsNext(points: seq<Point>, init: seq<Rec>, r: Rec, server: string, lo: int, hi: int, at: seq<nat>)
    requires StandAt(points, init, server, lo, hi, at)
    ensures if r.server == server && lo <= r.point.ts <= hi then StandAt(points + [r.point], init + [r], server, lo, hi, at + [|init|])
            else StandAt(points, init + [r], server, lo, hi, at)
  {
    var log := init + [r];
    assert forall k :: 0 <= k < |init| ==> init[k] == log[k];
    assert log[|init|] == r;
    if AskedFor(r, server, lo, hi) {
      var more := at + [|init|];
      assert more[|at|] == |init|;
      forall k | 0 <= k < |log| && AskedFor(log[k], server, lo, hi) ensures k in more {
        if k < |init| { assert init[k] == log[k] && k in at; }
      }
    }
  }

  ghost function Places(log: seq<Rec>, server: string, lo: int, hi: int): seq<nat> {
    if log == [] then []
    else
      var k := |log| - 1;
      Places(log[..k], server, lo, hi) + if log[k].server == server && lo <= log[k].point.ts <= hi then [k] else []
  }

  /** A query's answer is the logged points of that server between both ends, inclusive, each once and in log order. */
  lemma {:induction false} PointsAre(log: seq<Rec>, server: string, lo: int, hi: int)
    ensures StandAt(Points(log, server, lo, hi), log, server, lo, hi, Places(log, server, lo, hi))
  {
    if log != [] {
      hide StandAt;
      var init, r := log[..|log| - 1], log[|log| - 1];
      PointsAre(init, server, lo, hi);
      StandsNext(Points(init, server, lo, hi), init, r, server, lo, hi, Places(init, server, lo, hi));
      assert log == init + [r];
    }
  }

  function FilterPoints(window: seq<Point>, lo: int, hi: int): seq<Point> {
    if window == [] then []
    else
      var p := window[|window| - 1];
      FilterPoints(window[..|window| - 1], lo, hi) + if lo <= p.ts <= hi then [p] else []
  }

  /** The records of the hours `[from, from + n)`. */
  function HourRange(log: seq<Rec>, from: int, n: nat): seq<Rec> {
    if log == [] then []
    else
      var r := log[|log| - 1];
      HourRange(log[..|log| - 1], from, n) + if from <= HourOf(r.point.ts) < from + n then [r] else []
  }

  function InHour(log: seq<Rec>, hour: int): seq<Rec> {
    HourRange(log, hour, 1)
  }

  function ShardAt(shards: map<int, seq<Rec>>, hour: int): seq<Rec> {
    if hour in shards then shards[hour] else []
  }

  /** `n` shards scanned from an hour on. */
  function Scan(shards: map<int, seq<Rec>>, server: string, lo: int, hi: int, from: int, n: nat): seq<Point> {
    if n == 0 then []
    else Scan(shards, server, lo, hi, from, n - 1) + Points(ShardAt(shards, from + n - 1), server, lo, hi)
  }

  /** How many hours `shardsSince` lists. */
  function HoursIn(lo: int, hi: int): nat {
    if HourOf(hi) < HourOf(lo) then 0 else HourOf(hi) - HourOf(lo) + 1
  }

  function ScanShards(shards: map<int, seq<Rec>>, server: string, lo: int, hi: int): seq<Point> {
    Scan(shards, server, lo, hi, HourOf(lo), HoursIn(lo, hi))
  }

  /** An hour's shard holds exactly the instants of that hour. */
  lemma HourIff(t: int, h: int)
    ensures HourOf(t) == h <==> h * HOUR <= t < (h + 1) * HOUR
  {
  }

  // ---------- one step further ----------

  lemma PointsNext(log: seq<Rec>, r: Rec, server: string, lo: int, hi: int)
    ensures Points(log + [r], server, lo, hi)
            == Points(log, server, lo, hi) + if r.server == server && lo <= r.point.ts <= hi then [r.point] else []
  {
  }

  lemma FilterNext(window: seq<Point>, p: Point, lo: int, hi: int)
    ensures FilterPoints(window + [p], lo, hi) == FilterPoints(window, lo, hi) + if lo <= p.ts <= hi then [p] else []
  {
  }

  lemma HourRangeNext(log: seq<Rec>, r: Rec, from: int, n: nat)
    ensures HourRange(log + [r], from, n) == HourRange(log, from, n) + if from <= HourOf(r.point.ts) < from + n then [r] else []
  {
  }

  lemma {:induction false} PointsConcat(xs: seq<Rec>, ys: seq<Rec>, server: string, lo: int, hi: int)
    ensures Points(xs + ys, server, lo, hi) == Points(xs, server, lo, hi) + Points(ys, server, lo, hi)
  {
    hide Points;
    if ys == [] {
      NoPoints(server, lo, hi);
      assert xs + ys == xs;
    } else {
      var init, last := ys[..|ys| - 1], ys[|ys| - 1];
      assert ys == init + [last];
      PointsConcat(xs, init, server, lo, hi);
      PointsNext(init, last, server, lo, hi);
      assert xs + ys == (xs + init) + [last];
      PointsNext(xs + init, last, server, lo, hi);
    }
  }

  // ---------- shards hold the log ----------

  ghost predicate Ordered(log: seq<Rec>) {
    forall i, j :: 0 <= i < j < |log| ==> log[i].point.ts <= log[j].point.ts
  }

  lemma HourMonotone(a: int, b: int)
    requires a <= b
    ensures HourOf(a) <= HourOf(b)
  {
  }

  lemma {:induction false} NothingLater(log: seq<Rec>, hour: int)
    requires forall i :: 0 <= i < |log| ==> HourOf(log[i].point.ts) < hour
    ensures InHour(log, hour) == []
  {
    if log != [] {
      NothingLater(log[..|log| - 1], hour);
    }
  }

  /** In an ordered log, one more hour is the records so far followed by that hour's. */
  lemma {:induction false} OneMoreHour(log: seq<Rec>, from: int, n: nat)
    requires Ordered(log)
    ensures HourRange(log, from, n + 1) == HourRange(log, from, n) + InHour(log, from + n)
  {
    hide HourRange, Ordered;
    if log == [] {
      EmptyLog(from, n);
    } else {
      var init, r := log[..|log| - 1], log[|log| - 1];
      assert log == init + [r];
      InitOrdered(init, r);
      OneMoreHour(init, from, n);
      HourRangeNext(init, r, from, n + 1);
      HourRangeNext(init, r, from, n);
      HourRangeNext(init, r, from + n, 1);
      if HourOf(r.point.ts) < from + n {
        EarlierHours(init, r, from + n);
        NothingLater(init, from + n);
      }
    }
  }

  lemma InitOrdered(init: seq<Rec>, r: Rec)
    requires Ordered(init + [r])
    ensures Ordered(init)
  {
    forall i, j | 0 <= i < j < |init| ensures init[i].point.ts <= init[j].point.ts {
      assert (init + [r])[i] == init[i] && (init + [r])[j] == init[j];
    }
  }

  lemma EmptyLog(from: int, n: nat)
    ensures HourRange([], from, n) == [] && HourRange([], from, n + 1) == [] && InHour([], from + n) == []
  {
  }

  lemma EarlierHours(init: seq<Rec>, r: Rec, hour: int)
    requires Ordered(init + [r]) && HourOf(r.point.ts) < hour
    ensures forall i :: 0 <= i < |init| ==> HourOf(init[i].point.ts) < hour
  {
    forall i | 0 <= i < |init| ensures HourOf(init[i].point.ts) < hour {
      assert (init + [r])[i] == init[i] && (init + [r])[|init|] == r;
      HourMonotone(init[i].point.ts, r.point.ts);
    }
  }

  /** Every shard on disk is its hour of the log, and from `kept` on none is missing. */
  ghost predicate ShardsFit(shards: map<int, seq<Rec>>, log: seq<Rec>, kept: int) {
    && (forall h :: h in shards ==> shards[h] == InHour(log, h))
    && forall h :: h >= kept && h !in shards ==> InHour(log, h) == []
  }

  lemma {:induction false} ScanIsRange(shards: map<int, seq<Rec>>, log: seq<Rec>, kept: int, server: string, lo: int, hi: int, from: int, n: nat)
    requires Ordered(log) && ShardsFit(shards, log, kept) && from >= kept
    ensures Scan(shards, server, lo, hi, from, n) == Points(HourRange(log, from, n), server, lo, hi)
  {
    hide HourRange, Points, Ordered, ShardsFit, InHour;
    if n == 0 {
      EmptyRange(log, from);
      NoPoints(server, lo, hi);
    } else {
      ScanIsRange(shards, log, kept, server, lo, hi, from, n - 1);
      OneMoreHour(log, from, n - 1);
      PointsConcat(HourRange(log, from, n - 1), InHour(log, from + n - 1), server, lo, hi);
      ShardIs(shards, log, kept, from + n - 1);
    }
  }

  lemma ShardIs(shards: map<int, seq<Rec>>, log: seq<Rec>, kept: int, hour: int)
    requires ShardsFit(shards, log, kept) && hour >= kept
    ensures ShardAt(shards, hour) == InHour(log, hour)
  {
  }

  lemma NoPoints(server: string, lo: int, hi: int)
    ensures Points([], server, lo, hi) == []
  {
  }

  lemma {:induction false} EmptyRange(log: seq<Rec>, from: int)
    ensures HourRange(log, from, 0) == []
  {
    if log != [] { EmptyRange(log[..|log| - 1], from); }
  }

  /** Only the hours between a query's ends can hold points of it. */
  lemma {:induction false} RangeSuffices(log: seq<Rec>, server: string, lo: int, hi: int)
    ensures Points(HourRange(log, HourOf(lo), HoursIn(lo, hi)), server, lo, hi) == Points(log, server, lo, hi)
  {
    if log == [] {
      EmptyLog(HourOf(lo), HoursIn(lo, hi));
    } else {
      hide HourRange, Points;
      var init, r := log[..|log| - 1], log[|log| - 1];
      assert log == init + [r];
      RangeSuffices(init, server, lo, hi);
      HourRangeNext(init, r, HourOf(lo), HoursIn(lo, hi));
      if lo <= r.point.ts <= hi {
        HourMonotone(lo, r.point.ts);
        HourMonotone(r.point.ts, hi);
      }
      var before := HourRange(init, HourOf(lo), HoursIn(lo, hi));
      assert before + [] == before;
      PointsNext(before, r, server, lo, hi);
      PointsNext(init, r, server, lo, hi);
    }
  }

  /** Scanning the shards gives exactly the logged points, as far back as no shard was deleted. */
  lemma ScanIsLog(shards: map<int, seq<Rec>>, log: seq<Rec>, kept: int, server: string, lo: int, hi: int)
    requires Ordered(log) && ShardsFit(shards, log, kept) && HourOf(lo) >= kept
    ensures ScanShards(shards, server, lo, hi) == Points(log, server, lo, hi)
  {
    ScanIsRange(shards, log, kept, server, lo, hi, HourOf(lo), HoursIn(lo, hi));
    RangeSuffices(log, server, lo, hi);
  }

  // ---------- memory holds the window ----------

  function WindowAt(windows: map<string, seq<Point>>, server: string): seq<Point> {
    if server in windows then windows[server] else []
  }

  /** From two hours before `clock` on, memory and log answer alike. */
  ghost predicate MemoryFits(windows: map<string, seq<Point>>, log: seq<Rec>, clock: int) {
    forall server, lo, hi :: lo >= clock - WINDOW ==>
      FilterPoints(WindowAt(windows, server), lo, hi) == Points(log, server, lo, hi)
  }

  lemma MemoryAnswers(windows: map<string, seq<Point>>, log: seq<Rec>, clock: int, server: string, lo: int, hi: int)
    requires MemoryFits(windows, log, clock) && lo >= clock - WINDOW
    ensures FilterPoints(WindowAt(windows, server), lo, hi) == Points(log, server, lo, hi)
  {
  }

  lemma MemoryLater(windows: map<string, seq<Point>>, log: seq<Rec>, clock: int, later: int)
    requires MemoryFits(windows, log, clock) && clock <= later
    ensures MemoryFits(windows, log, later)
  {
  }

  /** The points left after the leading old ones are dropped. */
  function Trimmed(window: seq<Point>, cutoff: int): seq<Point> {
    if window != [] && window[0].ts < cutoff then Trimmed(window[1..], cutoff) else window
  }

  /** Trimming drops the leading points before the cutoff, and what is left starts no earlier. */
  lemma {:induction false} TrimmedIs(window: seq<Point>, cutoff: int)
    ensures var left := Trimmed(window, cutoff);
            && |left| <= |window| && left == window[|window| - |left|..]
            && (forall i :: 0 <= i < |window| - |left| ==> window[i].ts < cutoff)
            && (left != [] ==> left[0].ts >= cutoff)
  {
    if window != [] && window[0].ts < cutoff {
      TrimmedIs(window[1..], cutoff);
      assert forall i :: 1 <= i < |window| ==> window[i] == window[1..][i - 1];
    }
  }

  /** A window that has taken in a point and been trimmed still has it, and starts no more than two hours before it. */
  lemma TrimKeepsNewest(window: seq<Point>, p: Point)
    ensures var left := Trimmed(window + [p], p.ts - WINDOW);
            left != [] && left[|left| - 1] == p && left[0].ts >= p.ts - WINDOW
  {
    TrimmedIs(window + [p], p.ts - WINDOW);
    assert (window + [p])[|window|] == p;
  }

  lemma {:induction false} TrimLosesNothing(window: seq<Point>, cutoff: int, lo: int, hi: int)
    requires lo >= cutoff
    ensures FilterPoints(Trimmed(window, cutoff), lo, hi) == FilterPoints(window, lo, hi)
  {
    if window != [] && window[0].ts < cutoff {
      TrimLosesNothing(window[1..], cutoff, lo, hi);
      DropFirst(window, lo, hi);
    }
  }

  lemma {:induction false} DropFirst(window: seq<Point>, lo: int, hi: int)
    requires window != [] && window[0].ts < lo
    ensures FilterPoints(window, lo, hi) == FilterPoints(window[1..], lo, hi)
  {
    if |window| > 1 {
      var init, p := window[..|window| - 1], window[|window| - 1];
      DropFirst(init, lo, hi);
      assert window[1..] == init[1..] + [p] && window == init + [p];
      FilterNext(init[1..], p, lo, hi);
    } else {
      assert window == [] + [window[0]] && window[1..] == [];
      FilterNext([], window[0], lo, hi);
    }
  }

  /** Taking a point in and trimming keeps memory in step with the log. */
  lemma AppendKeepsMemory(windows: map<string, seq<Point>>, log: seq<Rec>, clock: int, r: Rec)
    requires MemoryFits(windows, log, clock) && r.point.ts <= clock
    ensures MemoryFits(windows[r.server := Trimmed(WindowAt(windows, r.server) + [r.point], r.point.ts - WINDOW)], log + [r], clock)
  {
    var grown := WindowAt(windows, r.server) + [r.point];
    var after := windows[r.server := Trimmed(grown, r.point.ts - WINDOW)];
    forall server, lo, hi | lo >= clock - WINDOW
      ensures FilterPoints(WindowAt(after, server), lo, hi) == Points(log + [r], server, lo, hi)
    {
      hide Trimmed, Points, FilterPoints;
      PointsNext(log, r, server, lo, hi);
      assert FilterPoints(WindowAt(windows, server), lo, hi) == Points(log, server, lo, hi);
      if server == r.server {
        TrimLosesNothing(grown, r.point.ts - WINDOW, lo, hi);
        FilterNext(WindowAt(windows, server), r.point, lo, hi);
      }
    }
  }

  /** Writing a record to its hour's shard keeps the shards in step with the log. */
  lemma AppendKeepsShards(shards: map<int, seq<Rec>>, log: seq<Rec>, kept: int, r: Rec)
    requires ShardsFit(shards, log, kept) && HourOf(r.point.ts) >= kept
    ensures var h := HourOf(r.point.ts); ShardsFit(shards[h := ShardAt(shards, h) + [r]], log + [r], kept)
  {
  }

  lemma CleanKeepsShards(shards: map<int, seq<Rec>>, after: map<int, seq<Rec>>, log: seq<Rec>, kept: int, cutoff: int)
    requires ShardsFit(shards, log, kept) && kept <= cutoff
    requires after == map h | h in shards && h >= cutoff :: shards[h]
    ensures ShardsFit(after, log, cutoff)
  {
  }

  lemma {:induction false} Refilter(log: seq<Rec>, server: string, cutoff: int, now: int, lo: int, hi: int)
    requires lo >= cutoff && forall i :: 0 <= i < |log| ==> log[i].point.ts <= now
    ensures FilterPoints(Points(log, server, cutoff, now), lo, hi) == Points(log, server, lo, hi)
  {
    hide Points, FilterPoints;
    if log == [] {
      NoPoints(server, cutoff, now);
      NoPoints(server, lo, hi);
      NothingFiltered(lo, hi);
    } else {
      var init, r := log[..|log| - 1], log[|log| - 1];
      assert log == init + [r];
      Refilter(init, server, cutoff, now, lo, hi);
      PointsNext(init, r, server, cutoff, now);
      PointsNext(init, r, server, lo, hi);
      var before := Points(init, server, cutoff, now);
      assert before + [] == before;
      FilterNext(before, r.point, lo, hi);
    }
  }

  lemma NothingFiltered(lo: int, hi: int)
    ensures FilterPoints([], lo, hi) == []
  {
  }

  // ---------- the store ----------

  /** The shards a cleanup leaves. */
  function Retained(shards: map<int, seq<Rec>>, now: int): map<int, seq<Rec>> {
    map h | h in shards && h >= HourOf(now - RETENTION) :: shards[h]
  }

  class LabHistory {
    var loaded: bool
    var windows: map<string, seq<Point>>
    var shards: map<int, seq<Rec>>
    var open: Option<int>          // the hour whose shard is open for appending

    /** Every record ever appended, the latest instant seen, and the first hour no cleanup has reached. */
    ghost var log: seq<Rec>
    ghost var clock: int
    ghost var kept: int

    ghost predicate Valid()
      reads this
    {
      && Ordered(log) && (forall i :: 0 <= i < |log| ==> log[i].point.ts <= clock)
      && ShardsFit(shards, log, kept) && kept <= HourOf(clock - RETENTION)
      && (if loaded then MemoryFits(windows, log, clock) else windows == map[])
    }

    /** A lab seen for the first time at `now`. */
    constructor (now: int)
      ensures Valid() && log == [] && clock == now
    {
      loaded, windows, shards, open := false, map[], map[], None;
      log, clock, kept := [], now, HourOf(now - RETENTION);
      new;
      NoRecords();
    }

    /** The controller restarts, or the lab is dropped from memory: only the shards stay. */
    method Forget()
      requires Valid()
      modifies this`loaded, this`windows, this`open
      ensures Valid() && !loaded && windows == map[] && open == None
    {
      loaded, windows, open := false, map[], None;
    }

    /** Deletes exactly the shards that fell out of retention. */
    method Cleanup(now: int)
      requires Valid() && clock <= now
      modifies this`shards, this`clock, this`kept
      ensures Valid() && log == old(log) && clock == now
      ensures shards == Retained(old(shards), now)
    {
      hide ShardsFit, MemoryFits, Ordered, HourOf;
      var cutoff := HourOf(now - RETENTION);
      HourMonotone(clock - RETENTION, now - RETENTION);
      CleanKeepsShards(shards, Retained(shards, now), log, kept, cutoff);
      shards := Retained(shards, now);
      if loaded { MemoryLater(windows, log, clock, now); }
      clock, kept := now, cutoff;
    }

    /** First touch: the window is rebuilt from the shards that cover it, and expired shards go. */
    method EnsureLab(now: int)
      requires Valid() && clock <= now
      modifies this
      ensures Valid() && loaded && log == old(log) && clock == now && open == old(open)
      ensures shards == if old(loaded) then old(shards) else Retained(old(shards), now)
    {
      hide ShardsFit, MemoryFits, Ordered, HourOf, HoursIn;
      if !loaded {
        windows := Replay(now);
        loaded := true;
        MemoryLater(windows, log, now, now);
        clock := now;
        HourMonotone(old(clock) - RETENTION, now - RETENTION);
        Cleanup(now);
      } else {
        MemoryLater(windows, log, clock, now);
        HourMonotone(clock - RETENTION, now - RETENTION);
        clock := now;
      }
    }

    /** Shard by shard, line by line, into per-server windows. */
    method Replay(now: int) returns (replayed: map<string, seq<Point>>)
      requires Valid() && clock <= now && !loaded
      ensures MemoryFits(replayed, log, now)
    {
      hide ShardsFit, MemoryFits, Ordered, HourOf, HoursIn, Points, Scan;
      var cutoff := now - WINDOW;
      var from, n := HourOf(cutoff), HoursIn(cutoff, now);
      replayed := map[];
      forall server { NoScan(shards, server, cutoff, now, from); }
      for i := 0 to n
        invariant forall server :: WindowAt(replayed, server) == Scan(shards, server, cutoff, now, from, i)
      {
        var lines := ShardAt(shards, from + i);
        ShardInPast(from + i, now);
        forall server { NoPoints(server, cutoff, now); }
        assert lines[..0] == [];
        for j := 0 to |lines|
          invariant forall server ::
            WindowAt(replayed, server) == Scan(shards, server, cutoff, now, from, i) + Points(lines[..j], server, cutoff, now)
        {
          var r := lines[j];
          assert lines[..j + 1] == lines[..j] + [r];
          forall server { PointsNext(lines[..j], r, server, cutoff, now); }
          if r.point.ts >= cutoff {
            replayed := replayed[r.server := WindowAt(replayed, r.server) + [r.point]];
          }
        }
        assert lines[..|lines|] == lines;
        forall server { ScanNext(shards, server, cutoff, now, from, i); }
      }
      KeptCovers(now);
      ReplayFits(replayed, shards, log, kept, cutoff, now);
    }

    /** No shard holds a point from the future. */
    lemma ShardInPast(hour: int, now: int)
      requires Valid() && clock <= now
      ensures forall j :: 0 <= j < |ShardAt(shards, hour)| ==> ShardAt(shards, hour)[j].point.ts <= now
    {
      if hour in shards {
        HourRangeFrom(log, hour, 1, now);
      }
    }

    lemma KeptCovers(now: int)
      requires Valid() && clock <= now
      ensures kept <= HourOf(now - WINDOW)
    {
    }

    /** One server's point of a sweep: into its window, and onto the shard of its hour. */
    method AppendPoint(server: string, p: Point)
      requires Valid() && loaded && p.ts <= clock && HourOf(p.ts) >= HourOf(clock - RETENTION)
      requires log != [] ==> log[|log| - 1].point.ts <= p.ts
      modifies this`windows, this`shards, this`log
      ensures Valid() && log == old(log) + [Rec(server, p)]
      ensures shards == old(shards)[HourOf(p.ts) := ShardAt(old(shards), HourOf(p.ts)) + [Rec(server, p)]]
      ensures windows == old(windows)[server := Trimmed(WindowAt(old(windows), server) + [p], p.ts - WINDOW)]
      ensures windows[server] != [] && windows[server][0].ts >= p.ts - WINDOW
    {
      hide ShardsFit, MemoryFits, Ordered, HourOf;
      TrimKeepsNewest(WindowAt(windows, server), p);
      var r := Rec(server, p);
      AppendKeepsMemory(windows, log, clock, r);
      AppendKeepsShards(shards, log, kept, r);
      OrderedNext(log, r);
      var trimmed := TrimWindow(WindowAt(windows, server) + [p], p.ts);
      windows := windows[server := trimmed];
      shards := shards[HourOf(p.ts) := ShardAt(shards, HourOf(p.ts)) + [r]];
      log := log + [r];
    }

    /** At the first sweep of an hour, or after a restart: that hour's shard is opened and expired ones are deleted. */
    method Rollover(ts: int, now: int)
      requires Valid() && loaded && clock == now
      modifies this`shards, this`clock, this`kept, this`open
      ensures Valid() && log == old(log) && clock == now && open == Some(HourOf(ts))
      ensures shards == if old(open) == Some(HourOf(ts)) then old(shards) else Retained(old(shards), now)
    {
      hide ShardsFit, MemoryFits, Ordered, HourOf;
      if open != Some(HourOf(ts)) {
        open := Some(HourOf(ts));
        Cleanup(now);
      }
    }

    /** The servers' points of one sweep, in order, onto the open shard. */
    method AppendPoints(ts: int, servers: seq<string>, points: map<string, Point>)
      requires Valid() && loaded && ts <= clock && (log != [] ==> log[|log| - 1].point.ts <= ts)
      requires HourOf(ts) >= HourOf(clock - RETENTION)
      requires forall i :: 0 <= i < |servers| ==> servers[i] in points && points[servers[i]].ts == ts
      modifies this`windows, this`shards, this`log
      ensures Valid() && log == old(log) + SweepRecords(servers, points)
      ensures forall s :: s in servers ==> s in windows && windows[s] != [] && windows[s][0].ts >= ts - WINDOW
      ensures forall h :: h != HourOf(ts) ==>
                (h in shards <==> h in old(shards)) && (h in old(shards) ==> shards[h] == old(shards)[h])
    {
      hide ShardsFit, MemoryFits, Ordered, HourOf, Trimmed, WindowAt, ShardAt, SweepRecords;
      NoSweep(points);
      assert servers[..0] == [] && log == old(log) + [];
      for i := 0 to |servers|
        invariant Valid() && loaded
        invariant log == old(log) + SweepRecords(servers[..i], points)
        invariant log != [] ==> log[|log| - 1].point.ts <= ts
        invariant forall j :: 0 <= j < i ==>
          servers[j] in windows && windows[servers[j]] != [] && windows[servers[j]][0].ts >= ts - WINDOW
        invariant forall h :: h != HourOf(ts) ==>
          (h in shards <==> h in old(shards)) && (h in old(shards) ==> shards[h] == old(shards)[h])
      {
        SweepNext(servers, points, i);
        AppendPoint(servers[i], points[servers[i]]);
      }
      assert servers[..|servers|] == servers;
    }

    /**
     `AppendSweep`: every server's point into its window, which is trimmed to two hours, and onto the hour's shard.
     Whatever the sweep deletes are shards out of retention, all of them if it is the first of its hour.
     */
    method AppendSweep(ts: int, now: int, servers: seq<string>, points: map<string, Point>)
      requires Valid() && clock <= now && ts <= now && (log != [] ==> log[|log| - 1].point.ts <= ts)
      requires HourOf(ts) >= HourOf(now - RETENTION)
      requires forall i :: 0 <= i < |servers| ==> servers[i] in points && points[servers[i]].ts == ts
      modifies this
      ensures Valid() && clock == now
      ensures log == old(log) + SweepRecords(servers, points)
      ensures servers == [] ==> shards == old(shards) && open == old(open)
      ensures servers != [] ==> open == Some(HourOf(ts))
      ensures servers != [] && old(open) != Some(HourOf(ts)) ==> forall h :: h in shards ==> h >= HourOf(now - RETENTION)
      ensures forall s :: s in servers ==> s in windows && windows[s] != [] && windows[s][0].ts >= ts - WINDOW
      ensures forall h :: h in old(shards) && h >= HourOf(now - RETENTION) && h != HourOf(ts) ==>
                h in shards && shards[h] == old(shards)[h]
    {
      hide ShardsFit, MemoryFits, Ordered, HourOf;
      NoSweep(points);
      if |servers| == 0 {
        if loaded { MemoryLater(windows, log, clock, now); }
        HourMonotone(clock - RETENTION, now - RETENTION);
        clock := now;
        return;
      }
      EnsureLab(now);
      Rollover(ts, now);
      AppendPoints(ts, servers, points);
    }

    /**
     `Query`: from memory when the range starts inside the window, from the shards otherwise. Either way the
     answer is what a scan of the shards gives, and back to the retention limit it is every point ever logged.
     */
    method Query(server: string, start: int, end: int, now: int) returns (points: seq<Point>)
      requires Valid() && clock <= now
      modifies this
      ensures Valid() && log == old(log) && clock == now
      ensures points == ScanShards(shards, server, start, end)
      ensures start >= now - RETENTION ==> points == Points(log, server, start, end)
    {
      hide ShardsFit, Ordered, HourOf, HoursIn, Points, Scan, MemoryFits, ScanShards, FilterPoints;
      EnsureLab(now);
      if start >= now - RETENTION {
        HourMonotone(clock - RETENTION, start);
        ScanIsLog(shards, log, kept, server, start, end);
      }
      if start >= now - WINDOW {
        MemoryAnswers(windows, log, now, server, start, end);
        points := FilterWindow(WindowAt(windows, server), start, end);
        return;
      }
      points := ReadShards(server, start, end);
    }

    method ReadShards(server: string, start: int, end: int) returns (points: seq<Point>)
      ensures points == ScanShards(shards, server, start, end)
    {
      hide HourOf, HoursIn, Points, Scan;
      points := [];
      var from, n := HourOf(start), HoursIn(start, end);
      NoScan(shards, server, start, end, from);
      for i := 0 to n
        invariant points == Scan(shards, server, start, end, from, i)
      {
        var more := QueryShard(ShardAt(shards, from + i), server, start, end);
        ScanNext(shards, server, start, end, from, i);
        points := points + more;
      }
    }
  }

  function SweepRecords(servers: seq<string>, points: map<string, Point>): seq<Rec>
    requires forall i :: 0 <= i < |servers| ==> servers[i] in points
  {
    seq(|servers|, i requires 0 <= i < |servers| => Rec(servers[i], points[servers[i]]))
  }

  lemma SweepNext(servers: seq<string>, points: map<string, Point>, i: nat)
    requires i < |servers| && forall j :: 0 <= j < |servers| ==> servers[j] in points
    ensures SweepRecords(servers[..i + 1], points) == SweepRecords(servers[..i], points) + [Rec(servers[i], points[servers[i]])]
  {
  }

  lemma NoSweep(points: map<string, Point>)
    ensures SweepRecords([], points) == []
  {
  }

  lemma OrderedNext(log: seq<Rec>, r: Rec)
    requires Ordered(log) && (log != [] ==> log[|log| - 1].point.ts <= r.point.ts)
    ensures Ordered(log + [r])
  {
  }

  lemma NoRecords()
    ensures Ordered([]) && forall kept :: ShardsFit(map[], [], kept)
  {
  }

  lemma NoScan(shards: map<int, seq<Rec>>, server: string, lo: int, hi: int, from: int)
    ensures Scan(shards, server, lo, hi, from, 0) == []
  {
  }

  lemma ScanNext(shards: map<int, seq<Rec>>, server: string, lo: int, hi: int, from: int, n: nat)
    ensures Scan(shards, server, lo, hi, from, n + 1)
            == Scan(shards, server, lo, hi, from, n) + Points(ShardAt(shards, from + n), server, lo, hi)
  {
  }

  lemma {:induction false} HourRangeFrom(log: seq<Rec>, from: int, n: nat, now: int)
    requires forall i :: 0 <= i < |log| ==> log[i].point.ts <= now
    ensures forall j :: 0 <= j < |HourRange(log, from, n)| ==> HourRange(log, from, n)[j].point.ts <= now
  {
    if log != [] { HourRangeFrom(log[..|log| - 1], from, n, now); }
  }

  lemma ReplayFits(replayed: map<string, seq<Point>>, shards: map<int, seq<Rec>>, log: seq<Rec>, kept: int, cutoff: int, now: int)
    requires Ordered(log) && ShardsFit(shards, log, kept) && kept <= HourOf(cutoff) && cutoff == now - WINDOW
    requires forall i :: 0 <= i < |log| ==> log[i].point.ts <= now
    requires forall server :: WindowAt(replayed, server) == ScanShards(shards, server, cutoff, now)
    ensures MemoryFits(replayed, log, now)
  {
    hide ShardsFit, Ordered, HourOf, HoursIn, Points, Scan, FilterPoints, ScanShards;
    forall server, lo, hi | lo >= now - WINDOW
      ensures FilterPoints(WindowAt(replayed, server), lo, hi) == Points(log, server, lo, hi)
    {
      ScanIsLog(shards, log, kept, server, cutoff, now);
      Refilter(log, server, cutoff, now, lo, hi);
    }
  }

  method TrimWindow(points: seq<Point>, now: int) returns (left: seq<Point>)
    ensures left == Trimmed(points, now - WINDOW)
  {
    var cutoff := now - WINDOW;
    var i := 0;
    assert points[0..] == points;
    while i < |points| && points[i].ts < cutoff
      invariant i <= |points| && Trimmed(points[i..], cutoff) == Trimmed(points, cutoff)
    {
      assert points[i..][1..] == points[i + 1..];
      i := i + 1;
    }
    return points[i..];
  }

  method FilterWindow(points: seq<Point>, start: int, end: int) returns (out: seq<Point>)
    ensures out == FilterPoints(points, start, end)
  {
    out := [];
    for i := 0 to |points|
      invariant out == FilterPoints(points[..i], start, end)
    {
      assert points[..i + 1] == points[..i] + [points[i]];
      FilterNext(points[..i], points[i], start, end);
      if !(points[i].ts < start || points[i].ts > end) {
        out := out + [points[i]];
      }
    }
    assert points[..|points|] == points;
  }

  method QueryShard(lines: seq<Rec>, server: string, start: int, end: int) returns (points: seq<Point>)
    ensures points == Points(lines, server, start, end)
  {
    points := [];
    for i := 0 to |lines|
      invariant points == Points(lines[..i], server, start, end)
    {
      assert lines[..i + 1] == lines[..i] + [lines[i]];
      PointsNext(lines[..i], lines[i], server, start, end);
      if lines[i].server == server && !(lines[i].point.ts < start || lines[i].point.ts > end) {
        points := points + [lines[i].point];
      }
    }
    assert lines[..|lines|] == lines;
  }
}
