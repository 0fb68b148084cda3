/** Runs of `Recent` that do not return the latest line. */
module RecentLogsRuns {
  import opened Common
  import opened Ordering
  import opened LogLines
  import opened LogMerge
  import opened LogQueue
  import opened RecentLogs
  import opened RecentLogsProofs
  import opened RecentLogsEndToEnd
  import R = ReverseLogReader

  const LINE := LogLine(10, "a")

  /** One line is wanted of two containers. The first has one line. */
  function Two(second: seq<LogLine>, fails: bool): (cfg: Config)
    ensures Wellformed(cfg)
  {
    Config([[LINE], second], [false, fails], 100, 1)
  }

  /** The first reader has enqueued its line, the second none; it may have failed already. */
  function Passing(status: Status, q: Contents, c: Consumer, starved: bool): (s: State)
  {
    State([Lane(q, 1, Running, [LINE]), Lane(Contents(Nothing, []), 0, status, [])],
          false, false, Joining, c, Collecting, [], starved, true)
  }

  lemma Take(cfg: Config, run: seq<Event>, s: State, e: Event, t: State) returns (run': seq<Event>)
    requires Wellformed(cfg) && Reaches(cfg, run, s) && Step(cfg, s, e, t)
    ensures Reaches(cfg, run', t)
  {
    var trace :| IsTrace(cfg, run, trace) && trace[|run|] == s;
    run' := run + [e];
    var trace' := trace + [t];
    forall i | 0 <= i < |run'| ensures Step(cfg, trace'[i], run'[i], trace'[i + 1]) {
      if i < |run| {
        assert Step(cfg, trace[i], run[i], trace[i + 1]);
      }
    }
    assert IsTrace(cfg, run', trace') && trace'[|run'|] == t;
  }

  lemma Begin(cfg: Config)
    requires Wellformed(cfg)
    ensures Reaches(cfg, [], Init(cfg))
  {
    var trace := [Init(cfg)];
    assert IsTrace(cfg, [], trace) && trace[0] == Init(cfg);
  }

  lemma Enqueues(second: seq<LogLine>, fails: bool)
    ensures Step(Two(second, fails), Init(Two(second, fails)), Enqueue(0),
                 Passing(Running, Contents(Nothing, [LINE]), LoopHead, false))
  {
    var s := Init(Two(second, fails));
    assert s.lanes == [Lane(Contents(Nothing, []), 0, Running, []), Lane(Contents(Nothing, []), 0, Running, [])];
    assert [] + [LINE] == [LINE];
    var t := Passing(Running, Contents(Nothing, [LINE]), LoopHead, false);
    assert Do(Two(second, fails), s, Enqueue(0)).lanes == t.lanes;
  }

  lemma Fails(q: Contents, c: Consumer)
    ensures Step(Two([], true), Passing(Running, q, c, false), Finish(1), Passing(Failed, q, c, false))
  {
    var s, t := Passing(Running, q, c, false), Passing(Failed, q, c, false);
    assert Do(Two([], true), s, Finish(1)).lanes == t.lanes;
  }

  lemma PassBegins(cfg: Config, status: Status, q: Contents)
    requires Wellformed(cfg) && |cfg.scripts| == 2
    ensures Step(cfg, Passing(status, q, LoopHead, false), Consume, Passing(status, q, CheckInner, false))
    ensures Step(cfg, Passing(status, q, CheckInner, false), Consume,
                 Passing(status, q, Peeking(0, NoBest, {}, false), false))
  {
  }

  lemma PeeksFirst(cfg: Config, status: Status)
    requires Wellformed(cfg) && |cfg.scripts| == 2
    ensures Step(cfg, Passing(status, Contents(Nothing, [LINE]), Peeking(0, NoBest, {}, false), false), Consume,
                 Passing(status, Contents(Line(LINE), []), Peeking(1, Best(0, 10), {}, false), false))
  {
    var s := Passing(status, Contents(Nothing, [LINE]), Peeking(0, NoBest, {}, false), false);
    var t := Passing(status, Contents(Line(LINE), []), Peeking(1, Best(0, 10), {}, false), false);
    assert Do(cfg, s, Consume).lanes == t.lanes;
  }

  /** The second queue is empty; the pass is hungry if its reader has lines to come. */
  lemma SkipsSecond(second: seq<LogLine>, fails: bool, status: Status)
    ensures Step(Two(second, fails),
                 Passing(status, Contents(Line(LINE), []), Peeking(1, Best(0, 10), {}, false), false), Consume,
                 Passing(status, Contents(Line(LINE), []), Peeking(2, Best(0, 10), {1}, second != []), false))
  {
    var s := Passing(status, Contents(Line(LINE), []), Peeking(1, Best(0, 10), {}, false), false);
    assert Do(Two(second, fails), s, Consume).lanes == s.lanes;
    assert {} + {1} == {1};
  }

  lemma Picks(cfg: Config, status: Status, hungry: bool) returns (good: bool)
    requires Wellformed(cfg) && |cfg.scripts| == 2
    ensures Step(cfg, Passing(status, Contents(Line(LINE), []), Peeking(2, Best(0, 10), {1}, hungry), false), Consume,
                 Passing(status, Contents(Line(LINE), []), Dequeuing(0, good), hungry))
  {
    var s := Passing(status, Contents(Line(LINE), []), Peeking(2, Best(0, 10), {1}, hungry), false);
    good := GoodPick(cfg, s, 0, {1});
  }

  lemma Dequeues(cfg: Config, status: Status, good: bool, starved: bool)
    requires Wellformed(cfg) && |cfg.scripts| == 2
    ensures Step(cfg, Passing(status, Contents(Line(LINE), []), Dequeuing(0, good), starved), Consume,
                 Passing(status, Contents(Nothing, []), Sending(0, LINE, good), starved))
  {
    var s := Passing(status, Contents(Line(LINE), []), Dequeuing(0, good), starved);
    var t := Passing(status, Contents(Nothing, []), Sending(0, LINE, good), starved);
    assert Do(cfg, s, Consume).lanes == t.lanes;
  }

  lemma Delivers(second: seq<LogLine>, fails: bool, status: Status, good: bool, starved: bool) returns (t: State)
    ensures Step(Two(second, fails), Passing(status, Contents(Nothing, []), Sending(0, LINE, good), starved),
                 Deliver, t)
    ensures !t.outer && t.collector.Success? && t.starved == starved && t.output == [Tagged(0, LINE)]
    ensures |t.lanes| == 2 && t.lanes[1].status == status
  {
    t := Do(Two(second, fails), Passing(status, Contents(Nothing, []), Sending(0, LINE, good), starved), Deliver);
  }

  /** One pass that finds the second queue empty and returns the first container's line. */
  lemma OnePass(second: seq<LogLine>, fails: bool, status: Status, run: seq<Event>) returns (run': seq<Event>, t: State)
    requires Reaches(Two(second, fails), run, Passing(status, Contents(Nothing, [LINE]), LoopHead, false))
    ensures Reaches(Two(second, fails), run', t)
    ensures !t.outer && t.collector.Success? && t.starved == (second != []) && t.output == [Tagged(0, LINE)]
    ensures |t.lanes| == 2 && t.lanes[1].status == status
  {
    var cfg, q, h := Two(second, fails), Contents(Nothing, [LINE]), Contents(Line(LINE), []);
    var hungry := second != [];
    PassBegins(cfg, status, q);
    run' := Take(cfg, run, Passing(status, q, LoopHead, false), Consume, Passing(status, q, CheckInner, false));
    var peek := Passing(status, q, Peeking(0, NoBest, {}, false), false);
    run' := Take(cfg, run', Passing(status, q, CheckInner, false), Consume, peek);
    PeeksFirst(cfg, status);
    var peeked := Passing(status, h, Peeking(1, Best(0, 10), {}, false), false);
    run' := Take(cfg, run', peek, Consume, peeked);
    run', t := PassEnds(second, fails, status, run');
  }

  lemma PassEnds(second: seq<LogLine>, fails: bool, status: Status, run: seq<Event>)
    returns (run': seq<Event>, t: State)
    requires Reaches(Two(second, fails), run,
                     Passing(status, Contents(Line(LINE), []), Peeking(1, Best(0, 10), {}, false), false))
    ensures Reaches(Two(second, fails), run', t)
    ensures !t.outer && t.collector.Success? && t.starved == (second != []) && t.output == [Tagged(0, LINE)]
    ensures |t.lanes| == 2 && t.lanes[1].status == status
  {
    var cfg, h, hungry := Two(second, fails), Contents(Line(LINE), []), second != [];
    SkipsSecond(second, fails, status);
    var skipped := Passing(status, h, Peeking(2, Best(0, 10), {1}, hungry), false);
    run' := Take(cfg, run, Passing(status, h, Peeking(1, Best(0, 10), {}, false), false), Consume, skipped);
    var good := Picks(cfg, status, hungry);
    var picked := Passing(status, h, Dequeuing(0, good), hungry);
    run' := Take(cfg, run', skipped, Consume, picked);
    Dequeues(cfg, status, good, hungry);
    var sending := Passing(status, Contents(Nothing, []), Sending(0, LINE, good), hungry);
    run' := Take(cfg, run', picked, Consume, sending);
    t := Delivers(second, fails, status, good, hungry);
    run' := Take(cfg, run', sending, Deliver, t);
  }

  /** Order is not guaranteed when a line is selected in a hungry pass: here the second
      container's queue is still empty when the only pass looks at it, and its later line is not
      returned. */
  lemma StarvedRunMissesLatest() returns (cfg: Config, run: seq<Event>, s: State)
    ensures Wellformed(cfg) && Reaches(cfg, run, s) && !s.outer && s.collector.Success? && !s.faithful
    ensures Lines(s.output) == [LINE]
    ensures StableSort(Later, Flatten(cfg.scripts)) == [LogLine(20, "b"), LINE]
  {
    cfg := Two([LogLine(20, "b")], false);
    run, s := FirstEnqueuedOnly([LogLine(20, "b")], false);
    LaterSorted();
    NotFaithful(run, s);
  }

  lemma FirstEnqueuedOnly(second: seq<LogLine>, fails: bool) returns (run: seq<Event>, s: State)
    ensures Reaches(Two(second, fails), run, s) && !s.outer && s.collector.Success?
    ensures s.output == [Tagged(0, LINE)] && Lines(s.output) == [LINE]
  {
    Enqueues(second, fails);
    var first := Passing(Running, Contents(Nothing, [LINE]), LoopHead, false);
    Begin(Two(second, fails));
    run := Take(Two(second, fails), [], Init(Two(second, fails)), Enqueue(0), first);
    run, s := OnePass(second, fails, Running, run);
  }

  lemma LaterSorted()
    ensures var all := Flatten(Two([LogLine(20, "b")], false).scripts);
      |all| == 2 && StableSort(Later, all) == [LogLine(20, "b"), LINE]
  {
    var b := LogLine(20, "b");
    var scripts := Two([b], false).scripts;
    assert scripts[..1] == [[LINE]] && scripts[..1][..0] == [];
    assert Flatten([[LINE]]) == [LINE];
    assert [LINE, b][1..] == [b] && [b][1..] == [];
    assert StableSort(Later, [b]) == [b];
    assert Insert(Later, LINE, [b]) == [b] + Insert(Later, LINE, []);
  }

  lemma NotFaithful(run: seq<Event>, s: State)
    requires Reaches(Two([LogLine(20, "b")], false), run, s) && !s.outer && s.collector.Success?
    requires Lines(s.output) == [LINE]
    ensures !s.faithful
  {
    var cfg := Two([LogLine(20, "b")], false);
    LaterSorted();
    assert forall i :: 0 <= i < |cfg.scripts| ==> Descending(cfg.scripts[i]);
    if s.faithful {
      RecentIsTopOfSortedUnion(cfg, run, s);
      assert false;
    }
  }

  /** The promise since creation can fail when a reader fails: the second reader fails before
      its first window, the call returns the first container's line, and the second
      container's later line is not returned. */
  lemma FailedReaderHidesLatest()
    returns (cfg: Config, run: seq<Event>, s: State, sources: seq<Source>, floor: R.Rounding, windows: seq<nat>)
    ensures Wellformed(cfg) && Succeeds(cfg, run, s) && !s.starved && Reads(cfg, sources, floor, windows)
    ensures |s.lanes| == 2 && s.lanes[1].status.Failed?
    ensures !LatestSinceCreation(sources, s.output)
  {
    cfg := Two([], true);
    Enqueues([], true);
    Fails(Contents(Nothing, [LINE]), LoopHead);
    var first := Passing(Running, Contents(Nothing, [LINE]), LoopHead, false);
    Begin(cfg);
    run := Take(cfg, [], Init(cfg), Enqueue(0), first);
    run := Take(cfg, run, first, Finish(1), Passing(Failed, Contents(Nothing, [LINE]), LoopHead, false));
    run, s := OnePass([], true, Failed, run);
    NoStarvationKeepsOrder(cfg, run, s);
    sources, floor, windows := FailedSources();
    var x := LogLine(20, "b");
    assert MissingLine(sources[1], s.output, 1, x) by {
      assert s.output[..0] == [] && Taken(s.output, 1) == [];
    }
    assert MissingSinceCreation(sources[1], s.output, 1, x);
    assert !NotLater(s.output, x) by {
      assert s.output[0].line == LINE;
    }
  }

  lemma FailedSources() returns (sources: seq<Source>, floor: R.Rounding, windows: seq<nat>)
    ensures Reads(Two([], true), sources, floor, windows)
    ensures sources == [Source([LINE], 0, 30), Source([LogLine(20, "b")], 0, 30)]
  {
    floor := (t: int) => t;
    windows := [1, 0];
    sources := [Source([LINE], 0, 30), Source([LogLine(20, "b")], 0, 30)];
    assert R.WindowCount(30, 0) == 1 + R.WindowCount(30 - R.STEP, 0) == 1;
    assert [LINE][1..] == [] && [LogLine(20, "b")][1..] == [];
    assert InWindow([LINE], 30 - R.STEP, 30) == [LINE];
    assert InWindow([LogLine(20, "b")], 30, 30) == [];
    assert ReadsOne(sources[0], floor, 1, [LINE], false);
    assert ReadsOne(sources[1], floor, 0, [], true);
  }
}
