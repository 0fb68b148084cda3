/** What every run of `Recent` keeps, and what follows when it returns. */
module RecentLogsProofs {
  import opened Common
  import opened Ordering
  import opened LogLines
  import opened LogMerge
  import opened LogQueue
  import opened RecentLogs

  /** The caller's context is not done and `Recent` has not returned. */
  predicate Live(s: State) { !s.outer && s.collector.Collecting? }

  /** The line that the consumer has taken out of a queue and not passed on. */
  function Held(c: Consumer, i: nat): (r: seq<LogLine>)
  {
    if (c.Sending? || c.Abandoned?) && c.lane == i then [c.line] else []
  }

  ghost predicate LaneOk(cfg: Config, s: State, i: nat)
    requires Wellformed(cfg) && |s.lanes| == |cfg.scripts| && i < |s.lanes|
  {
    var l := s.lanes[i];
    && l.pos <= |cfg.scripts[i]|
    && |l.queue.buffered| <= cfg.capacity
    && (l.status.Ended? ==> l.pos == |cfg.scripts[i]| && !cfg.fails[i])
    && Taken(s.output, i) + Held(s.consumer, i) + l.queue.All() == l.enqueued
    && (Live(s) ==> l.enqueued == cfg.scripts[i][..l.pos])
  }

  ghost predicate LanesOk(cfg: Config, s: State)
    requires Wellformed(cfg)
  {
    |s.lanes| == |cfg.scripts| && forall i :: 0 <= i < |s.lanes| ==> LaneOk(cfg, s, i)
  }

  ghost predicate StarterOk(s: State)
  {
    && (!s.starter.Joining? ==> AllStopped(s))
    && (Live(s) && s.inner ==> s.starter.Exited?)
    && (Live(s) && s.starter.Exited? ==> AllEnded(s))
  }

  /** The current pass of the consumer: the best lane so far is not beaten by any lane
      already looked at and not skipped. */
  ghost predicate PassOk(cfg: Config, s: State, k: nat, best: Best, skipped: set<nat>, hungry: bool)
    requires |s.lanes| == |cfg.scripts|
  {
    && k <= |s.lanes|
    && (forall j :: j in skipped ==> j < k)
    && (best.Best? ==>
          && best.lane < k && best.lane !in skipped
          && s.lanes[best.lane].queue.head.Line?
          && s.lanes[best.lane].queue.head.line.timestamp == best.latest)
    && (forall j :: 0 <= j < k && j !in skipped ==>
          && s.lanes[j].queue.head.Line? && best.Best?
          && !Beats(j, s.lanes[j].queue.head.line, best.lane, s.lanes[best.lane].queue.head.line))
    && (Live(s) && !hungry ==> forall j :: j in skipped ==> Taken(s.output, j) == cfg.scripts[j])
  }

  /** A pick is recorded as good exactly when it is the latest line still to come. */
  ghost predicate PickOk(cfg: Config, s: State, i: nat, good: bool)
  {
    Live(s) ==> (good <==> IsLatest(Rests(cfg.scripts, s.output), i)) && (!s.starved ==> good)
  }

  predicate QueuesEmpty(s: State, k: nat)
  {
    forall j :: 0 <= j < k && j < |s.lanes| ==> s.lanes[j].queue.IsEmpty()
  }

  ghost predicate ConsumerOk(cfg: Config, s: State)
    requires Wellformed(cfg) && |s.lanes| == |cfg.scripts|
  {
    match s.consumer
    case CheckEmpty(k) => s.inner && k <= |s.lanes| && (Live(s) ==> QueuesEmpty(s, k))
    case Peeking(k, best, skipped, hungry) => PassOk(cfg, s, k, best, skipped, hungry)
    case Dequeuing(i, good) => i < |s.lanes| && s.lanes[i].queue.head.Line? && PickOk(cfg, s, i, good)
    case Sending(i, line, good) => i < |s.lanes| && PickOk(cfg, s, i, good)
    case Closed => Live(s) ==> AllEnded(s) && QueuesEmpty(s, |s.lanes|)
    case Abandoned(i, line) => s.outer
    case _ => true
  }

  ghost predicate CollectorOk(cfg: Config, s: State)
    requires Wellformed(cfg) && |s.lanes| == |cfg.scripts|
  {
    && (s.collector.Collecting? ==> |s.output| < Enough(cfg))
    && (s.collector == Success(false) ==> |s.output| == Enough(cfg))
    && |s.output| <= Enough(cfg)
    && (s.collector == Success(true) && !s.outer ==>
          && AllEnded(s)
          && forall i :: 0 <= i < |s.lanes| ==> Taken(s.output, i) == cfg.scripts[i] == s.lanes[i].enqueued)
  }

  ghost predicate OrderOk(cfg: Config, s: State)
  {
    !s.outer ==> (s.faithful <==> s.output <= Merge(cfg.scripts)) && (!s.starved ==> s.faithful)
  }

  ghost predicate Inv(cfg: Config, s: State)
    requires Wellformed(cfg)
  {
    LanesOk(cfg, s) && StarterOk(s) && ConsumerOk(cfg, s) && CollectorOk(cfg, s) && OrderOk(cfg, s)
  }

  lemma InitKeeps(cfg: Config)
    requires Wellformed(cfg)
    ensures Inv(cfg, Init(cfg))
  {
  }

  /** A lane's remaining lines are what its queue holds and what its reader has not
      enqueued yet. */
  lemma RestOfLane(cfg: Config, s: State, i: nat)
    requires Wellformed(cfg) && LanesOk(cfg, s) && i < |s.lanes| && LaneOk(cfg, s, i) && Live(s)
    ensures Rests(cfg.scripts, s.output)[i] ==
            Held(s.consumer, i) + s.lanes[i].queue.All() + cfg.scripts[i][s.lanes[i].pos..]
  {
    var l, script := s.lanes[i], cfg.scripts[i];
    assert script == l.enqueued + script[l.pos..];
  }

  lemma SameLanes(cfg: Config, s: State, r: State)
    requires Wellformed(cfg) && LanesOk(cfg, s)
    requires r.lanes == s.lanes && r.output == s.output && (Live(r) ==> Live(s))
    requires forall i :: 0 <= i < |s.lanes| ==> Held(r.consumer, i) == Held(s.consumer, i)
    ensures LanesOk(cfg, r)
  {
    forall j | 0 <= j < |r.lanes| ensures LaneOk(cfg, r, j) {
      assert LaneOk(cfg, s, j);
    }
  }

  /** The parts of the invariant that do not look at the queues. */
  lemma SameStatus(cfg: Config, s: State, r: State)
    requires Wellformed(cfg) && Inv(cfg, s) && |r.lanes| == |s.lanes|
    requires r == s.(lanes := r.lanes, consumer := r.consumer, starved := r.starved)
    requires s.starved ==> r.starved
    requires forall i :: 0 <= i < |s.lanes| ==>
               r.lanes[i].status == s.lanes[i].status && r.lanes[i].enqueued == s.lanes[i].enqueued
    ensures StarterOk(r) && CollectorOk(cfg, r) && OrderOk(cfg, r)
  {
  }

  /** As long as one reader runs, nobody else has come to the end. */
  lemma RunningMeans(cfg: Config, s: State, i: nat)
    requires Wellformed(cfg) && Inv(cfg, s) && i < |s.lanes| && s.lanes[i].status.Running?
    ensures s.starter.Joining? && !(Live(s) && s.inner)
    ensures Live(s) ==> !s.consumer.Closed? && !s.consumer.CheckEmpty?
    ensures !(s.collector == Success(true) && !s.outer)
  {
  }

  /** A reader's step changes its own lane and leaves the peek slot alone. */
  ghost predicate ReaderStep(s: State, r: State, i: nat)
  {
    && i < |s.lanes| && s.lanes[i].status.Running?
    && |r.lanes| == |s.lanes| && r == s.(lanes := r.lanes)
    && (forall j :: 0 <= j < |s.lanes| && j != i ==> r.lanes[j] == s.lanes[j])
    && r.lanes[i].queue.head == s.lanes[i].queue.head
  }

  lemma ReaderKeepsRest(cfg: Config, s: State, r: State, i: nat)
    requires Wellformed(cfg) && Inv(cfg, s) && ReaderStep(s, r, i)
    ensures StarterOk(r) && CollectorOk(cfg, r) && OrderOk(cfg, r)
  {
    RunningMeans(cfg, s, i);
  }

  lemma ReaderKeepsConsumer(cfg: Config, s: State, r: State, i: nat)
    requires Wellformed(cfg) && Inv(cfg, s) && ReaderStep(s, r, i)
    ensures ConsumerOk(cfg, r)
  {
    RunningMeans(cfg, s, i);
    forall j | 0 <= j < |s.lanes| ensures r.lanes[j].queue.head == s.lanes[j].queue.head {
    }
    if s.consumer.Peeking? {
      assert PassOk(cfg, r, s.consumer.k, s.consumer.best, s.consumer.skipped, s.consumer.hungry);
    }
  }

  lemma ReaderKeepsLanes(cfg: Config, s: State, r: State, i: nat)
    requires Wellformed(cfg) && LanesOk(cfg, s) && ReaderStep(s, r, i) && LaneOk(cfg, r, i)
    ensures LanesOk(cfg, r)
  {
    forall j | 0 <= j < |r.lanes| ensures LaneOk(cfg, r, j) {
      assert LaneOk(cfg, s, j);
    }
  }

  lemma EnqueueLane(cfg: Config, s: State, i: nat)
    requires Wellformed(cfg) && LanesOk(cfg, s) && Enabled(cfg, s, Enqueue(i))
    ensures LaneOk(cfg, Do(cfg, s, Enqueue(i)), i)
  {
    assert LaneOk(cfg, s, i);
    var script, l := cfg.scripts[i], s.lanes[i];
    assert script[..l.pos] + [script[l.pos]] == script[..l.pos + 1];
    var taken := Taken(s.output, i) + Held(s.consumer, i);
    assert taken + (l.queue.All() + [script[l.pos]]) == l.enqueued + [script[l.pos]];
  }

  lemma ProducerKeeps(cfg: Config, s: State, e: Event)
    requires Wellformed(cfg) && Inv(cfg, s) && (e.Enqueue? || e.Drop? || e.Finish?) && Enabled(cfg, s, e)
    ensures Inv(cfg, Do(cfg, s, e))
  {
    var r := Do(cfg, s, e);
    assert LaneOk(cfg, s, e.i);
    RunningMeans(cfg, s, e.i);
    if e.Enqueue? {
      EnqueueLane(cfg, s, e.i);
    }
    assert ReaderStep(s, r, e.i);
    ReaderKeepsLanes(cfg, s, r, e.i);
    ReaderKeepsConsumer(cfg, s, r, e.i);
    ReaderKeepsRest(cfg, s, r, e.i);
  }

  lemma StarterKeeps(cfg: Config, s: State, e: Event)
    requires Wellformed(cfg) && Inv(cfg, s) && (e.Join? || e.Report? || e.GiveUp? || e.CancelOuter? || e.CancelInner?)
    requires Enabled(cfg, s, e)
    ensures Inv(cfg, Do(cfg, s, e))
  {
    var r := Do(cfg, s, e);
    SameLanes(cfg, s, r);
    assert StarterOk(r);
    LessLive(cfg, s, r);
  }

  /** Being no longer live only weakens what is claimed. */
  lemma LessLive(cfg: Config, s: State, r: State)
    requires Wellformed(cfg) && Inv(cfg, s)
    requires r == s.(inner := r.inner, outer := r.outer, starter := r.starter, collector := r.collector)
    requires (s.inner ==> r.inner) && (s.outer ==> r.outer) && (Live(r) ==> Live(s))
    requires r.collector == s.collector || r.collector.Failure?
    ensures ConsumerOk(cfg, r) && CollectorOk(cfg, r) && OrderOk(cfg, r)
  {
  }

  lemma QuitKeeps(cfg: Config, s: State)
    requires Wellformed(cfg) && Inv(cfg, s) && Enabled(cfg, s, Quit)
    ensures Inv(cfg, Do(cfg, s, Quit))
  {
    var r := Do(cfg, s, Quit);
    forall j | 0 <= j < |r.lanes| ensures LaneOk(cfg, r, j) {
      assert LaneOk(cfg, s, j);
    }
  }

  lemma DrainKeeps(cfg: Config, s: State)
    requires Wellformed(cfg) && Inv(cfg, s) && Enabled(cfg, s, Drain)
    ensures Inv(cfg, Do(cfg, s, Drain))
  {
    var r := Do(cfg, s, Drain);
    forall j | 0 <= j < |r.lanes| ensures LaneOk(cfg, r, j)
      ensures !s.outer ==> Taken(s.output, j) == cfg.scripts[j] == s.lanes[j].enqueued
    {
      assert LaneOk(cfg, s, j);
    }
  }

  lemma DeliverLane(cfg: Config, s: State, r: State, j: nat)
    requires Wellformed(cfg) && |s.lanes| == |cfg.scripts| && j < |s.lanes| && LaneOk(cfg, s, j)
    requires s.consumer.Sending? && r.consumer == LoopHead && r.lanes == s.lanes && (Live(r) ==> Live(s))
    requires r.output == s.output + [Tagged(s.consumer.lane, s.consumer.line)]
    ensures LaneOk(cfg, r, j)
  {
    TakenAppend(s.output, Tagged(s.consumer.lane, s.consumer.line), j);
    assert Taken(r.output, j) == Taken(s.output, j) + Held(s.consumer, j);
    assert Taken(r.output, j) + [] == Taken(r.output, j);
  }

  lemma DeliverLanes(cfg: Config, s: State)
    requires Wellformed(cfg) && LanesOk(cfg, s) && Enabled(cfg, s, Deliver)
    ensures LanesOk(cfg, Do(cfg, s, Deliver))
  {
    var r := Do(cfg, s, Deliver);
    forall j | 0 <= j < |r.lanes| ensures LaneOk(cfg, r, j) {
      DeliverLane(cfg, s, r, j);
    }
  }

  lemma DeliverOrder(cfg: Config, s: State)
    requires Wellformed(cfg) && LanesOk(cfg, s) && ConsumerOk(cfg, s) && OrderOk(cfg, s)
    requires Live(s) && Enabled(cfg, s, Deliver)
    ensures OrderOk(cfg, Do(cfg, s, Deliver))
  {
    var i := s.consumer.lane;
    assert LaneOk(cfg, s, i);
    RestOfLane(cfg, s, i);
    assert Rests(cfg.scripts, s.output)[i][0] == s.consumer.line;
    MergeExtends(cfg.scripts, s.output, i);
  }

  lemma DeliverKeeps(cfg: Config, s: State)
    requires Wellformed(cfg) && Inv(cfg, s) && Enabled(cfg, s, Deliver)
    ensures Inv(cfg, Do(cfg, s, Deliver))
  {
    var r := Do(cfg, s, Deliver);
    DeliverLanes(cfg, s);
    assert CollectorOk(cfg, r);
    if Live(s) {
      DeliverOrder(cfg, s);
    }
  }

  /** Steps of the consumer that do not touch a queue. */
  lemma ControlKeeps(cfg: Config, s: State)
    requires Wellformed(cfg) && Inv(cfg, s) && Enabled(cfg, s, Consume)
    requires s.consumer.LoopHead? || s.consumer.CheckInner? || s.consumer.CheckEmpty? || s.consumer.Sleeping?
    ensures Inv(cfg, Do(cfg, s, Consume))
  {
    var r := ConsumeStep(cfg, s);
    assert r == s.(consumer := r.consumer);
    SameLanes(cfg, s, r);
    SameStatus(cfg, s, r);
    ControlConsumer(cfg, s);
  }

  lemma ControlConsumer(cfg: Config, s: State)
    requires Wellformed(cfg) && |s.lanes| == |cfg.scripts| && StarterOk(s) && ConsumerOk(cfg, s) && CanConsume(s)
    requires s.consumer.LoopHead? || s.consumer.CheckInner? || s.consumer.CheckEmpty? || s.consumer.Sleeping?
    ensures ConsumerOk(cfg, ConsumeStep(cfg, s))
  {
  }

  lemma PeekLanes(cfg: Config, s: State, r: State)
    requires Wellformed(cfg) && LanesOk(cfg, s)
    requires s.consumer.Peeking? && s.consumer.k < |s.lanes| && r == PeekNext(cfg, s)
    ensures LanesOk(cfg, r)
  {
    var k := s.consumer.k;
    assert r.lanes == s.lanes[k := s.lanes[k].(queue := s.lanes[k].queue.Peeked())];
    assert r.output == s.output && r.consumer.Peeking? && Live(r) == Live(s);
    forall j | 0 <= j < |r.lanes| ensures LaneOk(cfg, r, j) {
      assert LaneOk(cfg, s, j);
    }
  }

  lemma PeekEmpty(cfg: Config, s: State, r: State)
    requires Wellformed(cfg) && |s.lanes| == |cfg.scripts| && s.consumer.Peeking? && s.consumer.k < |s.lanes|
    requires LaneOk(cfg, s, s.consumer.k)
    requires PassOk(cfg, s, s.consumer.k, s.consumer.best, s.consumer.skipped, s.consumer.hungry)
    requires s.lanes[s.consumer.k].queue.Front().Nothing? && r == PeekNext(cfg, s)
    ensures PassOk(cfg, r, r.consumer.k, r.consumer.best, r.consumer.skipped, r.consumer.hungry)
  {
    var k := s.consumer.k;
    var l := s.lanes[k];
    assert r.lanes == s.lanes;
    if Live(s) && !r.consumer.hungry {
      assert l.pos == |cfg.scripts[k]| && l.queue.All() == [];
      assert Taken(s.output, k) == cfg.scripts[k];
    }
  }

  lemma PeekLine(cfg: Config, s: State, r: State)
    requires Wellformed(cfg) && |s.lanes| == |cfg.scripts| && s.consumer.Peeking? && s.consumer.k < |s.lanes|
    requires PassOk(cfg, s, s.consumer.k, s.consumer.best, s.consumer.skipped, s.consumer.hungry)
    requires s.lanes[s.consumer.k].queue.Front().Line? && r == PeekNext(cfg, s)
    ensures PassOk(cfg, r, r.consumer.k, r.consumer.best, r.consumer.skipped, r.consumer.hungry)
  {
    var Peeking(k, best, skipped, hungry) := s.consumer;
    var best' := r.consumer.best;
    assert r.consumer == Peeking(k + 1, best', skipped, hungry) && best'.Best?;
    assert r.lanes[k].queue.head == s.lanes[k].queue.Front();
    forall j | 0 <= j < k + 1 && j !in skipped
      ensures r.lanes[j].queue.head.Line?
      ensures !Beats(j, r.lanes[j].queue.head.line, best'.lane, r.lanes[best'.lane].queue.head.line)
    {
      assert j < k ==> r.lanes[j] == s.lanes[j];
    }
  }

  lemma PeekPass(cfg: Config, s: State, r: State)
    requires Wellformed(cfg) && LanesOk(cfg, s) && s.consumer.Peeking? && s.consumer.k < |s.lanes|
    requires PassOk(cfg, s, s.consumer.k, s.consumer.best, s.consumer.skipped, s.consumer.hungry)
    requires r == PeekNext(cfg, s)
    ensures PassOk(cfg, r, r.consumer.k, r.consumer.best, r.consumer.skipped, r.consumer.hungry)
  {
    if s.lanes[s.consumer.k].queue.Front().Nothing? {
      assert LaneOk(cfg, s, s.consumer.k);
      PeekEmpty(cfg, s, r);
    } else {
      PeekLine(cfg, s, r);
    }
  }

  lemma PeekKeeps(cfg: Config, s: State)
    requires Wellformed(cfg) && Inv(cfg, s) && Enabled(cfg, s, Consume)
    requires s.consumer.Peeking? && s.consumer.k < |s.lanes|
    ensures Inv(cfg, Do(cfg, s, Consume))
  {
    var r := PeekNext(cfg, s);
    PeekLanes(cfg, s, r);
    PeekPass(cfg, s, r);
    PeekStatus(cfg, s, r);
    assert r == Do(cfg, s, Consume);
  }

  lemma PeekStatus(cfg: Config, s: State, r: State)
    requires Wellformed(cfg) && Inv(cfg, s)
    requires s.consumer.Peeking? && s.consumer.k < |s.lanes| && r == PeekNext(cfg, s)
    ensures StarterOk(r) && CollectorOk(cfg, r) && OrderOk(cfg, r)
  {
    SameStatus(cfg, s, r);
  }

  lemma PickKeeps(cfg: Config, s: State)
    requires Wellformed(cfg) && Inv(cfg, s) && Enabled(cfg, s, Consume)
    requires s.consumer.Peeking? && s.consumer.k == |s.lanes|
    ensures Inv(cfg, Do(cfg, s, Consume))
  {
    var r := ConsumeStep(cfg, s);
    assert r == s.(consumer := r.consumer, starved := r.starved);
    SameLanes(cfg, s, r);
    SameStatus(cfg, s, r);
    PickConsumer(cfg, s);
  }

  lemma PickConsumer(cfg: Config, s: State)
    requires Wellformed(cfg) && LanesOk(cfg, s) && ConsumerOk(cfg, s) && CanConsume(s)
    requires s.consumer.Peeking? && s.consumer.k == |s.lanes|
    ensures ConsumerOk(cfg, ConsumeStep(cfg, s))
  {
    var best, skipped, hungry := s.consumer.best, s.consumer.skipped, s.consumer.hungry;
    if best.Best? {
      var good := GoodPick(cfg, s, best.lane, skipped);
      var r := s.(consumer := Dequeuing(best.lane, good), starved := s.starved || hungry);
      assert r == ConsumeStep(cfg, s);
      if Live(s) {
        PickIsExact(cfg, s, best, skipped, hungry);
        assert PickOk(cfg, r, best.lane, good);
      }
    }
  }

  lemma PickIsExact(cfg: Config, s: State, best: Best, skipped: set<nat>, hungry: bool)
    requires Wellformed(cfg) && LanesOk(cfg, s) && Live(s) && s.consumer.Peeking?
    requires best.Best? && PassOk(cfg, s, |s.lanes|, best, skipped, hungry)
    ensures GoodPick(cfg, s, best.lane, skipped) <==> IsLatest(Rests(cfg.scripts, s.output), best.lane)
    ensures !hungry ==> GoodPick(cfg, s, best.lane, skipped)
  {
    var rests, i := Rests(cfg.scripts, s.output), best.lane;
    RestOfLane(cfg, s, i);
    assert rests[i][0] == s.lanes[i].queue.head.line;
    forall j | 0 <= j < |rests| && j !in skipped
      ensures rests[j] != [] && !Beats(j, rests[j][0], i, rests[i][0])
    {
      RestOfLane(cfg, s, j);
    }
    if !hungry {
      forall j | j in skipped && j < |rests| ensures rests[j] == [] {
        assert Taken(s.output, j) == cfg.scripts[j];
      }
    }
  }

  lemma DequeueLane(cfg: Config, s: State, r: State, i: nat, line: LogLine, j: nat)
    requires Wellformed(cfg) && |s.lanes| == |cfg.scripts| && i < |s.lanes| && j < |s.lanes| && LaneOk(cfg, s, j)
    requires s.consumer.Dequeuing? && s.lanes[i].queue.head == Line(line)
    requires r.consumer.Sending? && r.consumer.lane == i && r.consumer.line == line
    requires r.lanes == s.lanes[i := s.lanes[i].(queue := Contents(Nothing, s.lanes[i].queue.buffered))]
    requires r.output == s.output && Live(r) == Live(s)
    ensures LaneOk(cfg, r, j)
  {
    var taken := Taken(s.output, j);
    if j == i {
      var rest := s.lanes[i].queue.buffered;
      assert taken + [] + ([line] + rest) == taken + [line] + rest;
    }
  }

  lemma DequeueLanes(cfg: Config, s: State)
    requires Wellformed(cfg) && LanesOk(cfg, s) && ConsumerOk(cfg, s)
    requires Enabled(cfg, s, Consume) && s.consumer.Dequeuing?
    ensures LanesOk(cfg, Do(cfg, s, Consume))
  {
    var r, i := Do(cfg, s, Consume), s.consumer.lane;
    forall j | 0 <= j < |r.lanes| ensures LaneOk(cfg, r, j) {
      assert LaneOk(cfg, s, j);
      DequeueLane(cfg, s, r, i, s.lanes[i].queue.head.line, j);
    }
  }

  lemma DequeueKeeps(cfg: Config, s: State)
    requires Wellformed(cfg) && Inv(cfg, s) && Enabled(cfg, s, Consume) && s.consumer.Dequeuing?
    ensures Inv(cfg, Do(cfg, s, Consume))
    ensures Do(cfg, s, Consume).consumer.Sending?
  {
    DequeueLanes(cfg, s);
    SameStatus(cfg, s, Do(cfg, s, Consume));
  }

  lemma StepKeeps(cfg: Config, s: State, e: Event)
    requires Wellformed(cfg) && Inv(cfg, s) && Enabled(cfg, s, e)
    ensures Inv(cfg, Do(cfg, s, e))
  {
    match e
    case Enqueue(_) => ProducerKeeps(cfg, s, e);
    case Drop(_) => ProducerKeeps(cfg, s, e);
    case Finish(_) => ProducerKeeps(cfg, s, e);
    case Quit => QuitKeeps(cfg, s);
    case Drain => DrainKeeps(cfg, s);
    case Deliver => DeliverKeeps(cfg, s);
    case Consume =>
      if s.consumer.Dequeuing? {
        DequeueKeeps(cfg, s);
      } else if s.consumer.Peeking? {
        if s.consumer.k < |s.lanes| { PeekKeeps(cfg, s); } else { PickKeeps(cfg, s); }
      } else {
        ControlKeeps(cfg, s);
      }
    case _ => StarterKeeps(cfg, s, e);
  }

  lemma {:induction false} TraceKeeps(cfg: Config, run: seq<Event>, trace: seq<State>, i: nat)
    requires Wellformed(cfg) && IsTrace(cfg, run, trace) && i <= |run|
    ensures Inv(cfg, trace[i])
  {
    if i == 0 {
      InitKeeps(cfg);
    } else {
      TraceKeeps(cfg, run, trace, i - 1);
      assert Step(cfg, trace[i - 1], run[i - 1], trace[i]);
      StepKeeps(cfg, trace[i - 1], run[i - 1]);
    }
  }

  lemma RunKeeps(cfg: Config, run: seq<Event>, s: State)
    requires Wellformed(cfg) && Reaches(cfg, run, s)
    ensures Inv(cfg, s)
  {
    var trace :| IsTrace(cfg, run, trace) && trace[|run|] == s;
    TraceKeeps(cfg, run, trace, |run|);
  }

  // What a caller can rely on.

  /** In every interleaving, whatever the caller does with its context: the output taken
      from one container is a prefix of what that container's reader enqueued, and never
      more lines are returned than asked for (at least one). */
  lemma OutputIsFaithfulPerContainer(cfg: Config, run: seq<Event>, s: State, i: nat)
    requires Wellformed(cfg) && Reaches(cfg, run, s) && i < |cfg.scripts|
    ensures i < |s.lanes| && Taken(s.output, i) <= s.lanes[i].enqueued
    ensures |s.output| <= if cfg.numLines < 1 then 1 else cfg.numLines
  {
    RunKeeps(cfg, run, s);
    assert LaneOk(cfg, s, i);
    SplitPrefix(Taken(s.output, i), Held(s.consumer, i), s.lanes[i].queue.All());
  }

  lemma SplitPrefix<T>(a: seq<T>, b: seq<T>, c: seq<T>)
    ensures a <= a + b + c
  {
  }

  /** The branch for a nil Dequeue after a Peek is dead: such a step always has a line. */
  lemma DequeueNeverNil(cfg: Config, run: seq<Event>, s: State)
    requires Wellformed(cfg) && Reaches(cfg, run, s) && s.consumer.Dequeuing?
    ensures s.consumer.lane < |s.lanes| && s.lanes[s.consumer.lane].queue.Front().Line?
  {
    RunKeeps(cfg, run, s);
  }

  /** When the caller's context stayed live and `Recent` returns successfully with fewer
      lines than asked for, no reader failed and nothing any reader had is missing. */
  lemma ShortSuccessIsComplete(cfg: Config, run: seq<Event>, s: State, i: nat)
    requires Wellformed(cfg) && Reaches(cfg, run, s) && i < |cfg.scripts|
    requires !s.outer && s.collector.Success? && |s.output| < Enough(cfg)
    ensures !cfg.fails[i]
    ensures i < |s.lanes| && Taken(s.output, i) == cfg.scripts[i] == s.lanes[i].enqueued
  {
    RunKeeps(cfg, run, s);
    assert LaneOk(cfg, s, i);
    assert s.lanes[i].status.Ended?;
  }

  /** While the caller's context is live, the output is the beginning of the latest-first
      merge of all containers exactly when no line was ever passed on although a container
      found empty in that pass still had a line that beats it. */
  lemma OrderExactlyWhenFaithful(cfg: Config, run: seq<Event>, s: State)
    requires Wellformed(cfg) && Reaches(cfg, run, s) && !s.outer
    ensures s.faithful <==> s.output <= Merge(cfg.scripts)
  {
    RunKeeps(cfg, run, s);
  }

  /** If no line was selected in a pass that found an empty queue whose reader still has lines
      to enqueue, the output is the beginning of the merge. Passes that select nothing, such
      as those before the first line arrives, do not matter. */
  lemma NoStarvationKeepsOrder(cfg: Config, run: seq<Event>, s: State)
    requires Wellformed(cfg) && Reaches(cfg, run, s) && !s.outer && !s.starved
    ensures s.faithful && s.output <= Merge(cfg.scripts)
  {
    RunKeeps(cfg, run, s);
  }

  function Min(a: nat, b: nat): nat { if a < b then a else b }

  lemma SuccessTakesEnough(cfg: Config, s: State)
    requires Wellformed(cfg) && LanesOk(cfg, s) && CollectorOk(cfg, s) && OrderOk(cfg, s)
    requires !s.outer && s.faithful && s.collector.Success?
    ensures s.output == Merge(cfg.scripts)[..Min(Enough(cfg), |Merge(cfg.scripts)|)]
  {
    if s.collector.drained {
      MergeSplit(cfg.scripts, s.output);
      var rests := Rests(cfg.scripts, s.output);
      forall i | 0 <= i < |rests| ensures rests[i] == [] {
        assert Taken(s.output, i) == cfg.scripts[i];
      }
      assert NothingLeft(rests) && Merge(rests) == [];
    }
  }

  /** Refinement: with readers that enqueue latest first, a successful call with good picks
      returns "concatenate all containers, sort by time descending, take N". */
  lemma RecentIsTopOfSortedUnion(cfg: Config, run: seq<Event>, s: State)
    requires Wellformed(cfg) && Reaches(cfg, run, s)
    requires !s.outer && s.faithful && s.collector.Success?
    requires forall i :: 0 <= i < |cfg.scripts| ==> Descending(cfg.scripts[i])
    ensures Lines(s.output) == StableSort(Later, Flatten(cfg.scripts))[..Min(Enough(cfg), Total(cfg.scripts))]
    ensures Descending(Lines(s.output))
  {
    RunKeeps(cfg, run, s);
    SuccessTakesEnough(cfg, s);
    MergedPrefix(cfg.scripts, s.output, Enough(cfg));
  }

  lemma MergedPrefix(lanes: seq<seq<LogLine>>, out: seq<Tagged>, n: nat)
    requires forall i :: 0 <= i < |lanes| ==> Descending(lanes[i])
    requires out == Merge(lanes)[..Min(n, |Merge(lanes)|)]
    ensures Lines(out) == StableSort(Later, Flatten(lanes))[..Min(n, Total(lanes))]
    ensures Descending(Lines(out))
  {
    MergeIsSort(lanes);
    var m, k := Merge(lanes), Min(n, Total(lanes));
    assert |m| == |Lines(m)| == Total(lanes);
    assert Lines(m[..k]) == Lines(m)[..k];
    SortedPrefixDescends(Flatten(lanes), k);
  }

  lemma SortedPrefixDescends(all: seq<LogLine>, n: nat)
    requires n <= |all|
    ensures Descending(StableSort(Later, all)[..n])
  {
    TimeOrders();
    StableSortSorted(Later, all);
    var s := StableSort(Later, all);
    forall i, j | 0 <= i < j < n ensures s[j].timestamp <= s[i].timestamp {
      assert !Later(s[j], s[i]);
    }
  }
}
