/** How a call of `Recent` ends: when it may fail, that it can always still return, and how soon
    it stops once the caller gives up. */
module RecentLogsOutcomes {
  import opened LogLines
  import opened LogMerge
  import opened LogQueue
  import opened RecentLogs
  import opened RecentLogsProofs

  // When it may fail.

  ghost predicate SomeFails(cfg: Config)
  {
    exists i :: 0 <= i < |cfg.fails| && cfg.fails[i]
  }

  /** As long as the context is live, a reader fails only on its own account, and only such a
      failure is reported. */
  ghost predicate FailOk(cfg: Config, s: State)
    requires Wellformed(cfg) && |s.lanes| == |cfg.scripts|
  {
    && (Live(s) ==> forall i :: 0 <= i < |s.lanes| && s.lanes[i].status.Failed? ==> cfg.fails[i])
    && (Live(s) && s.starter.Reporting? ==> SomeFails(cfg))
    && (s.collector.Failure? ==> s.starter.Exited?)
    && (!s.outer && s.collector.Failure? ==> SomeFails(cfg))
    && (Live(s) && s.starter.Exited? ==> s.inner)
    && (!s.collector.Collecting? ==> s.inner)
  }

  lemma FailKeeps(cfg: Config, s: State, e: Event)
    requires Wellformed(cfg) && Inv(cfg, s) && FailOk(cfg, s) && Enabled(cfg, s, e)
    ensures FailOk(cfg, Do(cfg, s, e))
  {
    match e
    case Finish(i) => RunningMeans(cfg, s, i);
    case Join =>
      if Live(s) && !AllEnded(s) {
        var i :| 0 <= i < |s.lanes| && !s.lanes[i].status.Ended?;
        assert s.lanes[i].status.Failed?;
      }
    case Consume => ConsumeKeepsReaders(cfg, s);
    case _ =>
  }

  /** Nothing but the consumer and the queues differs. */
  ghost predicate ReadersSame(s: State, r: State)
  {
    && r == s.(lanes := r.lanes, consumer := r.consumer, starved := r.starved) && |r.lanes| == |s.lanes|
    && forall i :: 0 <= i < |s.lanes| ==> r.lanes[i] == s.lanes[i].(queue := r.lanes[i].queue)
  }

  lemma QueueChanged(s: State, r: State, i: nat, q: Contents)
    requires i < |s.lanes| && r == s.(lanes := s.lanes[i := s.lanes[i].(queue := q)], consumer := r.consumer)
    ensures ReadersSame(s, r)
  {
  }

  /** A step of the consumer concerns the queues only. */
  lemma ConsumeKeepsReaders(cfg: Config, s: State)
    requires |s.lanes| == |cfg.scripts| && CanConsume(s)
    ensures ReadersSame(s, ConsumeStep(cfg, s))
  {
    if s.consumer.Peeking? && s.consumer.k < |s.lanes| {
      PeekKeepsReaders(cfg, s);
    } else if s.consumer.Dequeuing? {
      DequeueKeepsReaders(cfg, s);
    } else {
      ControlKeepsReaders(cfg, s);
    }
  }

  lemma PeekKeepsReaders(cfg: Config, s: State)
    requires |s.lanes| == |cfg.scripts| && s.consumer.Peeking? && s.consumer.k < |s.lanes|
    ensures ReadersSame(s, PeekNext(cfg, s))
  {
    QueueChanged(s, PeekNext(cfg, s), s.consumer.k, s.lanes[s.consumer.k].queue.Peeked());
  }

  lemma DequeueKeepsReaders(cfg: Config, s: State)
    requires |s.lanes| == |cfg.scripts| && CanConsume(s) && s.consumer.Dequeuing?
    ensures ReadersSame(s, ConsumeStep(cfg, s)) && !ConsumeStep(cfg, s).consumer.Dequeuing?
  {
    QueueChanged(s, ConsumeStep(cfg, s), s.consumer.lane, s.lanes[s.consumer.lane].queue.Dequeued());
  }

  lemma ControlKeepsReaders(cfg: Config, s: State)
    requires |s.lanes| == |cfg.scripts| && CanConsume(s) && !s.consumer.Dequeuing?
    requires s.consumer.Peeking? ==> s.consumer.k >= |s.lanes|
    ensures ReadersSame(s, ConsumeStep(cfg, s))
  {
    var r := ConsumeStep(cfg, s);
    assert r == s.(consumer := r.consumer, starved := r.starved);
  }

  lemma {:induction false} TraceOutcome(cfg: Config, run: seq<Event>, trace: seq<State>, i: nat)
    requires Wellformed(cfg) && IsTrace(cfg, run, trace) && i <= |run|
    ensures Inv(cfg, trace[i]) && FailOk(cfg, trace[i])
  {
    TraceKeeps(cfg, run, trace, i);
    if i > 0 {
      TraceOutcome(cfg, run, trace, i - 1);
      assert Step(cfg, trace[i - 1], run[i - 1], trace[i]);
      FailKeeps(cfg, trace[i - 1], run[i - 1]);
    }
  }

  lemma RunOutcome(cfg: Config, run: seq<Event>, s: State)
    requires Wellformed(cfg) && Reaches(cfg, run, s)
    ensures Inv(cfg, s) && FailOk(cfg, s)
  {
    var trace :| IsTrace(cfg, run, trace) && trace[|run|] == s;
    TraceOutcome(cfg, run, trace, |run|);
  }

  /** A call whose context stays live fails only if one of its readers does, and only once every
      reader is done. */
  lemma FailsOnlyIfReaderFails(cfg: Config, run: seq<Event>, s: State)
    requires Wellformed(cfg) && Reaches(cfg, run, s) && !s.outer && s.collector.Failure?
    ensures exists i :: 0 <= i < |cfg.fails| && cfg.fails[i]
    ensures AllStopped(s)
  {
    RunOutcome(cfg, run, s);
  }

  /** A call that has returned has cancelled its readers. */
  lemma ReturnCancelsReaders(cfg: Config, run: seq<Event>, s: State)
    requires Wellformed(cfg) && Reaches(cfg, run, s) && !s.collector.Collecting?
    ensures s.inner
  {
    RunOutcome(cfg, run, s);
  }

  // It can always still return.

  /** What one reader has yet to do: lines to enqueue, and returning. */
  function Left(cfg: Config, k: nat, l: Lane): (n: nat)
  {
    (if k < |cfg.scripts| && l.pos <= |cfg.scripts[k]| then |cfg.scripts[k]| - l.pos else 0)
    + (if l.status.Running? then 1 else 0)
  }

  function Work(cfg: Config, lanes: seq<Lane>): (n: nat)
  {
    if lanes == [] then 0 else Work(cfg, lanes[..|lanes| - 1]) + Left(cfg, |lanes| - 1, lanes[|lanes| - 1])
  }

  lemma {:induction false} WorkDone(cfg: Config, lanes: seq<Lane>, i: nat, l: Lane)
    requires i < |lanes| && Left(cfg, i, l) < Left(cfg, i, lanes[i])
    ensures Work(cfg, lanes[i := l]) < Work(cfg, lanes)
  {
    var k := |lanes| - 1;
    if i < k {
      WorkDone(cfg, lanes[..k], i, l);
      assert lanes[i := l][..k] == lanes[..k][i := l];
    } else {
      assert lanes[i := l][..k] == lanes[..k];
    }
  }

  lemma {:induction false} SameWork(cfg: Config, a: seq<Lane>, b: seq<Lane>)
    requires |a| == |b| && forall i :: 0 <= i < |a| ==> Left(cfg, i, a[i]) == Left(cfg, i, b[i])
    ensures Work(cfg, a) == Work(cfg, b)
  {
    if a != [] {
      SameWork(cfg, a[..|a| - 1], b[..|b| - 1]);
    }
  }

  /** A queue at or behind `k` has a line. */
  ghost predicate LineFrom(s: State, k: nat)
  {
    exists j :: k <= j < |s.lanes| && !s.lanes[j].queue.IsEmpty()
  }

  /** How far the consumer is from sending a line or closing, if nobody else moves. */
  ghost function Distance(s: State): (n: nat)
  {
    var n := |s.lanes|;
    match s.consumer
    case Sending(_, _, _) => 0
    case Closed => 0
    case Abandoned(_, _) => 0
    case Dequeuing(_, _) => 1
    case Peeking(k, best, _, _) =>
      (if k <= n then n - k else 0) + (if best.Best? || LineFrom(s, k) then 2 else 2 * n + 8)
    case CheckEmpty(k) => if k <= n then 2 * n + 4 - k else 0
    case CheckInner => 2 * n + 5
    case LoopHead => 2 * n + 6
    case Sleeping => 2 * n + 7
  }

  /** The pass comes closer to a line. */
  lemma PeekCloser(cfg: Config, s: State)
    requires |s.lanes| == |cfg.scripts| && s.consumer.Peeking? && s.consumer.k < |s.lanes|
    ensures Distance(PeekNext(cfg, s)) < Distance(s)
  {
    var r, k := PeekNext(cfg, s), s.consumer.k;
    assert forall j :: k < j < |s.lanes| ==> r.lanes[j] == s.lanes[j];
    if LineFrom(s, k) && s.lanes[k].queue.IsEmpty() {
      var j :| k <= j < |s.lanes| && !s.lanes[j].queue.IsEmpty();
      assert !r.lanes[j].queue.IsEmpty() && LineFrom(r, k + 1);
    }
    if LineFrom(r, k + 1) {
      var j :| k + 1 <= j < |r.lanes| && !r.lanes[j].queue.IsEmpty();
      assert !s.lanes[j].queue.IsEmpty() && LineFrom(s, k);
    }
  }

  /** If a line is there, or the readers are all through, a step of the consumer brings it closer
      to sending a line or closing. */
  lemma ConsumeCloser(cfg: Config, s: State)
    requires Wellformed(cfg) && |s.lanes| == |cfg.scripts| && ConsumerOk(cfg, s) && !s.outer && CanConsume(s)
    requires s.inner || LineFrom(s, 0)
    ensures Distance(ConsumeStep(cfg, s)) < Distance(s)
  {
    if s.consumer.Peeking? && s.consumer.k < |s.lanes| {
      PeekCloser(cfg, s);
    } else if s.consumer.Dequeuing? {
      DequeueCloser(cfg, s);
    } else {
      ControlCloser(cfg, s);
    }
  }

  lemma DequeueCloser(cfg: Config, s: State)
    requires Wellformed(cfg) && |s.lanes| == |cfg.scripts| && ConsumerOk(cfg, s) && s.consumer.Dequeuing?
    ensures ConsumeStep(cfg, s).consumer.Sending?
  {
  }

  lemma ControlCloser(cfg: Config, s: State)
    requires Wellformed(cfg) && |s.lanes| == |cfg.scripts| && ConsumerOk(cfg, s) && !s.outer && CanConsume(s)
    requires s.inner || LineFrom(s, 0)
    requires !s.consumer.Dequeuing? && (s.consumer.Peeking? ==> s.consumer.k >= |s.lanes|)
    ensures Distance(ConsumeStep(cfg, s)) < Distance(s)
  {
    var r := ConsumeStep(cfg, s);
    assert r.lanes == s.lanes;
    if s.consumer.CheckEmpty? && s.consumer.k < |s.lanes| && !s.lanes[s.consumer.k].queue.IsEmpty() {
      assert LineFrom(s, 0);
    }
    assert LineFrom(s, 0) == LineFrom(r, 0);
  }

  /** Less is left to do: lines to return or, those being equal, work of the readers or, that
      being equal, of the starter or, that being equal, of the consumer. */
  ghost predicate Closer(cfg: Config, s: State, t: State)
  {
    var a, b := Work(cfg, s.lanes), Work(cfg, t.lanes);
    || |s.output| < |t.output|
    || (s.output == t.output && b < a)
    || (s.output == t.output && b == a && s.starter.Joining? && !t.starter.Joining?)
    || (s.output == t.output && b == a && s.starter == t.starter && Distance(t) < Distance(s))
  }

  /** Event `e` can happen next and ends the call or brings its end closer. */
  ghost predicate Helps(cfg: Config, s: State, e: Event)
    requires Wellformed(cfg)
  {
    && |s.lanes| == |cfg.scripts| && Enabled(cfg, s, e) && !e.CancelOuter?
    && (!Do(cfg, s, e).collector.Collecting? || Closer(cfg, s, Do(cfg, s, e)))
  }

  lemma ReaderHelps(cfg: Config, s: State, i: nat) returns (e: Event)
    requires Wellformed(cfg) && Inv(cfg, s) && Live(s) && i < |s.lanes| && s.lanes[i].status.Running?
    requires s.lanes[i].pos == |cfg.scripts[i]| || |s.lanes[i].queue.buffered| < cfg.capacity
    ensures Helps(cfg, s, e)
  {
    assert LaneOk(cfg, s, i);
    e := if s.lanes[i].pos == |cfg.scripts[i]| then Finish(i) else Enqueue(i);
    var t := Do(cfg, s, e);
    assert t.lanes == s.lanes[i := t.lanes[i]];
    WorkDone(cfg, s.lanes, i, t.lanes[i]);
  }

  lemma ConsumerHelps(cfg: Config, s: State)
    requires Wellformed(cfg) && Inv(cfg, s) && Live(s) && CanConsume(s) && (s.inner || LineFrom(s, 0))
    ensures Helps(cfg, s, Consume)
  {
    ConsumeKeepsReaders(cfg, s);
    SameWork(cfg, s.lanes, ConsumeStep(cfg, s).lanes);
    ConsumeCloser(cfg, s);
  }

  /** If no reader can move and none is left to join, the consumer has something to do. */
  lemma ConsumerCanHelp(cfg: Config, s: State)
    requires Wellformed(cfg) && cfg.capacity > 0 && Inv(cfg, s) && FailOk(cfg, s) && Live(s)
    requires !s.consumer.Sending? && !s.consumer.Closed? && !s.consumer.Abandoned? && !s.starter.Reporting?
    requires s.starter.Joining? ==> !AllStopped(s)
    requires forall i :: 0 <= i < |s.lanes| && s.lanes[i].status.Running? ==>
               s.lanes[i].pos != |cfg.scripts[i]| && |s.lanes[i].queue.buffered| >= cfg.capacity
    ensures CanConsume(s) && (s.inner || LineFrom(s, 0))
  {
    if s.starter.Joining? {
      var i :| 0 <= i < |s.lanes| && s.lanes[i].status.Running?;
      assert !s.lanes[i].queue.IsEmpty();
    }
  }

  /** In every live state somebody can do something that brings the call closer to its end. */
  lemma SomebodyHelps(cfg: Config, s: State) returns (e: Event)
    requires Wellformed(cfg) && cfg.capacity > 0 && Inv(cfg, s) && FailOk(cfg, s) && Live(s)
    ensures Helps(cfg, s, e)
  {
    if s.consumer.Sending? {
      e := Deliver;
    } else if s.consumer.Closed? || s.consumer.Abandoned? {
      e := Drain;
    } else if s.starter.Reporting? {
      e := Report;
    } else if i :| 0 <= i < |s.lanes| && s.lanes[i].status.Running?
                   && (s.lanes[i].pos == |cfg.scripts[i]| || |s.lanes[i].queue.buffered| < cfg.capacity) {
      e := ReaderHelps(cfg, s, i);
    } else if s.starter.Joining? && AllStopped(s) {
      e := Join;
    } else {
      ConsumerCanHelp(cfg, s);
      ConsumerHelps(cfg, s);
      e := Consume;
    }
  }

  /** An extension of a run. */
  lemma Extend(cfg: Config, run: seq<Event>, s: State, e: Event)
    requires Wellformed(cfg) && Reaches(cfg, run, s) && |s.lanes| == |cfg.scripts| && Enabled(cfg, s, e)
    ensures Reaches(cfg, run + [e], Do(cfg, s, e))
  {
    var trace :| IsTrace(cfg, run, trace) && trace[|run|] == s;
    var run', trace' := run + [e], trace + [Do(cfg, s, e)];
    forall i | 0 <= i < |run'| ensures Step(cfg, trace'[i], run'[i], trace'[i + 1]) {
      if i < |run| {
        assert Step(cfg, trace[i], run[i], trace[i + 1]);
      }
    }
    assert IsTrace(cfg, run', trace') && trace'[|run'|] == Do(cfg, s, e);
  }

  /** From every state that a run with a live context reaches, the call can still return: no
      interleaving leads into a dead end. */
  lemma {:induction false} CanStillReturn(cfg: Config, run: seq<Event>, s: State)
    returns (more: seq<Event>, t: State)
    requires Wellformed(cfg) && cfg.capacity > 0 && Reaches(cfg, run, s) && !s.outer
    ensures Reaches(cfg, run + more, t) && !t.outer && !t.collector.Collecting?
    decreases Enough(cfg) - |s.output|, Work(cfg, s.lanes), if s.starter.Joining? then 1 else 0, Distance(s)
  {
    if !s.collector.Collecting? {
      assert run + [] == run;
      more, t := [], s;
    } else {
      var e, next := HelpfulStep(cfg, run, s);
      if !next.collector.Collecting? {
        more, t := [e], next;
      } else {
        more, t := CanStillReturn(cfg, run + [e], next);
        assert run + [e] + more == run + ([e] + more);
        more := [e] + more;
      }
    }
  }

  lemma HelpfulStep(cfg: Config, run: seq<Event>, s: State) returns (e: Event, next: State)
    requires Wellformed(cfg) && cfg.capacity > 0 && Reaches(cfg, run, s) && Live(s)
    ensures Reaches(cfg, run + [e], next) && !next.outer
    ensures next.collector.Collecting? ==> Closer(cfg, s, next) && |s.output| <= |next.output| <= Enough(cfg)
  {
    RunOutcome(cfg, run, s);
    e := SomebodyHelps(cfg, s);
    next := Do(cfg, s, e);
    OuterStays(cfg, s, e);
    Extend(cfg, run, s, e);
    AtMostEnough(cfg, run + [e], next);
  }

  lemma OuterStays(cfg: Config, s: State, e: Event)
    requires Wellformed(cfg) && |s.lanes| == |cfg.scripts| && Enabled(cfg, s, e) && !e.CancelOuter?
    ensures Do(cfg, s, e).outer == s.outer
  {
    if e.Consume? {
      ConsumeKeepsReaders(cfg, s);
    }
  }

  lemma AtMostEnough(cfg: Config, run: seq<Event>, s: State)
    requires Wellformed(cfg) && Reaches(cfg, run, s)
    ensures |s.output| <= Enough(cfg)
  {
    RunKeeps(cfg, run, s);
  }

  // Giving up.

  /** The consumer may still pass a line on before it looks at the caller's context again. */
  predicate InFlight(c: Consumer)
  {
    !c.LoopHead? && !c.Sleeping? && !c.Closed? && !c.Abandoned?
  }

  lemma CancelledStep(cfg: Config, s: State, e: Event)
    requires Wellformed(cfg) && |s.lanes| == |cfg.scripts| && Enabled(cfg, s, e) && s.outer
    ensures var t := Do(cfg, s, e);
      && t.outer && |s.output| <= |t.output|
      && |t.output| + (if InFlight(t.consumer) then 1 else 0) <= |s.output| + (if InFlight(s.consumer) then 1 else 0)
  {
    if e.Consume? {
      ConsumeCancelled(cfg, s);
    }
  }

  lemma ConsumeCancelled(cfg: Config, s: State)
    requires |s.lanes| == |cfg.scripts| && CanConsume(s) && s.outer
    ensures var t := ConsumeStep(cfg, s);
      t.outer && t.output == s.output && (InFlight(t.consumer) ==> InFlight(s.consumer))
  {
    ConsumeKeepsReaders(cfg, s);
  }

  lemma {:induction false} CancelledTrace(cfg: Config, run: seq<Event>, trace: seq<State>, i: nat, j: nat)
    requires Wellformed(cfg) && IsTrace(cfg, run, trace) && i <= j <= |run| && trace[i].outer
    ensures trace[j].outer
    ensures |trace[j].output| + (if InFlight(trace[j].consumer) then 1 else 0) <=
            |trace[i].output| + (if InFlight(trace[i].consumer) then 1 else 0)
  {
    if i < j {
      CancelledTrace(cfg, run, trace, i, j - 1);
      assert Step(cfg, trace[j - 1], run[j - 1], trace[j]);
      CancelledStep(cfg, trace[j - 1], run[j - 1]);
    }
  }

  /** Once the caller gives up, at most one more line is passed on, whatever is still queued. */
  lemma CancelStopsSoon(cfg: Config, run: seq<Event>, trace: seq<State>, i: nat)
    requires Wellformed(cfg) && IsTrace(cfg, run, trace) && i <= |run| && trace[i].outer
    ensures |trace[|run|].output| <= |trace[i].output| + 1
  {
    CancelledTrace(cfg, run, trace, i, |run|);
  }

  // Nothing is left running.

  /** Every goroutine of the call has ended. */
  predicate AllOver(s: State)
  {
    && AllStopped(s) && s.starter.Exited? && (s.consumer.Closed? || s.consumer.Abandoned?)
    && !s.collector.Collecting?
  }

  function Running(lanes: seq<Lane>): (n: nat)
  {
    if lanes == [] then 0
    else Running(lanes[..|lanes| - 1]) + (if lanes[|lanes| - 1].status.Running? then 1 else 0)
  }

  lemma {:induction false} OneLessRunning(lanes: seq<Lane>, i: nat, l: Lane)
    requires i < |lanes| && lanes[i].status.Running? && !l.status.Running?
    ensures Running(lanes[i := l]) < Running(lanes)
  {
    var k := |lanes| - 1;
    if i < k {
      OneLessRunning(lanes[..k], i, l);
      assert lanes[i := l][..k] == lanes[..k][i := l];
    } else {
      assert lanes[i := l][..k] == lanes[..k];
    }
  }

  lemma {:induction false} SameRunning(a: seq<Lane>, b: seq<Lane>)
    requires |a| == |b| && forall i :: 0 <= i < |a| ==> a[i].status == b[i].status
    ensures Running(a) == Running(b)
  {
    if a != [] {
      SameRunning(a[..|a| - 1], b[..|b| - 1]);
    }
  }

  /** How far the consumer is from its end once the caller has given up. */
  function ToEnd(s: State): (n: nat)
  {
    var n := |s.lanes|;
    match s.consumer
    case Closed => 0
    case Abandoned(_, _) => 0
    case Sending(_, _, _) => 1
    case LoopHead => 1
    case Sleeping => 2
    case Dequeuing(_, _) => 2
    case Peeking(k, _, _, _) => if k <= n then 3 + n - k else 3
    case CheckEmpty(k) => if k <= n then 4 + 2 * n - k else 4 + n
    case CheckInner => 5 + 2 * n
  }

  function StarterLeft(t: Starter): (n: nat)
  {
    match t
    case Joining => 2
    case Reporting => 1
    case Exited => 0
  }

  function LeftToEnd(s: State): (n: nat)
  {
    Running(s.lanes) + StarterLeft(s.starter) + ToEnd(s) + (if s.collector.Collecting? then 1 else 0)
  }

  /** Event `e` can happen next and leaves less to end. */
  ghost predicate WindsDown(cfg: Config, s: State, e: Event)
    requires Wellformed(cfg)
  {
    && |s.lanes| == |cfg.scripts| && Enabled(cfg, s, e)
    && LeftToEnd(Do(cfg, s, e)) < LeftToEnd(s) && Do(cfg, s, e).outer && Do(cfg, s, e).inner
  }

  lemma ConsumerWindsDown(cfg: Config, s: State) returns (e: Event)
    requires Wellformed(cfg) && |s.lanes| == |cfg.scripts| && ConsumerOk(cfg, s) && s.outer && s.inner
    requires !s.consumer.Closed? && !s.consumer.Abandoned?
    ensures WindsDown(cfg, s, e)
  {
    if s.consumer.Sending? || s.consumer.Sleeping? {
      e := Quit;
    } else {
      e := Consume;
      ConsumeKeepsReaders(cfg, s);
      SameRunning(s.lanes, ConsumeStep(cfg, s).lanes);
      ConsumeToEnd(cfg, s);
    }
  }

  lemma ConsumeToEnd(cfg: Config, s: State)
    requires Wellformed(cfg) && |s.lanes| == |cfg.scripts| && ConsumerOk(cfg, s) && s.outer && s.inner
    requires CanConsume(s) && !s.consumer.Sleeping?
    ensures ToEnd(ConsumeStep(cfg, s)) < ToEnd(s)
  {
  }

  lemma SomebodyWindsDown(cfg: Config, s: State) returns (e: Event)
    requires Wellformed(cfg) && Inv(cfg, s) && s.outer && s.inner && !AllOver(s)
    ensures WindsDown(cfg, s, e)
  {
    if i :| 0 <= i < |s.lanes| && s.lanes[i].status.Running? {
      FinishWindsDown(cfg, s, i);
      e := Finish(i);
    } else if !s.starter.Exited? {
      e := StarterWindsDown(cfg, s);
    } else if !s.consumer.Closed? && !s.consumer.Abandoned? {
      e := ConsumerWindsDown(cfg, s);
    } else {
      DrainWindsDown(cfg, s);
      e := Drain;
    }
  }

  lemma FinishWindsDown(cfg: Config, s: State, i: nat)
    requires Wellformed(cfg) && |s.lanes| == |cfg.scripts| && s.outer && s.inner
    requires i < |s.lanes| && s.lanes[i].status.Running?
    ensures WindsDown(cfg, s, Finish(i))
  {
    var t := Do(cfg, s, Finish(i));
    assert t.lanes == s.lanes[i := t.lanes[i]];
    OneLessRunning(s.lanes, i, t.lanes[i]);
  }

  lemma StarterWindsDown(cfg: Config, s: State) returns (e: Event)
    requires Wellformed(cfg) && |s.lanes| == |cfg.scripts| && s.outer && s.inner && AllStopped(s)
    requires !s.starter.Exited?
    ensures WindsDown(cfg, s, e)
  {
    e := if s.starter.Joining? then Join else GiveUp;
  }

  lemma DrainWindsDown(cfg: Config, s: State)
    requires Wellformed(cfg) && |s.lanes| == |cfg.scripts| && s.outer && s.inner && s.collector.Collecting?
    requires s.consumer.Closed? || s.consumer.Abandoned?
    ensures WindsDown(cfg, s, Drain)
  {
  }

  lemma {:induction false} WindDown(cfg: Config, run: seq<Event>, s: State) returns (more: seq<Event>, t: State)
    requires Wellformed(cfg) && Reaches(cfg, run, s) && s.outer && s.inner
    ensures Reaches(cfg, run + more, t) && AllOver(t)
    decreases LeftToEnd(s)
  {
    if AllOver(s) {
      assert run + [] == run;
      more, t := [], s;
    } else {
      RunKeeps(cfg, run, s);
      var e := SomebodyWindsDown(cfg, s);
      Extend(cfg, run, s, e);
      more, t := WindDown(cfg, run + [e], Do(cfg, s, e));
      assert run + [e] + more == run + ([e] + more);
      more := [e] + more;
    }
  }

  /** Nothing is left running: from every reachable state, even with full queues and a line that
      nobody takes any more, once the caller's context is done every goroutine can end. */
  lemma EverythingCanEnd(cfg: Config, run: seq<Event>, s: State) returns (more: seq<Event>, t: State)
    requires Wellformed(cfg) && Reaches(cfg, run, s)
    ensures Reaches(cfg, run + more, t) && AllOver(t)
  {
    RunKeeps(cfg, run, s);
    Extend(cfg, run, s, CancelOuter);
    var s1, run1 := Do(cfg, s, CancelOuter), run + [CancelOuter];
    Extend(cfg, run1, s1, CancelInner);
    var s2, run2 := Do(cfg, s1, CancelInner), run1 + [CancelInner];
    more, t := WindDown(cfg, run2, s2);
    assert run2 + more == run + ([CancelOuter, CancelInner] + more);
    more := [CancelOuter, CancelInner] + more;
  }

  /** A reader whose context is done gets through its lines although its queue is full: a line
      that is dropped is passed over, and nothing is enqueued. */
  lemma {:induction false} DropsGetThrough(cfg: Config, run: seq<Event>, s: State, i: nat)
    returns (more: seq<Event>, t: State)
    requires Wellformed(cfg) && Reaches(cfg, run, s) && s.inner && i < |s.lanes| && s.lanes[i].status.Running?
    ensures Reaches(cfg, run + more, t) && |t.lanes| == |s.lanes|
    ensures t == s.(lanes := s.lanes[i := s.lanes[i].(pos := t.lanes[i].pos)]) && i < |cfg.scripts|
    ensures t.lanes[i].pos == |cfg.scripts[i]| && forall k :: 0 <= k < |more| ==> more[k] == Drop(i)
    decreases if i < |cfg.scripts| then |cfg.scripts[i]| - s.lanes[i].pos else 0
  {
    RunKeeps(cfg, run, s);
    assert LaneOk(cfg, s, i);
    if s.lanes[i].pos == |cfg.scripts[i]| {
      assert run + [] == run && s.lanes[i := s.lanes[i]] == s.lanes;
      more, t := [], s;
    } else {
      Extend(cfg, run, s, Drop(i));
      var s1 := Do(cfg, s, Drop(i));
      more, t := DropsGetThrough(cfg, run + [Drop(i)], s1, i);
      assert run + [Drop(i)] + more == run + ([Drop(i)] + more);
      more := [Drop(i)] + more;
    }
  }
}
