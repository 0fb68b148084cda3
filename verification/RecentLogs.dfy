/** logs_reader.go, `Recent`: readers, starter, consumer and collector as one step system.
    Every step is one thing a goroutine does between two points where another goroutine can
    interfere; a run is any sequence of enabled steps. */
module RecentLogs {
  import opened LogLines
  import opened LogMerge
  import opened LogQueue

  /** `scripts[i]` is everything container i's reader enqueues before it returns, `fails[i]`
      whether it then returns an error of its own. */
  datatype Config = Config(scripts: seq<seq<LogLine>>, fails: seq<bool>, capacity: nat, numLines: int)

  datatype Status = Running | Ended | Failed

  /** One container: its queue, how far its reader is, and the history of its queue. */
  datatype Lane = Lane(queue: Contents, pos: nat, status: Status, enqueued: seq<LogLine>)

  datatype Starter = Joining | Reporting | Exited

  datatype Best = NoBest | Best(lane: nat, latest: int)

  /** Where the consumer is. `skipped`, `hungry` and `good` are history: the lanes found empty
      in the current pass, whether one of them still had lines to come, and whether none of
      them had a line that should have been taken. */
  datatype Consumer =
    | LoopHead
    | CheckInner
    | CheckEmpty(k: nat)
    | Peeking(k: nat, best: Best, skipped: set<nat>, hungry: bool)
    | Sleeping
    | Dequeuing(lane: nat, good: bool)
    | Sending(lane: nat, line: LogLine, good: bool)
    | Closed
    | Abandoned(lane: nat, line: LogLine)

  datatype Collector = Collecting | Success(drained: bool) | Failure

  /** `starved` and `faithful` are history: whether a line was ever selected in a hungry pass,
      and whether every line passed on was a good pick. A pass that finds nothing to select
      leaves both alone. */
  datatype State = State(
    lanes: seq<Lane>,
    inner: bool,
    outer: bool,
    starter: Starter,
    consumer: Consumer,
    collector: Collector,
    output: seq<Tagged>,
    starved: bool,
    faithful: bool)

  datatype Event =
    | Enqueue(i: nat)
    | Drop(i: nat)
    | Finish(i: nat)
    | Join
    | Report
    | GiveUp
    | CancelOuter
    | CancelInner
    | Consume
    | Quit
    | Deliver
    | Drain

  ghost predicate Wellformed(cfg: Config)
  {
    |cfg.fails| == |cfg.scripts|
  }

  function Init(cfg: Config): (s: State)
  {
    State(seq(|cfg.scripts|, _ => Lane(Contents(Nothing, []), 0, Running, [])),
          false, false, Joining, LoopHead, Collecting, [], false, true)
  }

  function Enough(cfg: Config): (n: nat)
  {
    if cfg.numLines < 1 then 1 else cfg.numLines
  }

  predicate AllStopped(s: State)
  {
    forall i :: 0 <= i < |s.lanes| ==> !s.lanes[i].status.Running?
  }

  predicate AllEnded(s: State)
  {
    forall i :: 0 <= i < |s.lanes| ==> s.lanes[i].status.Ended?
  }

  /** The consumer can move on its own; only sending a line needs a partner. */
  predicate CanConsume(s: State)
  {
    && !s.consumer.Sending? && !s.consumer.Closed? && !s.consumer.Abandoned?
    && (s.consumer.Dequeuing? ==> s.consumer.lane < |s.lanes|)
  }

  predicate Enabled(cfg: Config, s: State, e: Event)
    requires Wellformed(cfg) && |s.lanes| == |cfg.scripts|
  {
    match e
    case Enqueue(i) =>
      && i < |s.lanes| && s.lanes[i].status.Running? && s.lanes[i].pos < |cfg.scripts[i]|
      && |s.lanes[i].queue.buffered| < cfg.capacity
    case Drop(i) =>
      i < |s.lanes| && s.lanes[i].status.Running? && s.lanes[i].pos < |cfg.scripts[i]| && s.inner
    case Finish(i) =>
      i < |s.lanes| && s.lanes[i].status.Running? && (s.lanes[i].pos >= |cfg.scripts[i]| || s.inner)
    case Join => s.starter.Joining? && AllStopped(s)
    case Report => s.starter.Reporting? && s.collector.Collecting?
    case GiveUp => s.starter.Reporting? && s.inner
    case CancelOuter => true
    case CancelInner => s.outer
    case Consume => CanConsume(s)
    case Quit => s.outer && (s.consumer.Sleeping? || s.consumer.Sending?)
    case Deliver => s.consumer.Sending? && s.collector.Collecting?
    case Drain => (s.consumer.Closed? || s.consumer.Abandoned?) && s.collector.Collecting?
  }

  function WithLane(s: State, i: nat, l: Lane): (r: State)
    requires i < |s.lanes|
    ensures |r.lanes| == |s.lanes|
  {
    s.(lanes := s.lanes[i := l])
  }

  /** No lane that the pass found empty still has a line to come that beats lane `i`'s. */
  predicate GoodPick(cfg: Config, s: State, i: nat, skipped: set<nat>)
  {
    var rests := Rests(cfg.scripts, s.output);
    forall k :: k in skipped && k < |rests| && rests[k] != [] && i < |rests| && rests[i] != [] ==>
      !Beats(k, rests[k][0], i, rests[i][0])
  }

  function PeekNext(cfg: Config, s: State): (r: State)
    requires |s.lanes| == |cfg.scripts| && s.consumer.Peeking? && s.consumer.k < |s.lanes|
    ensures |r.lanes| == |s.lanes|
  {
    var Peeking(k, best, skipped, hungry) := s.consumer;
    var l := s.lanes[k];
    var s' := WithLane(s, k, l.(queue := l.queue.Peeked()));
    match l.queue.Front()
    case Nothing =>
      s'.(consumer := Peeking(k + 1, best, skipped + {k}, hungry || l.pos < |cfg.scripts[k]|))
    case Line(line) =>
      var later := best.NoBest? || line.timestamp > best.latest;
      s'.(consumer := Peeking(k + 1, if later then Best(k, line.timestamp) else best, skipped, hungry))
  }

  function ConsumeStep(cfg: Config, s: State): (r: State)
    requires |s.lanes| == |cfg.scripts| && CanConsume(s)
    ensures |r.lanes| == |s.lanes|
  {
    match s.consumer
    case LoopHead => s.(consumer := if s.outer then Closed else CheckInner)
    case CheckInner => s.(consumer := if s.inner then CheckEmpty(0) else Peeking(0, NoBest, {}, false))
    case CheckEmpty(k) =>
      if k >= |s.lanes| then s.(consumer := Closed)
      else if s.lanes[k].queue.IsEmpty() then s.(consumer := CheckEmpty(k + 1))
      else s.(consumer := Peeking(0, NoBest, {}, false))
    case Peeking(k, best, skipped, hungry) =>
      if k < |s.lanes| then PeekNext(cfg, s)
      else if best.NoBest? then s.(consumer := Sleeping)
      else s.(consumer := Dequeuing(best.lane, GoodPick(cfg, s, best.lane, skipped)), starved := s.starved || hungry)
    case Sleeping => s.(consumer := LoopHead)
    case Dequeuing(i, good) =>
      var l := s.lanes[i];
      var s' := WithLane(s, i, l.(queue := l.queue.Dequeued()));
      match l.queue.Front()
      case Nothing => s'.(consumer := LoopHead)
      case Line(line) => s'.(consumer := Sending(i, line, good))
  }

  function Do(cfg: Config, s: State, e: Event): (r: State)
    requires Wellformed(cfg) && |s.lanes| == |cfg.scripts| && Enabled(cfg, s, e)
    ensures |r.lanes| == |s.lanes|
  {
    match e
    case Enqueue(i) =>
      var l, line := s.lanes[i], cfg.scripts[i][s.lanes[i].pos];
      WithLane(s, i, l.(queue := l.queue.Enqueued(line), pos := l.pos + 1, enqueued := l.enqueued + [line]))
    case Drop(i) => WithLane(s, i, s.lanes[i].(pos := s.lanes[i].pos + 1))
    case Finish(i) => WithLane(s, i, s.lanes[i].(status := if s.inner || cfg.fails[i] then Failed else Ended))
    case Join => if AllEnded(s) then s.(starter := Exited, inner := true) else s.(starter := Reporting)
    case Report => s.(starter := Exited, collector := Failure, inner := true)
    case GiveUp => s.(starter := Exited, inner := true)
    case CancelOuter => s.(outer := true)
    case CancelInner => s.(inner := true)
    case Consume => ConsumeStep(cfg, s)
    case Quit =>
      s.(consumer := if s.consumer.Sending? then Abandoned(s.consumer.lane, s.consumer.line) else Closed)
    case Deliver =>
      var out := s.output + [Tagged(s.consumer.lane, s.consumer.line)];
      var s' := s.(output := out, consumer := LoopHead, faithful := s.faithful && s.consumer.good);
      if |out| >= cfg.numLines then s'.(collector := Success(false), inner := true) else s'
    case Drain => s.(collector := Success(true), inner := true)
  }

  ghost predicate Step(cfg: Config, s: State, e: Event, t: State)
    requires Wellformed(cfg)
  {
    |s.lanes| == |cfg.scripts| && Enabled(cfg, s, e) && t == Do(cfg, s, e)
  }

  /** The states of a run, one step after the other. */
  ghost predicate IsTrace(cfg: Config, run: seq<Event>, trace: seq<State>)
    requires Wellformed(cfg)
  {
    && |trace| == |run| + 1 && trace[0] == Init(cfg)
    && forall i :: 0 <= i < |run| ==> Step(cfg, trace[i], run[i], trace[i + 1])
  }

  /** The state a run leads to, if every one of its steps is enabled. */
  ghost predicate Reaches(cfg: Config, run: seq<Event>, s: State)
    requires Wellformed(cfg)
  {
    exists trace :: IsTrace(cfg, run, trace) && trace[|run|] == s
  }
}
