/** The readers' walks and `Recent` together: what can be missing from the returned lines. */
module RecentLogsEndToEnd {
  import opened Common
  import opened Ordering
  import opened LogLines
  import opened LogMerge
  import opened RecentLogs
  import opened RecentLogsProofs
  import R = ReverseLogReader

  /** A container's log and when its Pod was created and its read started. */
  datatype Source = Source(log: seq<LogLine>, creation: int, now: int)

  /** Each reader walks back over its container's log and enqueues what `windows[k]` windows
      cover; only a reader that fails does so before it is past the Pod's creation. */
  ghost predicate Reads(cfg: Config, sources: seq<Source>, floor: R.Rounding, windows: seq<nat>)
    requires Wellformed(cfg)
  {
    && |sources| == |windows| == |cfg.scripts|
    && forall k :: 0 <= k < |sources| ==> ReadsOne(sources[k], floor, windows[k], cfg.scripts[k], cfg.fails[k])
  }

  ghost predicate ReadsOne(src: Source, floor: R.Rounding, windows: nat, script: seq<LogLine>, fails: bool)
  {
    && R.IsWalk(src.log, floor, src.now, windows, script)
    && (!fails ==> windows == R.WindowCount(src.now, src.creation))
  }

  /** A successful call, its context still live, that passed on the latest line every time. */
  ghost predicate Succeeds(cfg: Config, run: seq<Event>, s: State)
    requires Wellformed(cfg)
  {
    Reaches(cfg, run, s) && !s.outer && s.faithful && s.collector.Success?
  }

  /** Line `x` of a log is not in the output as often as in the log. */
  predicate MissingLine(src: Source, out: seq<Tagged>, i: nat, x: LogLine)
  {
    multiset(Taken(out, i))[x] < multiset(src.log)[x]
  }

  ghost predicate NotLater(out: seq<Tagged>, x: LogLine)
  {
    forall k :: 0 <= k < |out| ==> x.timestamp <= out[k].line.timestamp
  }

  lemma WalkHolds(src: Source, floor: R.Rounding, windows: nat, script: seq<LogLine>, x: LogLine)
    requires R.IsWalk(src.log, floor, src.now, windows, script)
    ensures multiset(script)[x] ==
            if R.Start(floor, src.now, windows) <= x.timestamp < src.now then multiset(src.log)[x] else 0
  {
    WindowMultiplicity(src.log, R.Start(floor, src.now, windows), src.now, x);
  }

  /** Whatever part of its log each reader got to read: a line that was read and is missing from
      the output is no later than any returned line. */
  lemma MissingLinesAreOlder(cfg: Config, run: seq<Event>, s: State, sources: seq<Source>, floor: R.Rounding,
                             windows: seq<nat>, i: nat, x: LogLine)
    requires Wellformed(cfg) && Succeeds(cfg, run, s) && Reads(cfg, sources, floor, windows)
    requires i < |sources| && R.Start(floor, sources[i].now, windows[i]) <= x.timestamp < sources[i].now
    requires MissingLine(sources[i], s.output, i, x)
    ensures |s.output| == Enough(cfg) && NotLater(s.output, x)
  {
    AllDescend(cfg, sources, floor, windows);
    WalkHolds(sources[i], floor, windows[i], cfg.scripts[i], x);
    RunKeeps(cfg, run, s);
    if |s.output| < Enough(cfg) {
      ShortSuccessIsComplete(cfg, run, s, i);
    }
    MissingFromMerge(cfg.scripts, s.output, i, x);
  }

  lemma AllDescend(cfg: Config, sources: seq<Source>, floor: R.Rounding, windows: seq<nat>)
    requires Wellformed(cfg) && Reads(cfg, sources, floor, windows)
    ensures forall k :: 0 <= k < |cfg.scripts| ==> Descending(cfg.scripts[k])
  {
    forall k | 0 <= k < |cfg.scripts| ensures Descending(cfg.scripts[k]) {
      assert ReadsOne(sources[k], floor, windows[k], cfg.scripts[k], cfg.fails[k]);
    }
  }

  /** The promise since the Pods were created: a missing line is no later than any returned one. */
  ghost predicate LatestSinceCreation(sources: seq<Source>, out: seq<Tagged>)
  {
    forall i, x :: 0 <= i < |sources| && MissingSinceCreation(sources[i], out, i, x) ==> NotLater(out, x)
  }

  predicate MissingSinceCreation(src: Source, out: seq<Tagged>, i: nat, x: LogLine)
  {
    src.creation <= x.timestamp < src.now && MissingLine(src, out, i, x)
  }

  /** No line that a failed reader did not get to is later than a returned one. */
  ghost predicate UnreadAreOlder(sources: seq<Source>, floor: R.Rounding, windows: seq<nat>, fails: seq<bool>,
                                 out: seq<Tagged>)
    requires |sources| == |windows| == |fails|
  {
    forall i, x :: 0 <= i < |sources| && fails[i] && Unread(sources[i], floor, windows[i], x) ==> NotLater(out, x)
  }

  predicate Unread(src: Source, floor: R.Rounding, windows: nat, x: LogLine)
  {
    x in src.log && src.creation <= x.timestamp < src.now && x.timestamp < R.Start(floor, src.now, windows)
  }

  /** `Recent` reports a reader's failure only once all readers are done, so a call can succeed
      although a reader failed. Its lines are the latest since the Pods were created if and only
      if nothing that a failed reader left unread is later than a returned line. */
  lemma LatestSinceCreationIff(cfg: Config, run: seq<Event>, s: State, sources: seq<Source>, floor: R.Rounding,
                               windows: seq<nat>)
    requires Wellformed(cfg) && Succeeds(cfg, run, s) && Reads(cfg, sources, floor, windows)
    ensures LatestSinceCreation(sources, s.output) <==>
            UnreadAreOlder(sources, floor, windows, cfg.fails, s.output)
  {
    RunKeeps(cfg, run, s);
    if LatestSinceCreation(sources, s.output) {
      forall i, x | 0 <= i < |sources| && cfg.fails[i] && Unread(sources[i], floor, windows[i], x)
        ensures NotLater(s.output, x)
      {
        UnreadIsMissing(cfg, run, s, sources, floor, windows, i, x);
        assert MissingSinceCreation(sources[i], s.output, i, x);
      }
    }
    if UnreadAreOlder(sources, floor, windows, cfg.fails, s.output) {
      forall i, x | 0 <= i < |sources| && MissingSinceCreation(sources[i], s.output, i, x)
        ensures NotLater(s.output, x)
      {
        if R.Start(floor, sources[i].now, windows[i]) <= x.timestamp {
          MissingLinesAreOlder(cfg, run, s, sources, floor, windows, i, x);
        } else {
          OnlyFailedLeaveUnread(cfg, sources, floor, windows, i, x);
        }
      }
    }
  }

  lemma OnlyFailedLeaveUnread(cfg: Config, sources: seq<Source>, floor: R.Rounding, windows: seq<nat>, i: nat,
                              x: LogLine)
    requires Wellformed(cfg) && Reads(cfg, sources, floor, windows) && i < |sources|
    requires sources[i].creation <= x.timestamp < sources[i].now
    requires x.timestamp < R.Start(floor, sources[i].now, windows[i])
    ensures cfg.fails[i]
  {
    var src := sources[i];
    assert ReadsOne(src, floor, windows[i], cfg.scripts[i], cfg.fails[i]);
    R.StartsBeforeCreation(floor, src.now, src.creation);
  }

  lemma UnreadIsMissing(cfg: Config, run: seq<Event>, s: State, sources: seq<Source>, floor: R.Rounding,
                        windows: seq<nat>, i: nat, x: LogLine)
    requires Wellformed(cfg) && Succeeds(cfg, run, s) && Reads(cfg, sources, floor, windows)
    requires i < |sources| && Unread(sources[i], floor, windows[i], x)
    ensures MissingLine(sources[i], s.output, i, x)
  {
    assert ReadsOne(sources[i], floor, windows[i], cfg.scripts[i], cfg.fails[i]);
    WalkHolds(sources[i], floor, windows[i], cfg.scripts[i], x);
    TakenFromScript(cfg, run, s, i);
    MoreInPrefix(Taken(s.output, i), cfg.scripts[i], x);
  }

  lemma TakenFromScript(cfg: Config, run: seq<Event>, s: State, i: nat)
    requires Wellformed(cfg) && Succeeds(cfg, run, s) && i < |cfg.scripts|
    ensures Taken(s.output, i) <= cfg.scripts[i]
  {
    OrderExactlyWhenFaithful(cfg, run, s);
    var merged := Merge(cfg.scripts);
    MergeTakes(cfg.scripts, merged, i);
    TakenPrefix(s.output, merged, i);
  }

  lemma TakenPrefix(out: seq<Tagged>, merged: seq<Tagged>, i: nat)
    requires out <= merged
    ensures Taken(out, i) <= Taken(merged, i)
  {
    var rest := merged[|out|..];
    assert merged == out + rest;
    TakenConcat(out, rest, i);
  }

  lemma MoreInPrefix(a: seq<LogLine>, b: seq<LogLine>, x: LogLine)
    requires a <= b
    ensures multiset(a)[x] <= multiset(b)[x]
  {
    assert b == a + b[|a|..];
  }

  /** So it is kept in every successful call in which no reader fails. */
  lemma NoFailureKeepsLatest(cfg: Config, run: seq<Event>, s: State, sources: seq<Source>, floor: R.Rounding,
                             windows: seq<nat>)
    requires Wellformed(cfg) && Succeeds(cfg, run, s) && Reads(cfg, sources, floor, windows)
    requires forall i :: 0 <= i < |cfg.fails| ==> !cfg.fails[i]
    ensures LatestSinceCreation(sources, s.output)
  {
    LatestSinceCreationIff(cfg, run, s, sources, floor, windows);
  }

  lemma MissingFromMerge(lanes: seq<seq<LogLine>>, out: seq<Tagged>, i: nat, x: LogLine)
    requires forall k :: 0 <= k < |lanes| ==> Descending(lanes[k])
    requires i < |lanes| && out <= Merge(lanes)
    requires multiset(Taken(out, i))[x] < multiset(lanes[i])[x]
    ensures forall k :: 0 <= k < |out| ==> x.timestamp <= out[k].line.timestamp
  {
    var j := MissingComesLater(lanes, out, i, x);
    MergeDescends(lanes);
    forall k | 0 <= k < |out| ensures x.timestamp <= out[k].line.timestamp {
      assert out[k] == Merge(lanes)[k];
    }
  }

  lemma MoreBehind(a: seq<LogLine>, b: seq<LogLine>, x: LogLine)
    requires multiset(a)[x] < multiset(a + b)[x]
    ensures x in b
  {
    assert x in multiset(b);
  }

  lemma MissingComesLater(lanes: seq<seq<LogLine>>, out: seq<Tagged>, i: nat, x: LogLine) returns (j: nat)
    requires i < |lanes| && out <= Merge(lanes)
    requires multiset(Taken(out, i))[x] < multiset(lanes[i])[x]
    ensures |out| <= j < |Merge(lanes)| && Merge(lanes)[j].line == x
  {
    MergeTakes(lanes, Merge(lanes), i);
    j := TakenBehind(Merge(lanes), out, i, x);
  }

  lemma TakenBehind(merged: seq<Tagged>, out: seq<Tagged>, i: nat, x: LogLine) returns (j: nat)
    requires out <= merged && multiset(Taken(out, i))[x] < multiset(Taken(merged, i))[x]
    ensures |out| <= j < |merged| && merged[j].line == x
  {
    var rest := merged[|out|..];
    assert merged == out + rest;
    TakenConcat(out, rest, i);
    MoreBehind(Taken(out, i), Taken(rest, i), x);
    var k := TakenFrom(rest, i, x);
    assert merged[|out| + k] == rest[k];
    j := |out| + k;
  }

  lemma MergeDescends(lanes: seq<seq<LogLine>>)
    requires forall k :: 0 <= k < |lanes| ==> Descending(lanes[k])
    ensures forall k, j :: 0 <= k < j < |Merge(lanes)| ==>
              Merge(lanes)[j].line.timestamp <= Merge(lanes)[k].line.timestamp
  {
    var sorted := StableSort(Later, Flatten(lanes));
    MergeIsSort(lanes);
    SortedPrefixDescends(Flatten(lanes), |sorted|);
    assert sorted[..|sorted|] == sorted;
    var m := Merge(lanes);
    forall k, j | 0 <= k < j < |m| ensures m[j].line.timestamp <= m[k].line.timestamp {
      assert Lines(m)[j] == m[j].line && Lines(m)[k] == m[k].line;
    }
  }
}
