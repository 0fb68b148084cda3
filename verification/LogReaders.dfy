/** Log lines and the order in which the readers compare them. */
module LogLines {
  import opened Ordering

  datatype LogLine = LogLine(timestamp: int, text: string)

  predicate Earlier(a: LogLine, b: LogLine) { a.timestamp < b.timestamp }

  predicate Later(a: LogLine, b: LogLine) { b.timestamp < a.timestamp }

  ghost predicate Ascending(s: seq<LogLine>)
  {
    forall i, j :: 0 <= i < j < |s| ==> s[i].timestamp <= s[j].timestamp
  }

  ghost predicate Descending(s: seq<LogLine>)
  {
    forall i, j :: 0 <= i < j < |s| ==> s[j].timestamp <= s[i].timestamp
  }

  lemma TimeOrders()
    ensures StrictWeakOrder(Earlier) && StrictWeakOrder(Later)
  {
  }

  /** The lines stamped in the half-open window [start, end), in log order. */
  function InWindow(log: seq<LogLine>, start: int, end: int): (r: seq<LogLine>)
    ensures forall x :: x in r <==> x in log && start <= x.timestamp < end
  {
    if log == [] then []
    else (if start <= log[0].timestamp < end then [log[0]] else []) + InWindow(log[1..], start, end)
  }

  lemma {:induction false} EmptyWindow(log: seq<LogLine>, start: int, end: int)
    requires forall k :: 0 <= k < |log| ==> !(start <= log[k].timestamp < end)
    ensures InWindow(log, start, end) == []
  {
    if log != [] {
      EmptyWindow(log[1..], start, end);
    }
  }

  lemma {:induction false} WindowSplit(log: seq<LogLine>, a: int, b: int, c: int)
    requires a <= b <= c
    ensures multiset(InWindow(log, a, c)) == multiset(InWindow(log, a, b)) + multiset(InWindow(log, b, c))
  {
    if log != [] {
      WindowSplit(log[1..], a, b, c);
    }
  }

  lemma {:induction false} WindowShrink(log: seq<LogLine>, a: int, b: int, c: int)
    requires a <= b
    requires forall x :: x in InWindow(log, a, c) ==> b <= x.timestamp
    ensures InWindow(log, a, c) == InWindow(log, b, c)
  {
    if log != [] {
      forall x | x in InWindow(log[1..], a, c) ensures b <= x.timestamp {
        assert x in InWindow(log, a, c);
      }
      WindowShrink(log[1..], a, b, c);
      assert log[0] in InWindow(log, a, c) <==> a <= log[0].timestamp < c;
    }
  }

  /** A window counts each line of the log as often as the log holds it. */
  lemma {:induction false} WindowMultiplicity(log: seq<LogLine>, start: int, end: int, x: LogLine)
    ensures multiset(InWindow(log, start, end))[x] ==
            if start <= x.timestamp < end then multiset(log)[x] else 0
  {
    if log != [] {
      WindowMultiplicity(log[1..], start, end, x);
      assert log == [log[0]] + log[1..];
    }
  }
}

/** windowed_log_reader.go: one bounded read of a container's log. */
module WindowedLogReader {
  import opened Ordering
  import opened LogLines

  /** What the server streams for `SinceTime`: every line at or after it. */
  function StreamFrom(log: seq<LogLine>, since: int): (r: seq<LogLine>)
  {
    if log == [] then []
    else (if since <= log[0].timestamp then [log[0]] else []) + StreamFrom(log[1..], since)
  }

  /** The part of a stream that is read before the first line at or past `end`. */
  function Before(stream: seq<LogLine>, end: int): (r: seq<LogLine>)
    ensures r <= stream
  {
    if stream == [] || end <= stream[0].timestamp then []
    else [stream[0]] + Before(stream[1..], end)
  }

  lemma {:induction false} BeforeIs(stream: seq<LogLine>, end: int, n: nat)
    requires n <= |stream|
    requires forall k :: 0 <= k < n ==> stream[k].timestamp < end
    requires n < |stream| ==> end <= stream[n].timestamp
    ensures Before(stream, end) == stream[..n]
  {
    if n > 0 {
      BeforeIs(stream[1..], end, n - 1);
    }
  }

  method Read(log: seq<LogLine>, since: int, end: int) returns (lines: seq<LogLine>)
    ensures Ascending(lines)
    ensures multiset(lines) == multiset(Before(StreamFrom(log, since), end))
  {
    var result := Collect(StreamFrom(log, since), end);
    lines := SortLines(result);
  }

  /** The callback of the stream: append each line, and bail at the first one past the end. */
  method Collect(stream: seq<LogLine>, end: int) returns (result: seq<LogLine>)
    ensures result == Before(stream, end)
  {
    result := [];
    var i := 0;
    while i < |stream| && stream[i].timestamp < end
      invariant 0 <= i <= |stream| && result == stream[..i]
      invariant forall k :: 0 <= k < i ==> stream[k].timestamp < end
    {
      result := result + [stream[i]];
      i := i + 1;
    }
    BeforeIs(stream, end, i);
  }

  /** sort.Sort on lines compares timestamps only and may swap lines with equal ones. */
  method SortLines(result: seq<LogLine>) returns (lines: seq<LogLine>)
    ensures Ascending(lines) && multiset(lines) == multiset(result)
  {
    TimeOrders();
    lines := Sort(Earlier, result);
    forall i, j | 0 <= i < j < |lines| ensures lines[i].timestamp <= lines[j].timestamp {
      assert !Earlier(lines[j], lines[i]);
    }
  }

  /** A line of the window is streamed behind a line that already ends the window. */
  ghost predicate Overtaken(stream: seq<LogLine>, end: int)
  {
    exists i, j :: 0 <= i < j < |stream| && stream[j].timestamp < end <= stream[i].timestamp
  }

  /** Reading stops at the first line past the window, so the read returns the whole
      window exactly when no line of it was overtaken. */
  lemma WindowCompleteIff(log: seq<LogLine>, since: int, end: int)
    ensures Before(StreamFrom(log, since), end) == InWindow(log, since, end)
       <==> !Overtaken(StreamFrom(log, since), end)
  {
    StreamWindow(log, since, end);
    StreamSince(log, since);
    BeforeWindow(StreamFrom(log, since), since, end);
  }

  lemma {:induction false} StreamSince(log: seq<LogLine>, since: int)
    ensures forall k :: 0 <= k < |StreamFrom(log, since)| ==> since <= StreamFrom(log, since)[k].timestamp
  {
    if log != [] {
      StreamSince(log[1..], since);
    }
  }

  lemma {:induction false} StreamWindow(log: seq<LogLine>, since: int, end: int)
    ensures InWindow(StreamFrom(log, since), since, end) == InWindow(log, since, end)
  {
    if log != [] {
      StreamWindow(log[1..], since, end);
      var t := StreamFrom(log[1..], since);
      if since <= log[0].timestamp {
        WindowCons(log[0], t, since, end);
      } else {
        assert [] + t == t;
      }
    }
  }

  lemma WindowCons(x: LogLine, t: seq<LogLine>, since: int, end: int)
    ensures InWindow([x] + t, since, end) == (if since <= x.timestamp < end then [x] else []) + InWindow(t, since, end)
  {
    assert ([x] + t)[1..] == t;
  }

  lemma {:induction false} BeforeWindow(stream: seq<LogLine>, since: int, end: int)
    requires forall k :: 0 <= k < |stream| ==> since <= stream[k].timestamp
    ensures Before(stream, end) == InWindow(stream, since, end) <==> !Overtaken(stream, end)
  {
    if stream != [] {
      if stream[0].timestamp < end {
        var t := stream[1..];
        BeforeWindow(t, since, end);
        assert Before(stream, end)[1..] == Before(t, end);
        assert InWindow(stream, since, end)[1..] == InWindow(t, since, end);
        OvertakenTail(stream, end);
      } else {
        NothingBefore(stream, since, end);
      }
    }
  }

  lemma NothingBefore(stream: seq<LogLine>, since: int, end: int)
    requires stream != [] && end <= stream[0].timestamp
    requires forall k :: 0 <= k < |stream| ==> since <= stream[k].timestamp
    ensures InWindow(stream, since, end) == [] <==> !Overtaken(stream, end)
  {
    if Overtaken(stream, end) {
      var i, j :| 0 <= i < j < |stream| && stream[j].timestamp < end <= stream[i].timestamp;
      assert stream[j] in InWindow(stream, since, end);
    } else {
      EmptyWindow(stream, since, end);
    }
  }

  lemma OvertakenTail(stream: seq<LogLine>, end: int)
    requires stream != [] && stream[0].timestamp < end
    ensures Overtaken(stream, end) <==> Overtaken(stream[1..], end)
  {
    var t := stream[1..];
    if Overtaken(stream, end) {
      var i, j :| 0 <= i < j < |stream| && stream[j].timestamp < end <= stream[i].timestamp;
      assert t[j - 1] == stream[j] && t[i - 1] == stream[i];
    }
    if Overtaken(t, end) {
      var i, j :| 0 <= i < j < |t| && t[j].timestamp < end <= t[i].timestamp;
      assert stream[j + 1] == t[j] && stream[i + 1] == t[i];
    }
  }

  lemma {:induction false} StreamMembers(log: seq<LogLine>, since: int)
    ensures forall k :: 0 <= k < |StreamFrom(log, since)| ==> StreamFrom(log, since)[k] in log
  {
    if log != [] {
      StreamMembers(log[1..], since);
    }
  }

  lemma {:induction false} StreamAscends(log: seq<LogLine>, since: int)
    requires Ascending(log)
    ensures Ascending(StreamFrom(log, since))
  {
    if log != [] {
      StreamAscends(log[1..], since);
      StreamMembers(log[1..], since);
      var t := StreamFrom(log[1..], since);
      forall k | 0 <= k < |t| ensures log[0].timestamp <= t[k].timestamp {
        assert t[k] in log[1..];
      }
    }
  }

  /** A line stamped 1 behind a line stamped 5: the window [0, 5) is read without it. */
  lemma OvertakenLineIsMissed() returns (log: seq<LogLine>)
    ensures Overtaken(StreamFrom(log, 0), 5)
    ensures Before(StreamFrom(log, 0), 5) == [] && InWindow(log, 0, 5) == [LogLine(1, "b")]
  {
    var a, b := LogLine(5, "a"), LogLine(1, "b");
    log := [a, b];
    assert log == [a] + [b] && [b] == [b] + [];
    StreamCons(b, [], 0);
    StreamCons(a, [b], 0);
    assert StreamFrom(log, 0) == log;
    WindowCons(b, [], 0, 5);
    WindowCons(a, [b], 0, 5);
    assert log[0].timestamp >= 5 && log[1].timestamp < 5;
  }

  lemma StreamCons(x: LogLine, t: seq<LogLine>, since: int)
    ensures StreamFrom([x] + t, since) == (if since <= x.timestamp then [x] else []) + StreamFrom(t, since)
  {
    assert ([x] + t)[1..] == t;
  }

  /** In a log that is ascending in time nothing is overtaken. */
  lemma AscendingNotOvertaken(log: seq<LogLine>, since: int, end: int)
    requires Ascending(log)
    ensures !Overtaken(StreamFrom(log, since), end)
  {
    StreamAscends(log, since);
  }
}

/** reverse_log_reader.go: the walk backwards over a container's log. */
module ReverseLogReader {
  import opened LogLines
  import W = WindowedLogReader

  /** Every window starts five seconds before the previous one (in nanoseconds). */
  const STEP := 5_000_000_000

  /** The server may round `SinceTime` down, for instance to whole seconds. */
  ghost predicate RoundsDown(floor: int -> int)
  {
    forall t, u :: RoundsBelow(floor, t, u)
  }

  /** A server may round not at all. */
  type Rounding = f: int -> int | RoundsDown(f) witness (t: int) => t

  predicate RoundsBelow(floor: int -> int, t: int, u: int)
  {
    floor(t) <= t && (t <= u ==> floor(t) <= floor(u))
  }

  /** How many windows a walk from `now` reads before it is past the Pod's creation. */
  function WindowCount(now: int, creation: int): (n: nat)
    decreases now - creation
  {
    if now < creation then 0 else 1 + WindowCount(now - STEP, creation)
  }

  lemma {:induction false} WindowCountIs(now: int, creation: int)
    requires creation <= now
    ensures WindowCount(now, creation) == (now - creation) / 5_000_000_000 + 1
    decreases now - creation
  {
    if now - STEP >= creation {
      WindowCountIs(now - STEP, creation);
    }
  }

  lemma {:induction false} WindowCountPastCreation(now: int, creation: int)
    ensures now - STEP * WindowCount(now, creation) < creation
    decreases now - creation
  {
    if now >= creation {
      WindowCountPastCreation(now - STEP, creation);
    }
  }

  /** Where the server starts the stream of the last of `windows` window reads. */
  function Start(floor: Rounding, now: int, windows: nat): int
  {
    if windows == 0 then now else floor(now - STEP * windows)
  }

  /** The lines that `windows` windows back from `now` cover. */
  function Covered(log: seq<LogLine>, floor: Rounding, now: int, windows: nat): (r: seq<LogLine>)
  {
    InWindow(log, Start(floor, now, windows), now)
  }

  /** A complete walk: latest first, and exactly the covered lines. */
  ghost predicate IsWalk(log: seq<LogLine>, floor: Rounding, now: int, windows: nat, enqueued: seq<LogLine>)
  {
    Descending(enqueued) && multiset(enqueued) == multiset(Covered(log, floor, now, windows))
  }

  /** What the walk keeps: the queue holds exactly the lines from `end` on, latest
      first, and no line lies between the start `low` of the last window and `end`. */
  ghost predicate Walked(log: seq<LogLine>, low: int, end: int, now: int, enqueued: seq<LogLine>)
  {
    && low <= end <= now
    && InWindow(log, low, end) == []
    && Descending(enqueued)
    && (forall k :: 0 <= k < |enqueued| ==> end <= enqueued[k].timestamp)
    && multiset(enqueued) == multiset(InWindow(log, end, now))
  }

  lemma StartsDecrease(floor: Rounding, now: int, windows: nat)
    ensures Start(floor, now, windows + 1) <= Start(floor, now, windows)
  {
    var a, b := now - STEP * windows, now - STEP * (windows + 1);
    assert RoundsBelow(floor, b, a);
  }

  /** The reader's whole effect on its queue: `enqueued` in order of the Enqueue calls.
      `failAt` is the window read that returns an error, if one does. */
  method Read(log: seq<LogLine>, floor: Rounding, now: int, creation: int, failAt: int)
    returns (enqueued: seq<LogLine>, windows: nat, ok: bool)
    requires Ascending(log)
    ensures IsWalk(log, floor, now, windows, enqueued)
    ensures ok <==> !(0 <= failAt < WindowCount(now, creation))
    ensures windows == if ok then WindowCount(now, creation) else failAt
  {
    var next, end := now, now;
    enqueued, windows := [], 0;
    EmptyWindow(log, now, now);
    ghost var low := now;
    while next >= creation
      invariant next == now - STEP * windows && low == Start(floor, now, windows)
      invariant !(0 <= failAt < windows)
      invariant windows + WindowCount(next, creation) == WindowCount(now, creation)
      invariant Walked(log, low, end, now, enqueued)
      decreases next - creation
    {
      next := next - STEP;
      if failAt == windows {
        WalkedCovers(log, floor, now, windows, low, end, enqueued);
        return enqueued, windows, false;
      }
      StartsDecrease(floor, now, windows);
      end, enqueued := ReadWindow(log, floor(next), end, enqueued, low, now);
      windows := windows + 1;
      low := floor(next);
    }
    WalkedCovers(log, floor, now, windows, low, end, enqueued);
    ok := true;
  }

  /** One turn of the loop: read a window and, unless it is empty, enqueue it and let the
      next window end where this one's first line is. */
  method ReadWindow(log: seq<LogLine>, since: int, end: int, queued: seq<LogLine>, ghost low: int, ghost now: int)
    returns (end': int, queued': seq<LogLine>)
    requires Ascending(log) && Walked(log, low, end, now, queued) && since <= low
    ensures Walked(log, since, end', now, queued')
  {
    end', queued' := end, queued;
    var lines := W.Read(log, since, end);
    WalkOn(log, low, end, now, queued, since, lines);
    if |lines| != 0 {
      end' := lines[0].timestamp;
      queued' := EnqueueReversed(lines, queued);
    }
  }

  lemma WalkOn(log: seq<LogLine>, low: int, end: int, now: int, enqueued: seq<LogLine>, since: int, lines: seq<LogLine>)
    requires Ascending(log) && Walked(log, low, end, now, enqueued)
    requires since <= low && Ascending(lines)
    requires multiset(lines) == multiset(W.Before(W.StreamFrom(log, since), end))
    ensures lines == [] ==> Walked(log, since, end, now, enqueued)
    ensures lines != [] ==> Walked(log, since, lines[0].timestamp, now, enqueued + Reversed(lines))
  {
    W.AscendingNotOvertaken(log, since, end);
    W.WindowCompleteIff(log, since, end);
    if lines == [] {
      assert |InWindow(log, since, end)| == |multiset(lines)|;
    } else {
      WalkFurther(log, low, end, now, enqueued, since, lines);
    }
  }

  lemma WalkFurther(log: seq<LogLine>, low: int, end: int, now: int, enqueued: seq<LogLine>, since: int,
                    lines: seq<LogLine>)
    requires Walked(log, low, end, now, enqueued)
    requires lines != [] && Ascending(lines) && multiset(lines) == multiset(InWindow(log, since, end))
    ensures Walked(log, since, lines[0].timestamp, now, enqueued + Reversed(lines))
  {
    FirstIsEarliest(log, since, end, lines);
    WindowSplit(log, lines[0].timestamp, end, now);
    ReversedBehind(enqueued, lines);
  }

  function Reversed(s: seq<LogLine>): (r: seq<LogLine>)
    ensures multiset(r) == multiset(s) && |r| == |s|
  {
    if s == [] then [] else
      assert s == [s[0]] + s[1..];
      Reversed(s[1..]) + [s[0]]
  }

  /** Appending an earlier, reversed window keeps the queue latest-first. */
  lemma {:induction false} ReversedBehind(queued: seq<LogLine>, lines: seq<LogLine>)
    requires Descending(queued) && Ascending(lines)
    requires forall k, l :: 0 <= k < |queued| && 0 <= l < |lines| ==> lines[l].timestamp <= queued[k].timestamp
    ensures Descending(queued + Reversed(lines))
    ensures lines != [] ==> forall k :: 0 <= k < |queued| + |lines| ==>
                              lines[0].timestamp <= (queued + Reversed(lines))[k].timestamp
  {
    if lines != [] {
      var t := lines[1..];
      ReversedBehind(queued, t);
      var r := queued + Reversed(t);
      assert queued + Reversed(lines) == r + [lines[0]];
      forall k | 0 <= k < |r| ensures lines[0].timestamp <= r[k].timestamp {
        assert t == [] ==> r == queued;
        assert t != [] ==> t[0] == lines[1];
      }
    }
  }

  lemma ReversedNext(queued: seq<LogLine>, lines: seq<LogLine>, k: nat)
    requires k < |lines|
    ensures queued + Reversed(lines[k + 1..]) + [lines[k]] == queued + Reversed(lines[k..])
  {
    assert lines[k..][1..] == lines[k + 1..];
  }

  /** Enqueues a window's lines, latest first. */
  method EnqueueReversed(lines: seq<LogLine>, queued: seq<LogLine>) returns (r: seq<LogLine>)
    ensures r == queued + Reversed(lines)
  {
    r := queued;
    for i := 0 to |lines|
      invariant r == queued + Reversed(lines[|lines| - i..])
    {
      var ll := lines[|lines| - i - 1];
      ReversedNext(queued, lines, |lines| - i - 1);
      r := r + [ll];
    }
    assert lines[0..] == lines;
  }

  lemma FirstIsEarliest(log: seq<LogLine>, since: int, end: int, lines: seq<LogLine>)
    requires lines != [] && Ascending(lines)
    requires multiset(lines) == multiset(InWindow(log, since, end))
    ensures since <= lines[0].timestamp < end
    ensures forall k :: 0 <= k < |lines| ==> lines[0].timestamp <= lines[k].timestamp < end
    ensures InWindow(log, since, lines[0].timestamp) == []
    ensures InWindow(log, lines[0].timestamp, end) == InWindow(log, since, end)
  {
    var w := InWindow(log, since, end);
    forall x | x in w ensures lines[0].timestamp <= x.timestamp {
      assert x in multiset(lines);
    }
    forall k | 0 <= k < |lines| ensures lines[k] in w {
      assert lines[k] in multiset(lines);
    }
    WindowShrink(log, since, lines[0].timestamp, end);
    forall k | 0 <= k < |log| ensures !(since <= log[k].timestamp < lines[0].timestamp) {
      assert log[k] in w <==> since <= log[k].timestamp < end;
    }
    EmptyWindow(log, since, lines[0].timestamp);
  }

  lemma WalkedCovers(log: seq<LogLine>, floor: Rounding, now: int, windows: nat, low: int, end: int,
                     enqueued: seq<LogLine>)
    requires Walked(log, low, end, now, enqueued) && low == Start(floor, now, windows)
    ensures IsWalk(log, floor, now, windows, enqueued)
  {
    WindowSplit(log, low, end, now);
  }

  lemma StartsBeforeCreation(floor: Rounding, now: int, creation: int)
    requires creation <= now
    ensures Start(floor, now, WindowCount(now, creation)) < creation
  {
    WindowCountPastCreation(now, creation);
    assert RoundsBelow(floor, now - STEP * WindowCount(now, creation), now);
  }

  /** The walk goes back far enough: after the last window every line stamped between
      the Pod's creation and the start of the read was covered, as often as it occurs. */
  lemma CoversFromCreation(log: seq<LogLine>, floor: Rounding, now: int, creation: int, x: LogLine)
    requires creation <= x.timestamp < now
    ensures multiset(Covered(log, floor, now, WindowCount(now, creation)))[x] == multiset(log)[x]
  {
    StartsBeforeCreation(floor, now, creation);
    WindowMultiplicity(log, Start(floor, now, WindowCount(now, creation)), now, x);
  }
}
