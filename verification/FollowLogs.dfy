/** logs_reader.go, `follow` and its streams: a watch loop that starts one goroutine per
    container, and closes the two channels once all of them are done. */
module FollowLogs {

  datatype Phase = Pending | Unknown | Readable

  datatype Pod = Pod(name: string, phase: Phase, containers: seq<string>)

  /** One streaming goroutine. `epoch` counts the Deleted events its Pod had before. */
  datatype Stream = Stream(pod: string, epoch: nat, container: string, live: bool)

  datatype Main =
    | Starting
    | Failing
    | Watching
    | Spawning(pod: Pod, k: nat)
    | Waiting
    | ClosingErrs
    | Returned

  datatype State = State(
    main: Main,
    waitGroup: int,
    tracked: map<string, seq<string>>,
    deletions: map<string, nat>,
    streams: seq<Stream>,
    linesClosed: bool,
    errsClosed: bool,
    panicked: bool)

  datatype Event =
    | WatchOpened
    | WatchFailed
    | FailureReported
    | Updated(pod: Pod)
    | Spawn
    | Deleted(name: string)
    | Ignored
    | Stop
    | WaitDone
    | CloseErrs
    | SendLine(i: nat)
    | SendErr(i: nat)
    | StreamEnds(i: nat)

  const INIT := State(Starting, 0, map[], map[], [], false, false, false)

  predicate Filtered(container: string)
  {
    container == "istio-proxy" || container == "istio-init"
  }

  ghost predicate Distinct(names: seq<string>)
  {
    forall i, j :: 0 <= i < j < |names| ==> names[i] != names[j]
  }

  function Epoch(s: State, pod: string): nat
  {
    if pod in s.deletions then s.deletions[pod] else 0
  }

  /** A Pod's container names are distinct; Kubernetes rejects any other Pod. */
  ghost predicate Enabled(s: State, e: Event)
  {
    match e
    case WatchOpened => s.main.Starting?
    case WatchFailed => s.main.Starting?
    case FailureReported => s.main.Failing?
    case Updated(pod) => s.main.Watching? && Distinct(pod.containers)
    case Spawn => s.main.Spawning?
    case Deleted(_) => s.main.Watching?
    case Ignored => s.main.Watching?
    case Stop => s.main.Watching?
    case WaitDone => s.main.Waiting? && s.waitGroup == 0
    case CloseErrs => s.main.ClosingErrs?
    case SendLine(i) => i < |s.streams| && s.streams[i].live
    case SendErr(i) => i < |s.streams| && s.streams[i].live
    case StreamEnds(i) => i < |s.streams| && s.streams[i].live
  }

  function SpawnNext(s: State): (r: State)
    requires s.main.Spawning?
  {
    var Spawning(pod, k) := s.main;
    if k >= |pod.containers| then s.(main := Watching)
    else
      var s' := s.(main := Spawning(pod, k + 1));
      if Filtered(pod.containers[k]) then s'
      else s'.(waitGroup := s.waitGroup + 1,
               streams := s.streams + [Stream(pod.name, Epoch(s, pod.name), pod.containers[k], true)])
  }

  /** Sending on a closed channel, closing one twice and a negative wait group all panic. */
  ghost function Do(s: State, e: Event): (r: State)
    requires Enabled(s, e)
  {
    match e
    case WatchOpened => s.(main := Watching)
    case WatchFailed => s.(main := Failing)
    case FailureReported => s.(main := Returned, panicked := s.panicked || s.errsClosed)
    case Updated(pod) =>
      if !pod.phase.Readable? || pod.name in s.tracked then s
      else s.(main := Spawning(pod, 0), tracked := s.tracked[pod.name := pod.containers])
    case Spawn => SpawnNext(s)
    case Deleted(name) =>
      s.(tracked := s.tracked - {name}, deletions := s.deletions[name := Epoch(s, name) + 1])
    case Ignored => s
    case Stop => s.(main := Waiting)
    case WaitDone => s.(main := ClosingErrs, linesClosed := true, panicked := s.panicked || s.linesClosed)
    case CloseErrs => s.(main := Returned, errsClosed := true, panicked := s.panicked || s.errsClosed)
    case SendLine(_) => s.(panicked := s.panicked || s.linesClosed)
    case SendErr(_) => s.(panicked := s.panicked || s.errsClosed)
    case StreamEnds(i) =>
      s.(streams := s.streams[i := s.streams[i].(live := false)],
         waitGroup := s.waitGroup - 1,
         panicked := s.panicked || s.waitGroup <= 0)
  }

  ghost predicate Reaches(run: seq<Event>, s: State)
  {
    if run == [] then s == INIT
    else
      var n := |run| - 1;
      exists p :: Reaches(run[..n], p) && Enabled(p, run[n]) && s == Do(p, run[n])
  }

  function LiveCount(streams: seq<Stream>): (n: nat)
  {
    if streams == [] then 0
    else LiveCount(streams[..|streams| - 1]) + (if streams[|streams| - 1].live then 1 else 0)
  }

  lemma {:induction false} LiveCountEnd(streams: seq<Stream>, i: nat)
    requires i < |streams| && streams[i].live
    ensures LiveCount(streams) == LiveCount(streams[i := streams[i].(live := false)]) + 1
  {
    var n := |streams| - 1;
    var ended := streams[i := streams[i].(live := false)];
    if i == n {
      assert ended[..n] == streams[..n];
    } else {
      LiveCountEnd(streams[..n], i);
      assert ended[..n] == streams[..n][i := streams[i].(live := false)];
    }
  }

  lemma LiveCountStart(streams: seq<Stream>, t: Stream)
    requires t.live
    ensures LiveCount(streams + [t]) == LiveCount(streams) + 1
  {
    assert (streams + [t])[..|streams|] == streams;
  }

  predicate SameStart(a: Stream, b: Stream)
  {
    a.pod == b.pod && a.epoch == b.epoch && a.container == b.container
  }

  /** Channels are closed only after the wait, and the wait group counts the live streams. */
  ghost predicate ChannelsOk(s: State)
  {
    && s.waitGroup == LiveCount(s.streams)
    && !s.panicked
    && (s.linesClosed <==> s.main.ClosingErrs? || (s.main.Returned? && s.errsClosed))
    && (s.errsClosed ==> s.main.Returned?)
    && (s.main.Starting? || s.main.Failing? || s.main.ClosingErrs? || s.main.Returned? ==> s.waitGroup == 0)
  }

  /** How many containers of a tracked Pod's list have been gone through. */
  function Started(s: State, pod: string): (n: nat)
    requires pod in s.tracked
  {
    if s.main.Spawning? && s.main.pod.name == pod then s.main.k else |s.tracked[pod]|
  }

  ghost predicate StartOk(s: State, i: nat)
    requires i < |s.streams|
  {
    var t := s.streams[i];
    && t.epoch <= Epoch(s, t.pod)
    && !Filtered(t.container)
    && (t.epoch == Epoch(s, t.pod) ==>
          && t.pod in s.tracked
          && Started(s, t.pod) <= |s.tracked[t.pod]|
          && t.container in s.tracked[t.pod][..Started(s, t.pod)])
  }

  ghost predicate StartsOk(s: State)
  {
    && (s.main.Spawning? ==>
          && s.main.pod.name in s.tracked && s.tracked[s.main.pod.name] == s.main.pod.containers
          && Distinct(s.main.pod.containers) && s.main.k <= |s.main.pod.containers|)
    && (forall i :: 0 <= i < |s.streams| ==> StartOk(s, i))
    && (forall i, j :: 0 <= i < j < |s.streams| ==> !SameStart(s.streams[i], s.streams[j]))
  }

  /** Every unfiltered container gone through has its stream. */
  ghost predicate CoverageOk(s: State)
  {
    forall pod, k | pod in s.tracked && 0 <= k < Started(s, pod) && k < |s.tracked[pod]| ::
      Filtered(s.tracked[pod][k]) || HasStream(s, pod, s.tracked[pod][k])
  }

  ghost predicate HasStream(s: State, pod: string, container: string)
  {
    exists i :: 0 <= i < |s.streams| && s.streams[i].pod == pod && s.streams[i].epoch == Epoch(s, pod)
                && s.streams[i].container == container
  }

  ghost predicate Inv(s: State)
  {
    ChannelsOk(s) && StartsOk(s) && CoverageOk(s)
  }

  lemma ChannelsKeep(s: State, e: Event)
    requires Inv(s) && Enabled(s, e)
    ensures ChannelsOk(Do(s, e))
  {
    match e
    case StreamEnds(i) => LiveCountEnd(s.streams, i);
    case SendLine(i) => LiveMeansOpen(s, i);
    case SendErr(i) => LiveMeansOpen(s, i);
    case Spawn => SpawnCounts(s);
    case _ =>
  }

  lemma LiveMeansOpen(s: State, i: nat)
    requires ChannelsOk(s) && i < |s.streams| && s.streams[i].live
    ensures !s.linesClosed && !s.errsClosed
  {
    LiveCountEnd(s.streams, i);
  }

  lemma SpawnCounts(s: State)
    requires ChannelsOk(s) && s.main.Spawning?
    ensures ChannelsOk(SpawnNext(s))
  {
    var Spawning(pod, k) := s.main;
    if k < |pod.containers| {
      LiveCountStart(s.streams, Stream(pod.name, Epoch(s, pod.name), pod.containers[k], true));
    }
  }

  lemma StartsKeep(s: State, e: Event)
    requires Inv(s) && Enabled(s, e) && !e.Spawn?
    ensures StartsOk(Do(s, e))
  {
    var r := Do(s, e);
    forall i | 0 <= i < |r.streams| ensures StartOk(r, i) {
      assert StartOk(s, i);
    }
    forall i, j | 0 <= i < j < |r.streams| ensures !SameStart(r.streams[i], r.streams[j]) {
      assert !SameStart(s.streams[i], s.streams[j]);
    }
  }

  lemma SpawnStarts(s: State)
    requires Inv(s) && Enabled(s, Spawn)
    ensures StartsOk(Do(s, Spawn))
  {
    var r, n := Do(s, Spawn), |s.streams|;
    var Spawning(pod, k) := s.main;
    forall i | 0 <= i < |r.streams| ensures StartOk(r, i) {
      if i < n {
        assert StartOk(s, i);
      }
    }
    forall i, j | 0 <= i < j < |r.streams| ensures !SameStart(r.streams[i], r.streams[j]) {
      assert StartOk(s, i);
      if j == n {
        assert s.tracked[pod.name] == pod.containers;
      } else {
        assert !SameStart(s.streams[i], s.streams[j]);
      }
    }
  }

  /** Streams are never forgotten, and keep their Pod's epoch until it is deleted. */
  lemma StreamStays(s: State, e: Event, pod: string, container: string)
    requires Enabled(s, e) && HasStream(s, pod, container) && !(e.Deleted? && e.name == pod)
    ensures HasStream(Do(s, e), pod, container)
  {
    var r := Do(s, e);
    var i :| 0 <= i < |s.streams| && s.streams[i].pod == pod && s.streams[i].epoch == Epoch(s, pod)
             && s.streams[i].container == container;
    assert r.streams[i].pod == pod && r.streams[i].epoch == Epoch(r, pod) && r.streams[i].container == container;
  }

  lemma CoverageKeeps(s: State, e: Event)
    requires Inv(s) && Enabled(s, e)
    ensures CoverageOk(Do(s, e))
  {
    var r := Do(s, e);
    forall pod, k | pod in r.tracked && 0 <= k < Started(r, pod) && k < |r.tracked[pod]|
                    && !Filtered(r.tracked[pod][k])
      ensures HasStream(r, pod, r.tracked[pod][k])
    {
      var c := r.tracked[pod][k];
      if e.Spawn? && s.main.pod.name == pod && k == s.main.k {
        assert r.streams[|s.streams|].container == c;
      } else {
        assert HasStream(s, pod, c);
        StreamStays(s, e, pod, c);
      }
    }
  }

  lemma {:induction false} RunKeeps(run: seq<Event>, s: State)
    requires Reaches(run, s)
    ensures Inv(s)
  {
    if run != [] {
      var n := |run| - 1;
      var p :| Reaches(run[..n], p) && Enabled(p, run[n]) && s == Do(p, run[n]);
      RunKeeps(run[..n], p);
      ChannelsKeep(p, run[n]);
      CoverageKeeps(p, run[n]);
      if run[n].Spawn? { SpawnStarts(p); } else { StartsKeep(p, run[n]); }
    }
  }

  /** No interleaving of watch events and streams sends on a closed channel, closes a
      channel twice or drives the wait group below zero: whatever can happen next, the channel
      it uses is open. As long as a stream is live both channels are, and the wait group counts
      exactly the live streams. */
  lemma FollowNeverPanics(run: seq<Event>, s: State)
    requires Reaches(run, s)
    ensures !s.panicked && s.waitGroup == LiveCount(s.streams)
    ensures forall i :: 0 <= i < |s.streams| && s.streams[i].live ==> !s.linesClosed && !s.errsClosed
    ensures forall e :: Enabled(s, e) ==>
              && (e.SendLine? || e.WaitDone? ==> !s.linesClosed)
              && (e.SendErr? || e.FailureReported? || e.CloseErrs? ==> !s.errsClosed)
              && (e.StreamEnds? ==> s.waitGroup > 0)
  {
    RunKeeps(run, s);
    forall e | Enabled(s, e) && e.StreamEnds? ensures s.waitGroup > 0 {
      LiveCountEnd(s.streams, e.i);
    }
    forall i | 0 <= i < |s.streams| && s.streams[i].live ensures !s.linesClosed && !s.errsClosed {
      LiveMeansOpen(s, i);
    }
  }

  /** The watch loop is over. */
  predicate Draining(s: State)
  {
    s.main.Waiting? || s.main.ClosingErrs? || s.main.Returned?
  }

  /** The same streams, of which some more may have ended. */
  ghost predicate OnlyEnded(s: State, t: State)
  {
    && Draining(t) && t.waitGroup <= s.waitGroup && |t.streams| == |s.streams|
    && (forall i :: 0 <= i < |s.streams| ==>
          SameStart(s.streams[i], t.streams[i]) && (t.streams[i].live ==> s.streams[i].live))
  }

  lemma {:induction false} OneOutcome(run: seq<Event>, s: State, t: State)
    requires Reaches(run, s) && Reaches(run, t)
    ensures s == t
  {
    if run != [] {
      var n := |run| - 1;
      var p :| Reaches(run[..n], p) && Enabled(p, run[n]) && s == Do(p, run[n]);
      var q :| Reaches(run[..n], q) && Enabled(q, run[n]) && t == Do(q, run[n]);
      OneOutcome(run[..n], p, q);
    }
  }

  /** Nothing is added to the wait group once the wait has begun: every run that goes on from
      there has the same streams, and only lets them end. */
  lemma {:induction false} NoAddAfterWait(run: seq<Event>, s: State, more: seq<Event>, t: State)
    requires Reaches(run, s) && Draining(s) && Reaches(run + more, t)
    ensures OnlyEnded(s, t)
  {
    if more == [] {
      assert run + more == run;
      OneOutcome(run, s, t);
    } else {
      var n := |more| - 1;
      var p := StepBefore(run, more, t);
      NoAddAfterWait(run, s, more[..n], p);
      OnlyEndedNext(s, p, more[n]);
    }
  }

  lemma StepBefore(run: seq<Event>, more: seq<Event>, t: State) returns (p: State)
    requires more != [] && Reaches(run + more, t)
    ensures Reaches(run + more[..|more| - 1], p)
    ensures Enabled(p, more[|more| - 1]) && t == Do(p, more[|more| - 1])
  {
    var n, all := |more| - 1, run + more;
    assert all[..|all| - 1] == run + more[..n] && all[|all| - 1] == more[n];
    p :| Reaches(all[..|all| - 1], p) && Enabled(p, more[n]) && t == Do(p, more[n]);
  }

  lemma OnlyEndedNext(s: State, p: State, e: Event)
    requires OnlyEnded(s, p) && Enabled(p, e)
    ensures OnlyEnded(s, Do(p, e))
  {
  }

  /** Between two Deleted events of a Pod each container is started at most once, and once
      the loop is back at the watch every unfiltered container of a tracked Pod was started. */
  lemma StartedExactlyOnce(run: seq<Event>, s: State)
    requires Reaches(run, s)
    ensures forall i, j :: 0 <= i < j < |s.streams| ==> !SameStart(s.streams[i], s.streams[j])
    ensures s.main.Watching? ==>
              forall pod, k | pod in s.tracked && 0 <= k < |s.tracked[pod]| ::
                Filtered(s.tracked[pod][k]) || HasStream(s, pod, s.tracked[pod][k])
  {
    RunKeeps(run, s);
  }

  // What the watch events say, and what is followed.

  /** The watch reports the Pod in a phase in which it has logs. */
  predicate Ready(e: Event, pod: string)
  {
    e.Updated? && e.pod.name == pod && e.pod.phase.Readable?
  }

  /** A ready Pod was reported, and not deleted since. */
  ghost predicate ReadyAt(run: seq<Event>, pod: string, i: nat)
  {
    i < |run| && Ready(run[i], pod) && forall j :: i < j < |run| ==> run[j] != Deleted(pod)
  }

  ghost predicate Present(run: seq<Event>, pod: string)
  {
    exists i: nat :: ReadyAt(run, pod, i)
  }

  lemma PresentNext(run: seq<Event>, e: Event, pod: string)
    ensures Present(run + [e], pod) <==> Ready(e, pod) || (Present(run, pod) && e != Deleted(pod))
  {
    var all := run + [e];
    if Ready(e, pod) {
      assert ReadyAt(all, pod, |run|);
    }
    if Present(run, pod) && e != Deleted(pod) {
      var i: nat :| ReadyAt(run, pod, i);
      assert ReadyAt(all, pod, i);
    }
    if Present(all, pod) && !Ready(e, pod) {
      var i: nat :| ReadyAt(all, pod, i);
      assert all[|run|] == e && i < |run|;
      assert forall j :: i < j < |run| ==> run[j] == all[j];
      assert ReadyAt(run, pod, i);
    }
  }

  /** A Pod is tracked exactly when it was reported ready and not deleted since. */
  lemma {:induction false} TrackedIff(run: seq<Event>, s: State, pod: string)
    requires Reaches(run, s)
    ensures pod in s.tracked <==> Present(run, pod)
  {
    if run != [] {
      var n := |run| - 1;
      var p := LastStep(run, s);
      TrackedIff(run[..n], p, pod);
      TrackedStep(p, run[n], pod);
      assert run == run[..n] + [run[n]];
      PresentNext(run[..n], run[n], pod);
    } else {
      assert !Present(run, pod);
    }
  }

  lemma LastStep(run: seq<Event>, s: State) returns (p: State)
    requires run != [] && Reaches(run, s)
    ensures Reaches(run[..|run| - 1], p) && Enabled(p, run[|run| - 1]) && s == Do(p, run[|run| - 1])
  {
    p :| Reaches(run[..|run| - 1], p) && Enabled(p, run[|run| - 1]) && s == Do(p, run[|run| - 1]);
  }

  lemma TrackedStep(s: State, e: Event, pod: string)
    requires Enabled(s, e)
    ensures pod in Do(s, e).tracked <==> Ready(e, pod) || (pod in s.tracked && e != Deleted(pod))
    ensures pod in s.tracked && e != Deleted(pod) ==> Do(s, e).tracked[pod] == s.tracked[pod]
    ensures pod !in s.tracked && Ready(e, pod) ==> Do(s, e).tracked[pod] == e.pod.containers
  {
  }

  /** The report that made the Pod tracked: later ones change nothing. */
  ghost predicate FirstReadyAt(run: seq<Event>, pod: string, i: nat)
  {
    ReadyAt(run, pod, i) && !Present(run[..i], pod)
  }

  lemma {:induction false} TrackedContainers(run: seq<Event>, s: State, pod: string, i: nat)
    requires Reaches(run, s) && FirstReadyAt(run, pod, i)
    ensures pod in s.tracked && s.tracked[pod] == run[i].pod.containers
  {
    var n := |run| - 1;
    var p := LastStep(run, s);
    TrackedStep(p, run[n], pod);
    if i < n {
      FirstReadyEarlier(run, pod, i);
      TrackedContainers(run[..n], p, pod, i);
    } else {
      TrackedIff(run[..n], p, pod);
    }
  }

  lemma FirstReadyEarlier(run: seq<Event>, pod: string, i: nat)
    requires FirstReadyAt(run, pod, i) && i < |run| - 1
    ensures FirstReadyAt(run[..|run| - 1], pod, i) && run[|run| - 1] != Deleted(pod)
  {
    assert run[..|run| - 1][..i] == run[..i];
  }

  /** Each stream follows a container of a Pod that was reported ready, and none of Istio's. */
  ghost predicate Reported(run: seq<Event>, pod: string, container: string)
  {
    exists i :: 0 <= i < |run| && Ready(run[i], pod) && container in run[i].pod.containers
  }

  ghost predicate OriginOk(run: seq<Event>, s: State)
  {
    && (s.main.Spawning? ==> exists i :: 0 <= i < |run| && run[i] == Updated(s.main.pod) && s.main.pod.phase.Readable?)
    && (forall k :: 0 <= k < |s.streams| ==> Reported(run, s.streams[k].pod, s.streams[k].container))
    && (s.main.Failing? || (s.main.Returned? && !s.errsClosed) ==> WatchFailed in run)
  }

  lemma ReportedNext(run: seq<Event>, e: Event, pod: string, container: string)
    requires Reported(run, pod, container)
    ensures Reported(run + [e], pod, container)
  {
    var i :| 0 <= i < |run| && Ready(run[i], pod) && container in run[i].pod.containers;
    assert (run + [e])[i] == run[i];
  }

  lemma OriginNext(run: seq<Event>, s: State, e: Event)
    requires OriginOk(run, s) && Enabled(s, e)
    ensures OriginOk(run + [e], Do(s, e))
  {
    var all, t := run + [e], Do(s, e);
    assert all[|run|] == e && forall i :: 0 <= i < |run| ==> all[i] == run[i];
    forall k | 0 <= k < |t.streams| ensures Reported(all, t.streams[k].pod, t.streams[k].container) {
      if k < |s.streams| {
        ReportedNext(run, e, s.streams[k].pod, s.streams[k].container);
      } else {
        var i :| 0 <= i < |run| && run[i] == Updated(s.main.pod) && s.main.pod.phase.Readable?;
        assert Ready(all[i], t.streams[k].pod) && t.streams[k].container in all[i].pod.containers;
      }
    }
  }

  lemma {:induction false} OriginKeeps(run: seq<Event>, s: State)
    requires Reaches(run, s)
    ensures OriginOk(run, s)
  {
    if run != [] {
      var n := |run| - 1;
      var p := LastStep(run, s);
      OriginKeeps(run[..n], p);
      OriginNext(run[..n], p, run[n]);
      assert run == run[..n] + [run[n]];
    }
  }

  /** What is followed, from the watch events alone: back at the watch, every container of a Pod
      that is ready and not deleted since has its stream, except Istio's two, which never have one;
      and every stream follows a container that was reported by a ready Pod. */
  lemma FollowsReadyPods(run: seq<Event>, s: State, pod: string, i: nat, container: string)
    requires Reaches(run, s)
    ensures (&& s.main.Watching? && FirstReadyAt(run, pod, i) && container in run[i].pod.containers
             && container != "istio-proxy" && container != "istio-init") ==> HasStream(s, pod, container)
    ensures forall k :: 0 <= k < |s.streams| ==>
              && Reported(run, s.streams[k].pod, s.streams[k].container)
              && s.streams[k].container != "istio-proxy" && s.streams[k].container != "istio-init"
  {
    OriginKeeps(run, s);
    StartedExactlyOnce(run, s);
    RunKeeps(run, s);
    forall k | 0 <= k < |s.streams| ensures !Filtered(s.streams[k].container) {
      assert StartOk(s, k);
    }
    if FirstReadyAt(run, pod, i) && container in run[i].pod.containers {
      TrackedContainers(run, s, pod, i);
    }
  }

  /** Unless the watch could not be opened, both channels are closed when the call returns, and no
      stream is left. */
  lemma ReturnsClosed(run: seq<Event>, s: State)
    requires Reaches(run, s) && s.main.Returned? && WatchFailed !in run
    ensures s.linesClosed && s.errsClosed && LiveCount(s.streams) == 0
  {
    OriginKeeps(run, s);
    RunKeeps(run, s);
  }
}
