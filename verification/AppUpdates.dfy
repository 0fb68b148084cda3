/** pkg/kf/apps/zz_generated.client.go: any number of clients run read/modify/write loops
    (Transform for Restart and Restage, Upsert for push) against one stored App. The store
    accepts a write only if it carries the stored version. */
module AppUpdates {
  import opened AppMerge
  import opened Common
  import opened EnvVars

  /** A push remembers the App it was started with, the versions it has read, and the App as
      the failed merges have left it. */
  datatype Operation =
    | Restart
    | Restage
    | Push(cfg: PushConfig, original: App, versions: seq<App>, current: App)

  datatype Client = Idle | Reading(op: Operation) | Writing(op: Operation, read: App)

  /** A committed push: what it started from, what it read, what it replaced and stored. */
  datatype Commit = Commit(cfg: PushConfig, original: App, versions: seq<App>, replaced: App, stored: App)

  datatype State = State(
    store: App,
    clients: map<nat, Client>,
    restarts: nat,
    restages: nat,
    pushes: seq<Commit>)

  datatype Event =
    | Begin(c: nat, op: Operation)
    | Read(c: nat)
    | Write(c: nat)
    | GiveUp(c: nat)
    | Other(app: App)

  function Init(app: App): State
  {
    State(app, map[], 0, 0, [])
  }

  /** What a client sends: the object it read, changed by its operation. */
  function Modified(op: Operation, read: App): (r: App)
  {
    match op
    case Restart => read.(template := read.template + 1)
    case Restage => read.(build := read.build + 1)
    case Push(cfg, _, _, current) => MergeOf(cfg, current, read)
  }

  /** A conflict leaves Transform with nothing and Upsert with the merged App. */
  function Retry(op: Operation, read: App): (r: Operation)
  {
    match op
    case Push(cfg, original, versions, current) =>
      Push(cfg, original, versions + [read], MergeOf(cfg, current, read))
    case _ => op
  }

  ghost predicate Enabled(s: State, e: Event)
  {
    match e
    case Begin(c, op) =>
      && (c in s.clients ==> s.clients[c].Idle?)
      && (op.Push? ==> op.versions == [] && op.current == op.original)
    case Read(c) => c in s.clients && s.clients[c].Reading?
    case Write(c) => c in s.clients && s.clients[c].Writing?
    case GiveUp(c) => c in s.clients
    case Other(app) => app.template == s.store.template && app.build == s.store.build
  }

  function Committed(s: State, op: Operation, sent: App, read: App): (r: State)
  {
    var stored := sent.(version := s.store.version + 1);
    match op
    case Restart => s.(store := stored, restarts := s.restarts + 1)
    case Restage => s.(store := stored, restages := s.restages + 1)
    case Push(cfg, original, versions, _) =>
      s.(store := stored, pushes := s.pushes + [Commit(cfg, original, versions + [read], s.store, stored)])
  }

  /** `Other` is any other writer of the App that leaves the two counters alone. */
  function Do(s: State, e: Event): (r: State)
    requires Enabled(s, e)
  {
    match e
    case Begin(c, op) => s.(clients := s.clients[c := Reading(op)])
    case Read(c) => s.(clients := s.clients[c := Writing(s.clients[c].op, s.store)])
    case Write(c) =>
      var Writing(op, read) := s.clients[c];
      var sent := Modified(op, read);
      if sent.version == s.store.version
      then Committed(s, op, sent, read).(clients := s.clients[c := Idle])
      else s.(clients := s.clients[c := Reading(Retry(op, read))])
    case GiveUp(c) => s.(clients := s.clients[c := Idle])
    case Other(app) => s.(store := app.(version := s.store.version + 1))
  }

  ghost predicate Reaches(start: App, run: seq<Event>, s: State)
  {
    if run == [] then s == Init(start)
    else
      var n := |run| - 1;
      exists p :: Reaches(start, run[..n], p) && Enabled(p, run[n]) && s == Do(p, run[n])
  }

  ghost predicate OpOk(op: Operation)
  {
    op.Push? ==> op.current == Retried(op.cfg, op.original, op.versions)
  }

  /** A client that read the stored version read the stored App. */
  ghost predicate ClientOk(s: State, client: Client)
  {
    match client
    case Idle => true
    case Reading(op) => OpOk(op)
    case Writing(op, read) =>
      OpOk(op) && read.version <= s.store.version && (read.version == s.store.version ==> read == s.store)
  }

  ghost predicate CommitOk(c: Commit)
  {
    && c.versions != [] && c.versions[|c.versions| - 1] == c.replaced
    && c.stored == Retried(c.cfg, c.original, c.versions).(version := c.stored.version)
  }

  ghost predicate Inv(start: App, s: State)
  {
    && s.store.template == start.template + s.restarts + |s.pushes|
    && s.store.build == start.build + s.restages + |s.pushes|
    && (forall c :: c in s.clients ==> ClientOk(s, s.clients[c]))
    && PushesOk(s.pushes, s.store.build)
  }

  /** The committed pushes have ascending build numbers, none past the stored one. */
  ghost predicate PushesOk(pushes: seq<Commit>, build: int)
  {
    && (forall i :: 0 <= i < |pushes| ==> CommitOk(pushes[i]) && pushes[i].stored.build <= build)
    && (forall i, j :: 0 <= i < j < |pushes| ==> pushes[i].stored.build < pushes[j].stored.build)
  }

  lemma PushesNext(pushes: seq<Commit>, build: int, c: Commit)
    requires PushesOk(pushes, build) && CommitOk(c) && build < c.stored.build
    ensures PushesOk(pushes + [c], c.stored.build)
  {
  }

  /** A commit puts the store past every version that other clients have read. */
  lemma ClientsKeep(s: State, r: State, c: nat)
    requires forall d :: d in s.clients ==> ClientOk(s, s.clients[d])
    requires r.store.version == s.store.version + 1 && r.clients == s.clients[c := Idle]
    ensures forall d :: d in r.clients ==> ClientOk(r, r.clients[d])
  {
    forall d | d in r.clients ensures ClientOk(r, r.clients[d]) {
      assert d != c ==> ClientOk(s, s.clients[d]);
    }
  }

  lemma RetriedNext(cfg: PushConfig, original: App, versions: seq<App>, read: App)
    ensures Retried(cfg, original, versions + [read]) == MergeOf(cfg, Retried(cfg, original, versions), read)
  {
    assert (versions + [read])[..|versions|] == versions;
  }

  lemma ConflictKeeps(start: App, s: State, c: nat, op: Operation, read: App)
    requires Inv(start, s) && c in s.clients && s.clients[c] == Writing(op, read)
    ensures Inv(start, s.(clients := s.clients[c := Reading(Retry(op, read))]))
  {
    assert ClientOk(s, s.clients[c]);
    if op.Push? {
      RetriedNext(op.cfg, op.original, op.versions, read);
    }
    var r := s.(clients := s.clients[c := Reading(Retry(op, read))]);
    forall d | d in r.clients ensures ClientOk(r, r.clients[d]) {
      assert d != c ==> ClientOk(s, s.clients[d]);
    }
  }

  lemma CommitKeeps(start: App, s: State, c: nat, op: Operation, read: App)
    requires Inv(start, s) && c in s.clients && s.clients[c] == Writing(op, read)
    requires Modified(op, read).version == s.store.version
    ensures Inv(start, Committed(s, op, Modified(op, read), read).(clients := s.clients[c := Idle]))
  {
    assert ClientOk(s, s.clients[c]) && read == s.store;
    var r := Committed(s, op, Modified(op, read), read).(clients := s.clients[c := Idle]);
    ClientsKeep(s, r, c);
    if op.Push? {
      RetriedNext(op.cfg, op.original, op.versions, read);
      PushesNext(s.pushes, s.store.build, Commit(op.cfg, op.original, op.versions + [read], s.store, r.store));
    }
  }

  lemma WriteKeeps(start: App, s: State, c: nat)
    requires Inv(start, s) && Enabled(s, Write(c))
    ensures Inv(start, Do(s, Write(c)))
  {
    var Writing(op, read) := s.clients[c];
    if Modified(op, read).version == s.store.version {
      CommitKeeps(start, s, c, op, read);
    } else {
      ConflictKeeps(start, s, c, op, read);
    }
  }

  lemma StepKeeps(start: App, s: State, e: Event)
    requires Inv(start, s) && Enabled(s, e)
    ensures Inv(start, Do(s, e))
  {
    if e.Write? {
      WriteKeeps(start, s, e.c);
    } else {
      var r := Do(s, e);
      forall d | d in r.clients ensures ClientOk(r, r.clients[d]) {
        assert d in s.clients ==> ClientOk(s, s.clients[d]);
      }
    }
  }

  lemma {:induction false} RunKeeps(start: App, run: seq<Event>, s: State)
    requires Reaches(start, run, s)
    ensures Inv(start, s)
  {
    if run != [] {
      var n := |run| - 1;
      var p :| Reaches(start, run[..n], p) && Enabled(p, run[n]) && s == Do(p, run[n]);
      RunKeeps(start, run[..n], p);
      StepKeeps(start, p, run[n]);
    }
  }

  /** No increment is lost in any interleaving: the template counter has grown by exactly the
      committed Restarts and pushes, the build counter by the committed Restages and pushes,
      and no two committed pushes have the same build number. */
  lemma NoUpdateIsLost(start: App, run: seq<Event>, s: State)
    requires Reaches(start, run, s)
    ensures s.store.template == start.template + s.restarts + |s.pushes|
    ensures s.store.build == start.build + s.restages + |s.pushes|
    ensures forall i, j :: 0 <= i < j < |s.pushes| ==> s.pushes[i].stored.build < s.pushes[j].stored.build
  {
    RunKeeps(start, run, s);
  }

  /** What a push commits, after any number of conflicts, is its original App merged with the
      versions it read, the last one being the version it replaces: its variables win, no
      variable of the replaced version is missing, and the list is strictly name-sorted. */
  lemma CommittedPush(start: App, run: seq<Event>, s: State, i: nat)
    requires Reaches(start, run, s) && i < |s.pushes|
    ensures var c := s.pushes[i];
      && c.stored.build == c.replaced.build + 1 && c.stored.template == c.replaced.template + 1
      && c.stored.name == c.original.name && c.stored.rest == c.original.rest
      && (c.cfg.scaled ==> c.stored.replicas == c.original.replicas)
      && (!c.cfg.scaled && c.replaced.replicas.Some? ==> c.stored.replicas == c.replaced.replicas)
      && (!c.cfg.scaled && c.replaced.replicas.None? ==> c.stored.replicas == Some(1))
      && (c.cfg.defaultRoutes && c.replaced.routes != [] ==> c.stored.routes == c.replaced.routes)
      && (!c.cfg.defaultRoutes ==> c.stored.routes == c.original.routes)
      && NameSorted(Env(c.stored))
      && (forall n :: n in ToMap(Env(c.original)) ==>
            n in ToMap(Env(c.stored)) && ToMap(Env(c.stored))[n] == ToMap(Env(c.original))[n])
      && (forall n :: n in ToMap(Env(c.replaced)) ==> n in ToMap(Env(c.stored)))
  {
    RunKeeps(start, run, s);
    var c := s.pushes[i];
    assert CommitOk(c);
    RetriedPush(c.cfg, c.original, c.versions);
  }

  /** In any run, a committed push is one merge of its original App into the App it replaces
      exactly when nothing from the versions it lost against shows through. */
  lemma CommittedPushIsOneMergeIff(start: App, run: seq<Event>, s: State, i: nat)
    requires Reaches(start, run, s) && i < |s.pushes|
    ensures s.pushes[i].versions != []
    ensures var c := s.pushes[i];
      var stale := c.versions[..|c.versions| - 1];
      c.stored == MergeOf(c.cfg, c.original, c.replaced).(version := c.stored.version)
      <==> RetriesHarmless(c.cfg, c.original, stale, c.replaced)
  {
    RunKeeps(start, run, s);
    var c := s.pushes[i];
    assert CommitOk(c);
    CommitIsOneMergeIff(c, c.versions[..|c.versions| - 1]);
  }

  lemma CommitIsOneMergeIff(c: Commit, stale: seq<App>)
    requires CommitOk(c) && stale == c.versions[..|c.versions| - 1]
    ensures c.stored == MergeOf(c.cfg, c.original, c.replaced).(version := c.stored.version)
       <==> RetriesHarmless(c.cfg, c.original, stale, c.replaced)
  {
    assert c.versions == stale + [c.replaced];
    var r, m := Retried(c.cfg, c.original, stale + [c.replaced]), MergeOf(c.cfg, c.original, c.replaced);
    assert r == m <==> RetriesHarmless(c.cfg, c.original, stale, c.replaced) by {
      RetriesAreOneMergeIff(c.cfg, c.original, stale, c.replaced);
    }
    assert r.version == m.version by {
      RetriedPush(c.cfg, c.original, stale + [c.replaced]);
    }
    SameButVersion(r, m, c.stored.version);
  }

  lemma SameButVersion(a: App, b: App, version: nat)
    requires a.version == b.version
    ensures a.(version := version) == b.(version := version) <==> a == b
  {
  }

  /** Two Apps that differ at most in their version and their two counters. */
  predicate SameBesidesCounters(a: App, b: App)
  {
    a.(version := 0, template := 0, build := 0) == b.(version := 0, template := 0, build := 0)
  }

  /** Restarts and Restages touch nothing but the counters: over any run in which nobody pushes
      and no other writer comes in, whatever the interleaving, the rest of the App stays. */
  lemma {:induction false} OnlyCountersChange(start: App, run: seq<Event>, s: State)
    requires Reaches(start, run, s)
    requires forall i :: 0 <= i < |run| ==> !run[i].Other? && (run[i].Begin? ==> !run[i].op.Push?)
    ensures SameBesidesCounters(start, s.store)
    ensures forall c :: c in s.clients ==> ClientUntouched(start, s.clients[c])
  {
    if run != [] {
      var n := |run| - 1;
      var p :| Reaches(start, run[..n], p) && Enabled(p, run[n]) && s == Do(p, run[n]);
      OnlyCountersChange(start, run[..n], p);
      UntouchedNext(start, p, run[n]);
    }
  }

  /** A client that is not pushing and holds, if anything, an App that differs in counters only. */
  predicate ClientUntouched(start: App, c: Client)
  {
    match c
    case Idle => true
    case Reading(op) => !op.Push?
    case Writing(op, read) => !op.Push? && SameBesidesCounters(start, read)
  }

  lemma UntouchedNext(start: App, s: State, e: Event)
    requires Enabled(s, e) && !e.Other? && (e.Begin? ==> !e.op.Push?) && SameBesidesCounters(start, s.store)
    requires forall c :: c in s.clients ==> ClientUntouched(start, s.clients[c])
    ensures SameBesidesCounters(start, Do(s, e).store)
    ensures forall c :: c in Do(s, e).clients ==> ClientUntouched(start, Do(s, e).clients[c])
  {
  }
}
