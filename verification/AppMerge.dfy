/** pkg/kf/apps/push.go, mergeApps: a pushed App takes over the state of the stored one. */
module AppMerge {
  import opened Common
  import opened EnvVars

  /** The name of the SourcePackage a Build reads; `push` generates it from the App's name
      and the Build's update number. */
  datatype PackageName = NoPackage | Given(text: string) | Generated(app: string, number: int)

  datatype Container = Container(env: seq<EnvVar>, requests: map<string, int>)

  /** `rest` stands for the parts of the spec that a push simply replaces. */
  datatype App = App(
    name: string,
    version: nat,
    template: int,
    build: int,
    package: PackageName,
    routes: seq<string>,
    replicas: Option<int>,
    containers: seq<Container>,
    rest: string)

  /** `scaled`: the user set a replica count; `defaultRoutes`: the routes are generated. */
  datatype PushConfig = PushConfig(scaled: bool, defaultRoutes: bool)

  function Env(app: App): (r: seq<EnvVar>)
  {
    if app.containers == [] then [] else app.containers[0].env
  }

  function Requests(app: App): (r: map<string, int>)
  {
    if app.containers == [] then map[] else app.containers[0].requests
  }

  function MergedReplicas(cfg: PushConfig, pushed: App, stored: App): Option<int>
  {
    if cfg.scaled then pushed.replicas else if stored.replicas.None? then Some(1) else stored.replicas
  }

  /** An old App without a container cannot take the new requests over, and loses them. */
  function MergedRequests(pushed: App, stored: App): map<string, int>
  {
    if stored.containers == [] then map[] else Requests(stored) + Requests(pushed)
  }

  function MergedContainers(pushed: App, stored: App): (r: seq<Container>)
    ensures r != []
  {
    var first := Container(Canonical(Env(stored) + Env(pushed)), MergedRequests(pushed, stored));
    if pushed.containers == [] then [first] else [first] + pushed.containers[1..]
  }

  function MergeOf(cfg: PushConfig, pushed: App, stored: App): (r: App)
  {
    App(pushed.name, stored.version, stored.template + 1, stored.build + 1,
        if pushed.package.NoPackage? then NoPackage else Generated(pushed.name, stored.build + 1),
        if stored.routes != [] && cfg.defaultRoutes then stored.routes else pushed.routes,
        MergedReplicas(cfg, pushed, stored),
        MergedContainers(pushed, stored),
        pushed.rest)
  }

  /** Replaces the requests of the first container, if there is one. */
  function WithRequests(containers: seq<Container>, l: map<string, int>): (r: seq<Container>)
    ensures |r| == |containers|
  {
    if containers == [] then [] else containers[0 := containers[0].(requests := l)]
  }

  lemma WithRequestsTwice(containers: seq<Container>, l: map<string, int>, m: map<string, int>)
    ensures WithRequests(WithRequests(containers, l), m) == WithRequests(containers, m)
    ensures containers != [] ==> WithRequests(containers, containers[0].requests) == containers
  {
  }

  class Object {
    var name: string
    var version: nat
    var template: int
    var build: int
    var package: PackageName
    var routes: seq<string>
    var replicas: Option<int>
    var containers: seq<Container>
    var rest: string

    function View(): (v: App)
      reads this
    {
      App(name, version, template, build, package, routes, replicas, containers, rest)
    }

    method SetAppEnvVars(env: seq<EnvVar>)
      modifies this`containers
      ensures containers == [Container(env, Requests(old(View())))] +
                            (if old(containers) == [] then [] else old(containers)[1..])
    {
      if |containers| == 0 {
        containers := [Container([], map[])];
      }
      containers := containers[0 := containers[0].(env := env)];
    }

    method SetResourceRequest(k: string, v: int)
      modifies this`containers
      ensures containers == WithRequests(old(containers), Requests(old(View()))[k := v])
    {
      if |containers| == 0 {
        return;
      }
      containers := containers[0 := containers[0].(requests := containers[0].requests[k := v])];
    }

    method SetResources(l: map<string, int>)
      modifies this`containers
      ensures containers == WithRequests(old(containers), l)
    {
      if |containers| == 0 {
        return;
      }
      containers := containers[0 := containers[0].(requests := l)];
    }
  }

  /** The updates that are no longer to do. */
  ghost function Done(updates: map<string, int>, todo: set<string>): map<string, int>
  {
    map k | k in updates && k !in todo :: updates[k]
  }

  lemma OneMoreDone(start: map<string, int>, updates: map<string, int>, todo: set<string>, k: string)
    requires k in todo && todo <= updates.Keys
    ensures start + Done(updates, todo - {k}) == (start + Done(updates, todo))[k := updates[k]]
  {
  }

  /** Writes the new requests into the old App, one key after the other in any order. */
  method OverwriteRequests(app: Object, updates: map<string, int>)
    modifies app`containers
    ensures app.containers == WithRequests(old(app.containers), Requests(old(app.View())) + updates)
  {
    ghost var was, start := app.containers, Requests(app.View());
    var todo := updates.Keys;
    assert start + Done(updates, todo) == start;
    WithRequestsTwice(was, start, start);
    while todo != {}
      modifies app`containers
      invariant todo <= updates.Keys
      invariant app.containers == WithRequests(was, start + Done(updates, todo))
      decreases |todo|
    {
      var k :| k in todo;
      OneMoreDone(start, updates, todo, k);
      WithRequestsTwice(was, start + Done(updates, todo), start + Done(updates, todo - {k}));
      app.SetResourceRequest(k, updates[k]);
      todo := todo - {k};
    }
    assert Done(updates, todo) == updates;
  }

  /** An App whose first container, if it has one, takes new requests over. */
  function Overwritten(app: App, updates: map<string, int>): (r: App)
  {
    app.(containers := WithRequests(app.containers, Requests(app) + updates))
  }

  /** The merge changes both of its arguments: the new App ends up as the merged one, the old
      one with the new requests. */
  method MergeApps(cfg: PushConfig, newapp: Object, oldapp: Object)
    requires newapp != oldapp
    modifies newapp, oldapp
    ensures newapp.View() == MergeOf(cfg, old(newapp.View()), old(oldapp.View()))
    ensures oldapp.View() == Overwritten(old(oldapp.View()), Requests(old(newapp.View())))
  {
    MergeFields(cfg, newapp, oldapp);
    MergeContainers(newapp, oldapp);
  }

  /** Counters, package name, routes, scaling and version. */
  method MergeFields(cfg: PushConfig, newapp: Object, oldapp: Object)
    requires newapp != oldapp
    modifies newapp
    ensures newapp.View() == MergeOf(cfg, old(newapp.View()), oldapp.View()).(containers := old(newapp.containers))
  {
    newapp.template := oldapp.template + 1;
    newapp.build := oldapp.build + 1;
    if !newapp.package.NoPackage? {
      newapp.package := Generated(newapp.name, newapp.build);
    }
    if |oldapp.routes| > 0 && cfg.defaultRoutes {
      newapp.routes := oldapp.routes;
    }
    if !cfg.scaled {
      newapp.replicas := oldapp.replicas;
    }
    if !cfg.scaled && oldapp.replicas.None? {
      newapp.replicas := Some(1);
    }
    newapp.version := oldapp.version;
  }

  /** The environment and the resource requests. */
  method MergeContainers(newapp: Object, oldapp: Object)
    requires newapp != oldapp
    modifies newapp`containers, oldapp`containers
    ensures newapp.containers == MergedContainers(old(newapp.View()), old(oldapp.View()))
    ensures oldapp.View() == Overwritten(old(oldapp.View()), Requests(old(newapp.View())))
  {
    ghost var new0, old0 := newapp.View(), oldapp.View();
    var newEnvs, oldEnvs := Env(newapp.View()), Env(oldapp.View());
    var envs := DeduplicateEnvVars(oldEnvs + newEnvs);
    newapp.SetAppEnvVars(envs);
    var updates := Requests(newapp.View());
    assert updates == Requests(new0) && newapp.containers == [Container(envs, updates)] + Tail(new0.containers);
    OverwriteRequests(oldapp, updates);
    assert Requests(oldapp.View()) == MergedRequests(new0, old0);
    newapp.SetResources(Requests(oldapp.View()));
    MergedShape(new0, old0);
    assert newapp.containers == [Container(envs, MergedRequests(new0, old0))] + Tail(new0.containers);
  }

  // Retries: a conflicting update merges the already merged App once more.

  /** The pushed App after merging it with every version read so far. */
  function Retried(cfg: PushConfig, pushed: App, versions: seq<App>): (r: App)
  {
    if versions == [] then pushed
    else MergeOf(cfg, Retried(cfg, pushed, versions[..|versions| - 1]), versions[|versions| - 1])
  }

  lemma MergedEnv(cfg: PushConfig, pushed: App, stored: App)
    ensures NameSorted(Env(MergeOf(cfg, pushed, stored)))
    ensures ToMap(Env(MergeOf(cfg, pushed, stored))) == ToMap(Env(stored)) + ToMap(Env(pushed))
  {
    CanonicalMap(Env(stored) + Env(pushed));
    ToMapConcat(Env(stored), Env(pushed));
  }

  /** However many conflicts there were: the counters and the version follow the last version
      read, a replica count that the user did not set is kept, or 1 if there was none, generated
      routes give way to existing ones, every pushed variable has its pushed value, every variable of the last version
      read is there, and the environment is strictly sorted by name. */
  lemma {:induction false} RetriedPush(cfg: PushConfig, pushed: App, versions: seq<App>)
    requires versions != []
    ensures var r, last := Retried(cfg, pushed, versions), versions[|versions| - 1];
      && r.template == last.template + 1 && r.build == last.build + 1 && r.version == last.version
      && r.name == pushed.name && r.rest == pushed.rest
      && (r.package == if pushed.package.NoPackage? then NoPackage else Generated(pushed.name, last.build + 1))
      && (cfg.scaled ==> r.replicas == pushed.replicas)
      && (!cfg.scaled && last.replicas.Some? ==> r.replicas == last.replicas)
      && (!cfg.scaled && last.replicas.None? ==> r.replicas == Some(1))
      && (cfg.defaultRoutes && last.routes != [] ==> r.routes == last.routes)
      && (!cfg.defaultRoutes ==> r.routes == pushed.routes)
      && NameSorted(Env(r))
      && (forall n :: n in ToMap(Env(pushed)) ==> n in ToMap(Env(r)) && ToMap(Env(r))[n] == ToMap(Env(pushed))[n])
      && (forall n :: n in ToMap(Env(last)) ==> n in ToMap(Env(r)))
  {
    var k := |versions| - 1;
    MergedEnv(cfg, Retried(cfg, pushed, versions[..k]), versions[k]);
    if k > 0 {
      RetriedPush(cfg, pushed, versions[..k]);
    }
  }

  /** `stale` adds nothing to an update of `latest` by `pushed`. */
  predicate Harmless<V(==)>(stale: map<string, V>, latest: map<string, V>, pushed: map<string, V>)
  {
    forall k :: k in stale && k !in pushed ==> k in latest && latest[k] == stale[k]
  }

  lemma HarmlessIff<V>(stale: map<string, V>, latest: map<string, V>, pushed: map<string, V>)
    ensures latest + (stale + pushed) == latest + pushed <==> Harmless(stale, latest, pushed)
  {
    var l, r := latest + (stale + pushed), latest + pushed;
    if l == r {
      forall k | k in stale && k !in pushed ensures k in latest && latest[k] == stale[k] {
        assert k in l && l[k] == stale[k];
      }
    }
    if Harmless(stale, latest, pushed) {
      assert l == r;
    }
  }

  /** Two maps agree on the keys they share. */
  predicate Agree<V(==)>(a: map<string, V>, b: map<string, V>)
  {
    forall k :: k in a && k in b ==> a[k] == b[k]
  }

  lemma ExchangeIff<V>(latest: map<string, V>, a: map<string, V>, b: map<string, V>)
    ensures latest + a == latest + b <==> Agree(a, b) && Harmless(a, latest, b) && Harmless(b, latest, a)
  {
    var l, r := latest + a, latest + b;
    if l == r {
      forall k | k in a ensures if k in b then a[k] == b[k] else k in latest && latest[k] == a[k] {
        assert k in l && l[k] == a[k];
      }
      forall k | k in b && k !in a ensures k in latest && latest[k] == b[k] {
        assert k in r && r[k] == b[k];
      }
    }
    if Agree(a, b) && Harmless(a, latest, b) && Harmless(b, latest, a) {
      assert l == r;
    }
  }

  // What the versions read by losing updates leave behind in the new App.

  /** Variables: the earliest read wins. */
  function StaleEnv(versions: seq<App>): (r: map<string, string>)
  {
    if versions == [] then map[]
    else ToMap(Env(versions[|versions| - 1])) + StaleEnv(versions[..|versions| - 1])
  }

  /** Requests: the earliest read wins, since the last version without a container. */
  function StaleRequests(versions: seq<App>): (r: map<string, int>)
  {
    if versions == [] || versions[|versions| - 1].containers == [] then map[]
    else Requests(versions[|versions| - 1]) + StaleRequests(versions[..|versions| - 1])
  }

  /** A version without a container makes the push lose its own requests. */
  predicate RequestsLost(versions: seq<App>)
  {
    exists i :: 0 <= i < |versions| && versions[i].containers == []
  }

  /** Routes: the last version that has some. */
  function StaleRoutes(versions: seq<App>): (r: seq<string>)
  {
    if versions == [] then []
    else if versions[|versions| - 1].routes != [] then versions[|versions| - 1].routes
    else StaleRoutes(versions[..|versions| - 1])
  }

  /** Nothing that stale versions leave behind shows against the version `latest`. */
  predicate RetriesHarmless(cfg: PushConfig, pushed: App, versions: seq<App>, latest: App)
  {
    && Harmless(StaleEnv(versions), ToMap(Env(latest)), ToMap(Env(pushed)))
    && (latest.containers != [] ==>
          && Harmless(StaleRequests(versions), Requests(latest), Requests(pushed))
          && (RequestsLost(versions) ==>
                && Agree(StaleRequests(versions), Requests(pushed))
                && Harmless(Requests(pushed), Requests(latest), StaleRequests(versions))))
    && (cfg.defaultRoutes && latest.routes == [] ==>
          StaleRoutes(versions) == [] || StaleRoutes(versions) == pushed.routes)
  }

  lemma {:induction false} RetriedEnv(cfg: PushConfig, pushed: App, versions: seq<App>)
    ensures ToMap(Env(Retried(cfg, pushed, versions))) == StaleEnv(versions) + ToMap(Env(pushed))
  {
    if versions == [] {
      assert map[] + ToMap(Env(pushed)) == ToMap(Env(pushed));
    } else {
      var k := |versions| - 1;
      RetriedEnv(cfg, pushed, versions[..k]);
      MergedEnv(cfg, Retried(cfg, pushed, versions[..k]), versions[k]);
      RegroupMaps(ToMap(Env(versions[k])), StaleEnv(versions[..k]), ToMap(Env(pushed)));
    }
  }

  lemma RegroupMaps<V>(a: map<string, V>, b: map<string, V>, c: map<string, V>)
    ensures a + (b + c) == (a + b) + c
  {
  }

  lemma RequestsMerged(cfg: PushConfig, pushed: App, stored: App)
    ensures Requests(MergeOf(cfg, pushed, stored)) ==
            if stored.containers == [] then map[] else Requests(stored) + Requests(pushed)
  {
  }

  lemma LostNext(versions: seq<App>)
    requires versions != []
    ensures RequestsLost(versions) <==>
            versions[|versions| - 1].containers == [] || RequestsLost(versions[..|versions| - 1])
  {
    var k := |versions| - 1;
    if RequestsLost(versions[..k]) {
      var i :| 0 <= i < k && versions[..k][i].containers == [];
      assert versions[i].containers == [];
    }
    if RequestsLost(versions) && versions[k].containers != [] {
      var i :| 0 <= i < |versions| && versions[i].containers == [];
      assert versions[..k][i].containers == [];
    }
  }

  lemma {:induction false} RetriedRequests(cfg: PushConfig, pushed: App, versions: seq<App>)
    ensures Requests(Retried(cfg, pushed, versions)) ==
            StaleRequests(versions) + (if RequestsLost(versions) then map[] else Requests(pushed))
  {
    if versions == [] {
      assert map[] + Requests(pushed) == Requests(pushed);
    } else {
      var k := |versions| - 1;
      var own := if RequestsLost(versions[..k]) then map[] else Requests(pushed);
      RetriedRequests(cfg, pushed, versions[..k]);
      RequestsMerged(cfg, Retried(cfg, pushed, versions[..k]), versions[k]);
      LostNext(versions);
      RegroupMaps(Requests(versions[k]), StaleRequests(versions[..k]), own);
    }
  }

  function Tail(containers: seq<Container>): (r: seq<Container>)
  {
    if containers == [] then [] else containers[1..]
  }

  /** What a retried merge takes from the pushed App whatever was read. */
  lemma {:induction false} RetriedRest(cfg: PushConfig, pushed: App, versions: seq<App>)
    ensures var r := Retried(cfg, pushed, versions);
      && r.name == pushed.name && r.rest == pushed.rest
      && r.package.NoPackage? == pushed.package.NoPackage?
      && (cfg.scaled ==> r.replicas == pushed.replicas)
      && Tail(r.containers) == Tail(pushed.containers)
      && r.routes == if cfg.defaultRoutes && StaleRoutes(versions) != [] then StaleRoutes(versions) else pushed.routes
  {
    if versions != [] {
      RetriedRest(cfg, pushed, versions[..|versions| - 1]);
    }
  }

  lemma RetriesEnvIff(cfg: PushConfig, pushed: App, versions: seq<App>, latest: App)
    ensures Env(MergeOf(cfg, Retried(cfg, pushed, versions), latest)) == Env(MergeOf(cfg, pushed, latest))
       <==> Harmless(StaleEnv(versions), ToMap(Env(latest)), ToMap(Env(pushed)))
  {
    var merged := Retried(cfg, pushed, versions);
    RetriedEnv(cfg, pushed, versions);
    CanonicalEqual(Env(latest) + Env(merged), Env(latest) + Env(pushed));
    ToMapConcat(Env(latest), Env(merged));
    ToMapConcat(Env(latest), Env(pushed));
    HarmlessIff(StaleEnv(versions), ToMap(Env(latest)), ToMap(Env(pushed)));
  }

  lemma RetriesRequestsIff(cfg: PushConfig, pushed: App, versions: seq<App>, latest: App)
    requires latest.containers != []
    ensures var stale := StaleRequests(versions);
      Requests(MergeOf(cfg, Retried(cfg, pushed, versions), latest)) == Requests(MergeOf(cfg, pushed, latest))
      <==> && Harmless(stale, Requests(latest), Requests(pushed))
           && (RequestsLost(versions) ==>
                 Agree(stale, Requests(pushed)) && Harmless(Requests(pushed), Requests(latest), stale))
  {
    var stale, l, n := StaleRequests(versions), Requests(latest), Requests(pushed);
    RetriedRequests(cfg, pushed, versions);
    RequestsMerged(cfg, Retried(cfg, pushed, versions), latest);
    RequestsMerged(cfg, pushed, latest);
    StaleOverIff(stale, l, n, RequestsLost(versions));
  }

  lemma StaleOverIff<V>(stale: map<string, V>, latest: map<string, V>, pushed: map<string, V>, lost: bool)
    ensures latest + (stale + (if lost then map[] else pushed)) == latest + pushed
       <==> && Harmless(stale, latest, pushed)
            && (lost ==> Agree(stale, pushed) && Harmless(pushed, latest, stale))
  {
    HarmlessIff(stale, latest, pushed);
    ExchangeIff(latest, stale, pushed);
    assert stale + map[] == stale;
  }

  /** After any number of conflicts, a retried merge is one merge against the latest version
      exactly when nothing stale shows through: every variable and request that the losing
      reads contributed is either pushed or the same in the latest version, no pushed request
      was lost to a version without a container, and no stale routes were taken over for good. */
  lemma RetriesAreOneMergeIff(cfg: PushConfig, pushed: App, versions: seq<App>, latest: App)
    ensures Retried(cfg, pushed, versions + [latest]) == MergeOf(cfg, pushed, latest)
       <==> RetriesHarmless(cfg, pushed, versions, latest)
  {
    assert (versions + [latest])[..|versions|] == versions;
    var merged := Retried(cfg, pushed, versions);
    var l, r := MergeOf(cfg, merged, latest), MergeOf(cfg, pushed, latest);
    RetriedRest(cfg, pushed, versions);
    RetriesEnvIff(cfg, pushed, versions, latest);
    if latest.containers != [] {
      RetriesRequestsIff(cfg, pushed, versions, latest);
    }
    SameContainers(cfg, merged, pushed, latest);
  }

  lemma SameContainers(cfg: PushConfig, a: App, b: App, stored: App)
    requires Tail(a.containers) == Tail(b.containers)
    ensures MergedContainers(a, stored) == MergedContainers(b, stored)
       <==> Env(MergeOf(cfg, a, stored)) == Env(MergeOf(cfg, b, stored))
            && Requests(MergeOf(cfg, a, stored)) == Requests(MergeOf(cfg, b, stored))
  {
    MergedShape(a, stored);
    MergedShape(b, stored);
  }

  lemma MergedShape(pushed: App, stored: App)
    ensures MergedContainers(pushed, stored) ==
            [Container(Canonical(Env(stored) + Env(pushed)), MergedRequests(pushed, stored))] + Tail(pushed.containers)
  {
  }

  /** Two versions that agree on everything a merge reads besides counters and replicas. */
  predicate SameForMerge(a: App, b: App)
  {
    ToMap(Env(a)) == ToMap(Env(b)) && Requests(a) == Requests(b) && a.routes == b.routes
    && a.containers != [] && b.containers != []
  }

  lemma {:induction false} SameStale(versions: seq<App>, latest: App)
    requires forall i :: 0 <= i < |versions| ==> SameForMerge(versions[i], latest)
    ensures StaleEnv(versions) == if versions == [] then map[] else ToMap(Env(latest))
    ensures StaleRequests(versions) == if versions == [] then map[] else Requests(latest)
    ensures !RequestsLost(versions) && (latest.routes == [] ==> StaleRoutes(versions) == [])
  {
    if versions != [] {
      var k := |versions| - 1;
      SameStale(versions[..k], latest);
      assert SameForMerge(versions[k], latest);
      SameTwice(ToMap(Env(latest)));
      SameTwice(Requests(latest));
      assert forall i :: 0 <= i < |versions| ==> versions[i].containers != [];
    }
  }

  lemma SameTwice<V>(m: map<string, V>)
    ensures m + m == m && m + map[] == m
  {
  }

  /** If the conflicting writers left env, requests and routes alone and the App has a
      container, any number of retries comes out as one merge against the latest version. */
  lemma RetriesAreOneMerge(cfg: PushConfig, pushed: App, versions: seq<App>, latest: App)
    requires forall i :: 0 <= i < |versions| ==> SameForMerge(versions[i], latest)
    ensures Retried(cfg, pushed, versions + [latest]) == MergeOf(cfg, pushed, latest)
  {
    SameStale(versions, latest);
    RetriesAreOneMergeIff(cfg, pushed, versions, latest);
  }

  /** In general it does not: a variable that a concurrent `unset-env` removed comes back. */
  lemma RetryRevivesRemovedVariable() returns (cfg: PushConfig, pushed: App, stale: App, latest: App)
    ensures Env(latest) == [] && Env(pushed) == []
    ensures ToMap(Env(MergeOf(cfg, MergeOf(cfg, pushed, stale), latest))) == map["A" := "1"]
    ensures ToMap(Env(MergeOf(cfg, pushed, latest))) == map[]
  {
    cfg := PushConfig(false, false);
    pushed := App("app", 0, 0, 0, NoPackage, [], None, [], "");
    stale := App("app", 1, 1, 1, NoPackage, [], None, [Container([EnvVar("A", "1")], map[])], "");
    latest := App("app", 2, 1, 1, NoPackage, [], None, [Container([], map[])], "");
    MergedEnv(cfg, pushed, stale);
    MergedEnv(cfg, MergeOf(cfg, pushed, stale), latest);
    MergedEnv(cfg, pushed, latest);
    assert ToMap([EnvVar("A", "1")]) == map["A" := "1"];
  }
}
