/** What the numbers, units and names of a converted application mean. */
module ManifestMeanings {
  import opened Common
  import opened EnvVars
  import opened Manifests

  // Health checks.

  const INT32_MAX := 0x7fff_ffff

  /** The handler is the one the application asked for, and the only one. */
  predicate HandlerFits(app: Application, p: Probe)
  {
    if app.healthCheckType == "http"
    then p.httpGet == Some(HTTPGet(app.healthCheckHTTPEndpoint, false)) && p.tcpSocket.None?
    else p.tcpSocket == Some(TCPSocket(false)) && p.httpGet.None?
  }

  predicate WantsProbe(app: Application)
  {
    app.healthCheckType != "process" && app.healthCheckType != "none"
  }

  /** A check must answer within the configured time, one second by default. */
  predicate AnswersInTime(app: Application, p: Probe)
  {
    app.healthCheckInvocationTimeout <= INT32_MAX ==>
      p.timeoutSeconds == if app.healthCheckInvocationTimeout == 0 then 1 else app.healthCheckInvocationTimeout
  }

  /** During startup an application is checked every two seconds, and has the configured time, one
      minute by default, before it is given up: the failures allowed are the fewest that last as
      long. */
  lemma StartupProbe(app: Application)
    requires AppOk(app) && !HasK8sHealthCheckFields(app)
    ensures ToStartupHealthCheck(app).Ok?
    ensures var probe := ToStartupHealthCheck(app).value;
      && (probe.Some? <==> WantsProbe(app))
      && (probe.Some? ==>
            && HandlerFits(app, probe.value) && AnswersInTime(app, probe.value)
            && probe.value.periodSeconds == 2 && probe.value.successThreshold == 1
            && var allowed := if app.healthCheckTimeout == 0 then 60 else app.healthCheckTimeout;
               (allowed <= INT32_MAX ==>
                  && 2 * probe.value.failureThreshold >= allowed
                  && 2 * (probe.value.failureThreshold - 1) < allowed))
  {
    HealthChecksConvert(app);
  }

  /** Afterwards it is checked every thirty seconds, and one failure is one too many. */
  lemma PostStartupProbe(app: Application)
    requires AppOk(app) && !HasK8sHealthCheckFields(app)
    ensures ToPostStartupHealthCheck(app).Ok?
    ensures var probe := ToPostStartupHealthCheck(app).value;
      && (probe.Some? <==> WantsProbe(app))
      && (probe.Some? ==>
            && HandlerFits(app, probe.value) && AnswersInTime(app, probe.value)
            && probe.value.periodSeconds == 30 && probe.value.successThreshold == 1
            && probe.value.failureThreshold == 1)
  {
    HealthChecksConvert(app);
  }

  /** The probes a valid application set itself are taken over, and are then the only ones. */
  lemma OwnProbesKept(app: Application, resources: Resources, c: Container)
    requires AppOk(app) && IsContainerFor(app, resources, c)
    ensures app.startupProbe.Some? || app.livenessProbe.Some? || app.readinessProbe.Some? ==>
              && c.startupProbe == app.startupProbe && c.livenessProbe == app.livenessProbe
              && c.readinessProbe == app.readinessProbe
              && app.healthCheckType == "" && app.healthCheckHTTPEndpoint == ""
              && app.healthCheckTimeout == 0 && app.healthCheckInvocationTimeout == 0
  {
  }

  /** What a valid application says it runs is what its container runs: nothing that was given is
      dropped for something else that was given. */
  lemma CommandKept(app: Application, resources: Resources, c: Container)
    requires AppOk(app) && IsContainerFor(app, resources, c)
    ensures app.command != "" ==> c.args == [app.command] && c.command == []
    ensures app.command == "" ==> c.args == app.args
    ensures app.entrypoint != "" ==> c.command == [app.entrypoint]
  {
  }

  // Units.

  predicate Blank(s: string)
  {
    forall i :: 0 <= i < |s| ==> Space(s[i])
  }

  /** A text with something in it and no space at either end. */
  predicate Trimmed(s: string)
  {
    s != "" && !Space(s[0]) && !Space(s[|s| - 1])
  }

  lemma {:induction false} TrimLeftIs(pre: string, s: string)
    requires Blank(pre) && (s == "" || !Space(s[0]))
    ensures TrimLeft(pre + s) == s
  {
    if pre == "" {
      assert pre + s == s;
    } else {
      TrimLeftIs(pre[1..], s);
      assert (pre + s)[1..] == pre[1..] + s && (pre + s)[0] == pre[0];
    }
  }

  lemma {:induction false} TrimRightIs(s: string, post: string)
    requires Blank(post) && (s == "" || !Space(s[|s| - 1]))
    ensures TrimRight(s + post) == s
  {
    if post == "" {
      assert s + post == s;
    } else {
      LastOfConcat(s, post);
      TrimRightIs(s, post[..|post| - 1]);
    }
  }

  lemma TrimIs(pre: string, s: string, post: string)
    requires Blank(pre) && Trimmed(s) && Blank(post)
    ensures TrimRight(TrimLeft(pre + s + post)) == s
  {
    Regroup(pre, s, post);
    assert (s + post)[0] == s[0];
    TrimLeftIs(pre, s + post);
    TrimRightIs(s, post);
  }

  predicate CFUnit(u: char)
  {
    u == 'K' || u == 'M' || u == 'G' || u == 'T'
  }

  /** A Cloud Foundry quantity, with or without the B, becomes the binary unit of the same letter. */
  lemma UnitsBecomeBinary(pre: string, digits: string, u: char, b: string, post: string)
    requires Blank(pre) && Blank(post) && CFUnit(u) && (b == "" || b == "B")
    requires digits == "" || !Space(digits[0])
    ensures CFToSIUnits(pre + (digits + [u] + b) + post) == digits + [u] + "i"
  {
    var core := digits + [u];
    assert core[|core| - 1] == u && u in ['T', 'G', 'M', 'K'];
    if b == "" {
      assert core + b == core;
      TrimIs(pre, core, post);
    } else {
      LastOfConcat(core, b);
      assert b[..0] == "" && core + "" == core && (core + b)[0] == core[0];
      TrimIs(pre, core + b, post);
    }
  }

  /** Any other quantity stays as it is, the spaces around it included. */
  lemma OtherUnitsStay(pre: string, s: string, post: string)
    requires Blank(pre) && Trimmed(s) && Blank(post)
    requires !CFUnit(s[|s| - 1]) && (s[|s| - 1] == 'B' && |s| > 1 ==> !CFUnit(s[|s| - 2]))
    ensures CFToSIUnits(pre + s + post) == pre + s + post
  {
    TrimIs(pre, s, post);
  }

  // CPU.

  /** The default is the least number of thousandths of a CPU that is not below the configured
      share for the memory, which is counted in gibibytes. */
  lemma DefaultCPUIs(perGB: real, memory: real) returns (n: int)
    ensures var share := perGB * (memory / 1073741824.0);
      && share <= DefaultCPU(perGB, memory) < share + 0.001
      && DefaultCPU(perGB, memory) == n as real / 1000.0
  {
    var share := perGB * (memory / GIB);
    n := RoundedUp(share * 1000.0);
    assert DefaultCPU(perGB, memory) == Ceil(share * 1000.0) / 1000.0;
  }

  lemma RoundedUp(x: real) returns (n: int)
    ensures Ceil(x) == n as real && x <= n as real < x + 1.0
  {
    n := -((-x).Floor);
  }

  /** The request is what was asked for or the default for the memory, a gibibyte if none was
      asked for, and never below the configured minimum. */
  lemma CPURequestIs(app: Application, config: RuntimeConfig, parse: Parser)
    requires Readable(parse, app.cpu) && Readable(parse, CFToSIUnits(app.memory))
    ensures var r := CPURequest(app, config, parse);
      && (r.Some? <==> app.cpu != "" || config.cpuPerGBOfRAM.Some? || config.cpuMin.Some?)
      && (config.cpuMin.Some? ==> config.cpuMin.value <= r.value)
      && (app.cpu != "" ==> r.value == parse(app.cpu).value || (config.cpuMin == r && parse(app.cpu).value < r.value))
      && (app.cpu == "" && config.cpuPerGBOfRAM.Some? ==>
            var memory := if CFToSIUnits(app.memory) == "" then 1073741824.0 else parse(CFToSIUnits(app.memory)).value;
            var share := config.cpuPerGBOfRAM.value * (memory / 1073741824.0);
            share <= r.value && (r.value < share + 0.001 || config.cpuMin == r))
  {
    if app.cpu == "" && config.cpuPerGBOfRAM.Some? {
      var raw := CFToSIUnits(app.memory);
      var n := DefaultCPUIs(config.cpuPerGBOfRAM.value, if raw == "" then GIB else parse(raw).value);
    }
  }

  // Port names.

  function DigitValue(c: char): (d: int)
  {
    c as int - '0' as int
  }

  /** Reads a decimal number. */
  function ReadDecimal(s: string): (n: int)
  {
    if s == "" then 0 else 10 * ReadDecimal(s[..|s| - 1]) + DigitValue(s[|s| - 1])
  }

  lemma {:induction false} DecimalReads(n: nat)
    ensures ReadDecimal(Decimal(n)) == n
    ensures forall i :: 0 <= i < |Decimal(n)| ==> '0' <= Decimal(n)[i] <= '9'
    ensures n > 0 ==> Decimal(n)[0] != '0'
  {
    if n >= 10 {
      DecimalReads(n / 10);
      var d := Decimal(n);
      assert d[..|d| - 1] == Decimal(n / 10);
    } else {
      assert Decimal(n)[..0] == "";
    }
  }

  /** A port's name is its protocol, a hyphen and its number in decimal. */
  lemma PortNameReads(p: AppPort)
    requires p.port >= 0
    ensures var name := PortName(p);
      && p.protocol + "-" <= name && ReadDecimal(name[|p.protocol| + 1..]) == p.port
  {
    var name := PortName(p);
    assert name[|p.protocol| + 1..] == Decimal(p.port);
    DecimalReads(p.port);
  }

  // What is turned down.

  ghost predicate BadAppPort(app: Application)
  {
    || (exists i :: 0 <= i < |app.ports| && (app.ports[i].port < 1 || app.ports[i].port > 65535))
    || (exists i :: 0 <= i < |app.ports| && app.ports[i].protocol !in ["http", "http2", "tcp"])
    || (exists i, j :: 0 <= i < j < |app.ports| && app.ports[i].port == app.ports[j].port)
    || (exists i :: 0 <= i < |app.routePorts| && app.routePorts[i] != 0 && Undeclared(app, app.routePorts[i]))
  }

  ghost predicate Undeclared(app: Application, port: int)
  {
    forall k :: 0 <= k < |app.ports| ==> app.ports[k].port != port
  }

  predicate BadHealthCheck(app: Application)
  {
    var own := app.startupProbe.Some? || app.livenessProbe.Some? || app.readinessProbe.Some?;
    || (own && (app.healthCheckType != "" || app.healthCheckHTTPEndpoint != ""))
    || (own && (app.healthCheckTimeout != 0 || app.healthCheckInvocationTimeout != 0))
    || BadProbe(app.startupProbe) || BadProbe(app.livenessProbe) || BadProbe(app.readinessProbe)
    || app.healthCheckTimeout < 0 || app.healthCheckInvocationTimeout < 0
    || (app.healthCheckType != "http" && app.healthCheckHTTPEndpoint != "")
    || app.healthCheckType !in ["", "http", "port", "process", "none"]
  }

  /** A probe with two handlers, with another kind of handler or setting, or with a port that is
      not the user's to set. */
  predicate BadProbe(p: Option<Probe>)
  {
    p.Some? && (|| p.value.otherHandler || p.value.otherField
                || (p.value.httpGet.Some? && p.value.tcpSocket.Some?)
                || (p.value.httpGet.Some? && p.value.httpGet.value.portSet)
                || (p.value.tcpSocket.Some? && p.value.tcpSocket.value.portSet))
  }

  /** All the reasons for which an application is turned down, besides its metadata. */
  lemma ApplicationsTurnedDown(app: Application)
    ensures !AppOk(app) <==>
            || (app.command != "" && (app.args != [] || app.entrypoint != ""))
            || (app.buildpacks != [] && app.legacyBuildpack != "")
            || BadAppPort(app) || BadHealthCheck(app) || !app.metadataOk
  {
    assert !AppPortsOk(app.ports) ==> BadAppPort(app);
  }

  /** All the reasons for which a container is. */
  lemma ContainersTurnedDown(c: Container)
    ensures !ContainerOk(c) <==>
            || (exists i :: 0 <= i < |c.ports| && (c.ports[i].containerPort < 1 || c.ports[i].containerPort > 65535))
            || (exists i, j :: 0 <= i < j < |c.ports| && c.ports[i].name != "" && c.ports[i].name == c.ports[j].name)
            || (exists i :: 0 <= i < |c.env| && c.env[i].name == "")
            || (exists k :: k in c.resources.requests && k !in ["cpu", "memory", "ephemeral-storage"])
            || (exists k :: k in c.resources.limits && k !in ["cpu", "memory", "ephemeral-storage"])
            || BadProbe(c.livenessProbe) || BadProbe(c.readinessProbe) || BadProbe(c.startupProbe)
  {
  }

  // Resources.

  predicate Absent(r: Resources, k: string)
  {
    k !in r.requests && k !in r.limits
  }

  predicate Reserved(r: Resources, k: string, q: real)
  {
    k in r.requests && k in r.limits && r.requests[k] == q == r.limits[k]
  }

  /** Memory and disk are reserved as asked for, neither more nor less, and not at all if not asked
      for; a CPU limit is set only if asked for, and is then at least the request. */
  lemma ResourcesMean(app: Application, config: RuntimeConfig, parse: Parser, r: Resources)
    requires QuantitiesFit(app, config, parse) && ResourcesFor(app, config, parse, r)
    ensures var memory := CFToSIUnits(app.memory);
      if memory == "" then Absent(r, "memory") else parse(memory).Some? && Reserved(r, "memory", parse(memory).value)
    ensures var disk := CFToSIUnits(app.diskQuota);
      if disk == "" then Absent(r, "ephemeral-storage")
      else parse(disk).Some? && Reserved(r, "ephemeral-storage", parse(disk).value)
    ensures "cpu" in r.limits <==> app.cpuLimit != ""
    ensures "cpu" in r.limits ==> parse(app.cpuLimit) == Some(r.limits["cpu"])
    ensures "cpu" in r.limits && "cpu" in r.requests ==> r.requests["cpu"] <= r.limits["cpu"]
  {
  }

  /** What does not fit: a quantity that does not parse, or a CPU limit below the request. */
  lemma QuantitiesTurnedDown(app: Application, config: RuntimeConfig, parse: Parser)
    ensures !QuantitiesFit(app, config, parse) <==>
            || (app.cpu != "" && parse(app.cpu).None?)
            || (CFToSIUnits(app.memory) != "" && parse(CFToSIUnits(app.memory)).None?)
            || (CFToSIUnits(app.diskQuota) != "" && parse(CFToSIUnits(app.diskQuota)).None?)
            || (app.cpuLimit != "" && parse(app.cpuLimit).None?)
            || (&& app.cpuLimit != "" && Readable(parse, app.cpu) && Readable(parse, CFToSIUnits(app.memory))
                && CPURequest(app, config, parse).Some? && parse(app.cpuLimit).Some?
                && parse(app.cpuLimit).value < CPURequest(app, config, parse).value)
  {
  }
}
