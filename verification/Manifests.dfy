/** pkg/kf/manifest: what a manifest's application must satisfy and the container it becomes;
    pkg/apis/kf/k8s_validation.go: what the API accepts as a container. Quantities are reals;
    parsing one is a parameter. */
module Manifests {
  import opened Common
  import opened EnvVars

  datatype Result<T> = Ok(value: T) | Err

  /** `portSet`: the port field, which Kf fills in itself, was given. */
  datatype HTTPGet = HTTPGet(path: string, portSet: bool)

  datatype TCPSocket = TCPSocket(portSet: bool)

  /** `otherHandler`: a handler other than these two; `otherField`: a field of the probe
      that is not among the timing fields. */
  datatype Probe = Probe(
    httpGet: Option<HTTPGet>,
    tcpSocket: Option<TCPSocket>,
    otherHandler: bool,
    otherField: bool,
    timeoutSeconds: int,
    periodSeconds: int,
    successThreshold: int,
    failureThreshold: int)

  datatype AppPort = AppPort(port: int, protocol: string)

  datatype Application = Application(
    env: map<string, string>,
    diskQuota: string,
    memory: string,
    cpu: string,
    cpuLimit: string,
    command: string,
    entrypoint: string,
    args: seq<string>,
    buildpacks: seq<string>,
    legacyBuildpack: string,
    metadataOk: bool,
    routePorts: seq<int>,
    ports: seq<AppPort>,
    healthCheckTimeout: int,
    healthCheckType: string,
    healthCheckHTTPEndpoint: string,
    healthCheckInvocationTimeout: int,
    startupProbe: Option<Probe>,
    livenessProbe: Option<Probe>,
    readinessProbe: Option<Probe>)

  datatype ContainerPort = ContainerPort(name: string, containerPort: int)

  type ResourceList = map<string, real>

  datatype Resources = Resources(requests: ResourceList, limits: ResourceList)

  datatype Container = Container(
    command: seq<string>,
    args: seq<string>,
    resources: Resources,
    env: seq<EnvVar>,
    ports: seq<ContainerPort>,
    startupProbe: Option<Probe>,
    livenessProbe: Option<Probe>,
    readinessProbe: Option<Probe>)

  datatype RuntimeConfig = RuntimeConfig(cpuPerGBOfRAM: Option<real>, cpuMin: Option<real>)

  const CPU := "cpu"
  const MEMORY := "memory"
  const STORAGE := "ephemeral-storage"
  const GIB := 1073741824.0

  // Validation of a container.

  predicate PortInBounds(port: int) { 1 <= port <= 65535 }

  predicate ProbeOk(p: Option<Probe>)
  {
    p.Some? ==>
      && !p.value.otherField && !p.value.otherHandler
      && !(p.value.httpGet.Some? && p.value.tcpSocket.Some?)
      && (p.value.httpGet.Some? ==> !p.value.httpGet.value.portSet)
      && (p.value.tcpSocket.Some? ==> !p.value.tcpSocket.value.portSet)
  }

  ghost predicate ContainerPortsOk(ports: seq<ContainerPort>)
  {
    && (forall i :: 0 <= i < |ports| ==> PortInBounds(ports[i].containerPort))
    && (forall i, j :: 0 <= i < j < |ports| ==> ports[i].name == "" || ports[i].name != ports[j].name)
  }

  predicate AllowedResource(key: string) { key == CPU || key == MEMORY || key == STORAGE }

  ghost predicate OnlyAllowed(r: Resources)
  {
    && (forall k :: k in r.requests ==> AllowedResource(k))
    && (forall k :: k in r.limits ==> AllowedResource(k))
  }

  ghost predicate ContainerOk(c: Container)
  {
    && ContainerPortsOk(c.ports)
    && (forall i :: 0 <= i < |c.env| ==> c.env[i].name != "")
    && OnlyAllowed(c.resources)
    && ProbeOk(c.livenessProbe) && ProbeOk(c.readinessProbe) && ProbeOk(c.startupProbe)
  }

  /** ValidateContainerPortsArray: names, once seen, must not come again. */
  method ValidateContainerPortsArray(ports: seq<ContainerPort>) returns (errors: nat)
    ensures errors == 0 <==> ContainerPortsOk(ports)
  {
    errors := 0;
    var seenNames: set<string> := {};
    for i := 0 to |ports|
      invariant forall n :: n in seenNames <==> exists k :: 0 <= k < i && ports[k].name == n
      invariant errors == 0 ==> ContainerPortsOk(ports[..i])
      invariant errors != 0 ==> !ContainerPortsOk(ports)
    {
      if !PortInBounds(ports[i].containerPort) {
        errors := errors + 1;
      }
      if ports[i].name != "" && ports[i].name in seenNames {
        errors := errors + 1;
      }
      seenNames := seenNames + {ports[i].name};
    }
    assert ports[..|ports|] == ports;
  }

  method ValidateContainer(c: Container) returns (errors: nat)
    ensures errors == 0 <==> ContainerOk(c)
  {
    errors := ValidateContainerPortsArray(c.ports);
    for i := 0 to |c.env|
      invariant errors == 0 <==> ContainerPortsOk(c.ports) && forall k :: 0 <= k < i ==> c.env[k].name != ""
    {
      if c.env[i].name == "" { errors := errors + 1; }
    }
    if exists k :: k in c.resources.limits && !AllowedResource(k) { errors := errors + 1; }
    if exists k :: k in c.resources.requests && !AllowedResource(k) { errors := errors + 1; }
    if !ProbeOk(c.livenessProbe) { errors := errors + 1; }
    if !ProbeOk(c.readinessProbe) { errors := errors + 1; }
    if !ProbeOk(c.startupProbe) { errors := errors + 1; }
  }

  // Validation of a manifest's application.

  predicate ProtocolOk(protocol: string)
  {
    protocol == "http" || protocol == "tcp" || protocol == "http2"
  }

  ghost predicate AppPortsOk(ports: seq<AppPort>)
  {
    && (forall i :: 0 <= i < |ports| ==> PortInBounds(ports[i].port) && ProtocolOk(ports[i].protocol))
    && (forall i, j :: 0 <= i < j < |ports| ==> ports[i].port != ports[j].port)
  }

  predicate HasCFHealthCheckFields(app: Application)
  {
    app.healthCheckTimeout != 0 || app.healthCheckType != "" || app.healthCheckHTTPEndpoint != ""
    || app.healthCheckInvocationTimeout != 0
  }

  predicate HasK8sHealthCheckFields(app: Application)
  {
    app.startupProbe.Some? || app.livenessProbe.Some? || app.readinessProbe.Some?
  }

  predicate HealthChecksOk(app: Application)
  {
    if HasCFHealthCheckFields(app) && HasK8sHealthCheckFields(app) then false
    else if HasK8sHealthCheckFields(app) then
      ProbeOk(app.startupProbe) && ProbeOk(app.livenessProbe) && ProbeOk(app.readinessProbe)
    else if HasCFHealthCheckFields(app) then
      && app.healthCheckTimeout >= 0 && app.healthCheckInvocationTimeout >= 0
      && (app.healthCheckType == "http" || app.healthCheckHTTPEndpoint == "")
      && app.healthCheckType in ["http", "port", "", "process", "none"]
    else true
  }

  /** `Application.Validate` reports nothing. */
  ghost predicate AppOk(app: Application)
  {
    && (app.command != "" ==> app.args == [] && app.entrypoint == "")
    && (app.buildpacks != [] ==> app.legacyBuildpack == "")
    && AppPortsOk(app.ports)
    && app.metadataOk
    && (forall i :: 0 <= i < |app.routePorts| ==>
          app.routePorts[i] == 0 || exists k :: 0 <= k < |app.ports| && app.ports[k].port == app.routePorts[i])
    && HealthChecksOk(app)
  }

  /** AppPortList.Validate */
  method ValidatePorts(ports: seq<AppPort>) returns (errors: nat)
    ensures errors == 0 <==> AppPortsOk(ports)
  {
    errors := 0;
    var seen: set<int> := {};
    for i := 0 to |ports|
      invariant forall n :: n in seen <==> exists k :: 0 <= k < i && ports[k].port == n
      invariant errors == 0 ==> AppPortsOk(ports[..i])
      invariant errors != 0 ==> !AppPortsOk(ports)
    {
      if !PortInBounds(ports[i].port) {
        errors := errors + 1;
      }
      if !ProtocolOk(ports[i].protocol) {
        errors := errors + 1;
      }
      if ports[i].port in seen {
        errors := errors + 1;
      }
      seen := seen + {ports[i].port};
    }
    assert ports[..|ports|] == ports;
  }

  method Validate(app: Application) returns (errors: nat)
    ensures errors == 0 <==> AppOk(app)
  {
    errors := 0;
    if app.command != "" {
      if |app.args| > 0 { errors := errors + 1; }
      if app.entrypoint != "" { errors := errors + 1; }
    }
    if |app.buildpacks| > 0 {
      if app.legacyBuildpack != "" { errors := errors + 1; }
    }
    var portErrors := ValidatePorts(app.ports);
    errors := errors + portErrors;
    if !app.metadataOk { errors := errors + 1; }
    var routeErrors := ValidateRoutePorts(app.ports, app.routePorts);
    errors := errors + routeErrors;
    if !HealthChecksOk(app) { errors := errors + 1; }
  }

  method ValidateRoutePorts(ports: seq<AppPort>, routePorts: seq<int>) returns (errors: nat)
    ensures errors == 0 <==> forall i :: 0 <= i < |routePorts| ==>
              routePorts[i] == 0 || exists k :: 0 <= k < |ports| && ports[k].port == routePorts[i]
  {
    var okRoutePorts := {0};
    for i := 0 to |ports|
      invariant forall n :: n in okRoutePorts <==> n == 0 || exists k :: 0 <= k < i && ports[k].port == n
    {
      okRoutePorts := okRoutePorts + {ports[i].port};
    }
    errors := 0;
    for i := 0 to |routePorts|
      invariant errors == 0 <==> forall k :: 0 <= k < i ==> routePorts[k] in okRoutePorts
    {
      if routePorts[i] !in okRoutePorts { errors := errors + 1; }
    }
  }

  // Conversion to a container.

  predicate Space(c: char) { c == ' ' || c == '\t' || c == '\n' || c == '\r' }

  function TrimLeft(s: string): string
  {
    if s != [] && Space(s[0]) then TrimLeft(s[1..]) else s
  }

  function TrimRight(s: string): string
  {
    if s != [] && Space(s[|s| - 1]) then TrimRight(s[..|s| - 1]) else s
  }

  /** Cloud Foundry's K, M, G and T are binary units. */
  function CFToSIUnits(orig: string): string
  {
    var t := TrimRight(TrimLeft(orig));
    var trimmed := if t != [] && t[|t| - 1] == 'B' then t[..|t| - 1] else t;
    if trimmed != [] && trimmed[|trimmed| - 1] in ['T', 'G', 'M', 'K'] then trimmed + "i" else orig
  }

  type Parser = string -> Option<real>

  function Ceil(x: real): real
  {
    -((-x).Floor as real)
  }

  /** CPU in proportion to RAM, rounded up to a thousandth. */
  function DefaultCPU(perGB: real, memory: real): real
  {
    Ceil(perGB * (memory / GIB) * 1000.0) / 1000.0
  }

  /** An empty quantity is not set; any other has to parse. */
  predicate Readable(parse: Parser, raw: string) { raw == "" || parse(raw).Some? }

  function CPURequest(app: Application, config: RuntimeConfig, parse: Parser): (r: Option<real>)
    requires Readable(parse, app.cpu) && Readable(parse, CFToSIUnits(app.memory))
  {
    var wanted :=
      if app.cpu != "" then parse(app.cpu)
      else if config.cpuPerGBOfRAM.None? then None
      else
        var raw := CFToSIUnits(app.memory);
        var memory := if raw == "" then GIB else parse(raw).value;
        Some(DefaultCPU(config.cpuPerGBOfRAM.value, memory));
    if config.cpuMin.Some? && (wanted.None? || wanted.value < config.cpuMin.value) then config.cpuMin else wanted
  }

  /** All quantities parse, and a CPU limit is no smaller than the request that results. */
  predicate QuantitiesFit(app: Application, config: RuntimeConfig, parse: Parser)
  {
    && Readable(parse, app.cpu) && Readable(parse, CFToSIUnits(app.memory))
    && Readable(parse, CFToSIUnits(app.diskQuota)) && Readable(parse, app.cpuLimit)
    && var request := CPURequest(app, config, parse);
       (app.cpuLimit != "" && request.Some? ==> request.value <= parse(app.cpuLimit).value)
  }

  /** Resource `k` has the given quantity, or is absent when there is none. */
  predicate HasQuantity(l: ResourceList, k: string, q: Option<real>)
  {
    if q.Some? then k in l && l[k] == q.value else k !in l
  }

  function Wanted(parse: Parser, raw: string): Option<real> { if raw == "" then None else parse(raw) }

  ghost predicate ResourcesFor(app: Application, config: RuntimeConfig, parse: Parser, r: Resources)
    requires QuantitiesFit(app, config, parse)
  {
    && OnlyAllowed(r)
    && HasQuantity(r.requests, CPU, CPURequest(app, config, parse))
    && HasQuantity(r.limits, CPU, Wanted(parse, app.cpuLimit))
    && HasQuantity(r.requests, MEMORY, Wanted(parse, CFToSIUnits(app.memory)))
    && HasQuantity(r.limits, MEMORY, Wanted(parse, CFToSIUnits(app.memory)))
    && HasQuantity(r.requests, STORAGE, Wanted(parse, CFToSIUnits(app.diskQuota)))
    && HasQuantity(r.limits, STORAGE, Wanted(parse, CFToSIUnits(app.diskQuota)))
  }

  /** ToResourceRequirements, the CPU request: as given or by memory, and at least the minimum. */
  method CPURequirement(app: Application, config: RuntimeConfig, parse: Parser, memoryRequest: real)
    returns (r: Result<Option<real>>)
    requires Readable(parse, CFToSIUnits(app.memory))
    requires memoryRequest == if CFToSIUnits(app.memory) == "" then GIB else parse(CFToSIUnits(app.memory)).value
    ensures r.Ok? <==> Readable(parse, app.cpu)
    ensures r.Ok? ==> r.value == CPURequest(app, config, parse)
  {
    var request: Option<real> := None;
    if app.cpu != "" {
      var quantity := parse(app.cpu);
      if quantity.None? { return Err; }
      request := quantity;
    } else if config.cpuPerGBOfRAM.Some? {
      request := Some(DefaultCPU(config.cpuPerGBOfRAM.value, memoryRequest));
    }
    if config.cpuMin.Some? {
      if request.None? || request.value < config.cpuMin.value {
        request := config.cpuMin;
      }
    }
    r := Ok(request);
  }

  /** ToResourceRequirements */
  method ToResourceRequirements(app: Application, config: RuntimeConfig, parse: Parser) returns (r: Result<Resources>)
    ensures r.Ok? <==> QuantitiesFit(app, config, parse)
    ensures r.Ok? ==> ResourcesFor(app, config, parse, r.value)
  {
    var requests, limits: ResourceList := map[], map[];
    var memoryRequest := GIB;
    var rawMem := CFToSIUnits(app.memory);
    if rawMem != "" {
      var quantity := parse(rawMem);
      if quantity.None? { return Err; }
      requests, limits := requests[MEMORY := quantity.value], limits[MEMORY := quantity.value];
      memoryRequest := quantity.value;
    }
    var rawStorage := CFToSIUnits(app.diskQuota);
    if rawStorage != "" {
      var quantity := parse(rawStorage);
      if quantity.None? { return Err; }
      requests, limits := requests[STORAGE := quantity.value], limits[STORAGE := quantity.value];
    }
    var cpu := CPURequirement(app, config, parse, memoryRequest);
    if cpu.Err? { return Err; }
    if cpu.value.Some? {
      requests := requests[CPU := cpu.value.value];
    }
    if app.cpuLimit != "" {
      var quantity := parse(app.cpuLimit);
      if quantity.None? { return Err; }
      if CPU in requests && quantity.value < requests[CPU] { return Err; }
      limits := limits[CPU := quantity.value];
    }
    r := Ok(Resources(requests, limits));
  }

  /** int32(n) */
  function Int32(n: int): int
  {
    (n + 0x8000_0000) % 0x1_0000_0000 - 0x8000_0000
  }

  /** The handler both health checks share. */
  function HandlerOf(app: Application, probe: Probe): (r: Result<Option<Probe>>)
  {
    if app.healthCheckType == "http" then
      Ok(Some(probe.(httpGet := Some(HTTPGet(app.healthCheckHTTPEndpoint, false)))))
    else if app.healthCheckType == "port" || app.healthCheckType == "" then
      if app.healthCheckHTTPEndpoint != "" then Err
      else Ok(Some(probe.(tcpSocket := Some(TCPSocket(false)))))
    else if app.healthCheckType == "process" || app.healthCheckType == "none" then Ok(None)
    else Err
  }

  function ToStartupHealthCheck(app: Application): (r: Result<Option<Probe>>)
  {
    if app.healthCheckTimeout < 0 then Err
    else
      var timeout := if app.healthCheckTimeout == 0 then 60 else app.healthCheckTimeout;
      var seconds := if app.healthCheckInvocationTimeout != 0 then Int32(app.healthCheckInvocationTimeout) else 1;
      HandlerOf(app, Probe(None, None, false, false, seconds, 2, 1, Int32((timeout + 1) / 2)))
  }

  function ToPostStartupHealthCheck(app: Application): (r: Result<Option<Probe>>)
  {
    if app.healthCheckInvocationTimeout < 0 then Err
    else
      var seconds := if app.healthCheckInvocationTimeout != 0 then Int32(app.healthCheckInvocationTimeout) else 1;
      HandlerOf(app, Probe(None, None, false, false, seconds, 30, 1, 1))
  }

  function Digit(d: nat): char
    requires d < 10
  {
    "0123456789"[d]
  }

  function Decimal(n: nat): (r: string)
    ensures r != "" && '-' !in r
  {
    if n < 10 then [Digit(n)] else Decimal(n / 10) + [Digit(n % 10)]
  }

  /** fmt's %d */
  function Itoa(n: int): string
  {
    if n < 0 then "-" + Decimal(-n) else Decimal(n)
  }

  function PortName(p: AppPort): string { p.protocol + "-" + Itoa(p.port) }

  /** The container an application becomes; its environment is the sorted list of the map. */
  ghost predicate IsContainerFor(app: Application, resources: Resources, c: Container)
  {
    && c.resources == resources
    && c.args == (if app.args != [] then app.args else if app.command != "" then [app.command] else [])
    && c.command == (if app.entrypoint != "" then [app.entrypoint] else [])
    && NameSorted(c.env) && ToMap(c.env) == app.env
    && |c.ports| == |app.ports|
    && (forall i :: 0 <= i < |c.ports| ==> c.ports[i] == ContainerPort(PortName(app.ports[i]), app.ports[i].port))
    && if HasK8sHealthCheckFields(app) then
         && c.livenessProbe == app.livenessProbe && c.readinessProbe == app.readinessProbe
         && c.startupProbe == app.startupProbe
       else
         && ToPostStartupHealthCheck(app) == Ok(c.livenessProbe) == Ok(c.readinessProbe)
         && ToStartupHealthCheck(app) == Ok(c.startupProbe)
  }

  method ToContainer(app: Application, config: RuntimeConfig, parse: Parser)
    returns (r: Result<Container>, resources: Result<Resources>)
    ensures resources.Ok? <==> QuantitiesFit(app, config, parse)
    ensures r.Ok? ==> resources.Ok? && ResourcesFor(app, config, parse, resources.value)
    ensures r.Ok? ==> resources.Ok? && IsContainerFor(app, resources.value, r.value)
    ensures r.Err? <==> resources.Err? || (!HasK8sHealthCheckFields(app)
                        && (ToPostStartupHealthCheck(app).Err? || ToStartupHealthCheck(app).Err?))
    ensures r.Ok? ==> CPUBoundsHold(config, r.value)
  {
    resources := ToResourceRequirements(app, config, parse);
    if resources.Err? { return Err, resources; }
    var liveness, readiness, startup := app.livenessProbe, app.readinessProbe, app.startupProbe;
    if !HasK8sHealthCheckFields(app) {
      var postStartup := ToPostStartupHealthCheck(app);
      if postStartup.Err? { return Err, resources; }
      var atStartup := ToStartupHealthCheck(app);
      if atStartup.Err? { return Err, resources; }
      liveness, readiness, startup := postStartup.value, postStartup.value, atStartup.value;
    }
    var env: seq<EnvVar> := [];
    if |app.env| > 0 {
      env := MapToEnvVars(app.env);
    }
    var ports: seq<ContainerPort> := [];
    for i := 0 to |app.ports|
      invariant |ports| == i
      invariant forall k :: 0 <= k < i ==> ports[k] == ContainerPort(PortName(app.ports[k]), app.ports[k].port)
    {
      ports := ports + [ContainerPort(PortName(app.ports[i]), app.ports[i].port)];
    }
    var args := if |app.args| > 0 then app.args else if app.command != "" then [app.command] else [];
    var command := if app.entrypoint != "" then [app.entrypoint] else [];
    r := Ok(Container(command, args, resources.value, env, ports, startup, liveness, readiness));
  }

  /** The request is at least the configured minimum and any limit at least the request. */
  predicate CPUBoundsHold(config: RuntimeConfig, c: Container)
  {
    var Resources(requests, limits) := c.resources;
    && (config.cpuMin.Some? ==> CPU in requests && config.cpuMin.value <= requests[CPU])
    && (CPU in limits && CPU in requests ==> requests[CPU] <= limits[CPU])
  }

  // Preservation.

  /** The conversions of the health checks of a valid application cannot fail, and make
      probes of an allowed shape. */
  lemma HealthChecksConvert(app: Application)
    requires AppOk(app) && !HasK8sHealthCheckFields(app)
    ensures ToPostStartupHealthCheck(app).Ok? && ProbeOk(ToPostStartupHealthCheck(app).value)
    ensures ToStartupHealthCheck(app).Ok? && ProbeOk(ToStartupHealthCheck(app).value)
  {
    assert app.healthCheckType in ["http", "port", "", "process", "none"];
  }

  lemma {:induction false} DecimalInjective(a: nat, b: nat)
    requires Decimal(a) == Decimal(b)
    ensures a == b
  {
    var s, t := Decimal(a), Decimal(b);
    LastDigit(a);
    LastDigit(b);
    if a >= 10 && b >= 10 {
      assert s[..|s| - 1] == Decimal(a / 10) && t[..|t| - 1] == Decimal(b / 10);
      DecimalInjective(a / 10, b / 10);
    }
  }

  lemma LastDigit(n: nat)
    ensures |Decimal(n)| > 0 && Decimal(n)[|Decimal(n)| - 1] == Digit(n % 10)
    ensures |Decimal(n)| == 1 <==> n < 10
  {
  }

  /** Neither a protocol nor a positive number contains the hyphen between them. */
  lemma {:induction false} HyphenSplits(p: string, d: string, q: string, e: string)
    requires '-' !in p && '-' !in q && p + "-" + d == q + "-" + e
    ensures d == e
  {
    var s := p + "-" + d;
    assert s[|p|] == '-' && forall k :: 0 <= k < |p| ==> s[k] == p[k];
    assert s[|q|] == '-' && forall k :: 0 <= k < |q| ==> s[k] == q[k] by {
      assert s == q + "-" + e;
    }
    assert |p| == |q|;
    assert d == s[|p| + 1..] && e == s[|q| + 1..];
  }

  lemma PortNamesDiffer(a: AppPort, b: AppPort)
    requires PortInBounds(a.port) && PortInBounds(b.port) && ProtocolOk(a.protocol) && ProtocolOk(b.protocol)
    requires a.port != b.port
    ensures PortName(a) != PortName(b)
  {
    if PortName(a) == PortName(b) {
      HyphenSplits(a.protocol, Itoa(a.port), b.protocol, Itoa(b.port));
      DecimalInjective(a.port, b.port);
    }
  }

  /** Preservation: the container of a valid application passes the API's validation exactly
      when its environment has no empty name, the one thing the manifest does not check. */
  lemma ValidAppMakesValidContainer(app: Application, resources: Resources, c: Container)
    requires AppOk(app) && OnlyAllowed(resources) && IsContainerFor(app, resources, c)
    ensures ContainerOk(c) <==> "" !in app.env
  {
    if !HasK8sHealthCheckFields(app) {
      HealthChecksConvert(app);
    }
    ToMapKeys(c.env, "");
    forall i, j | 0 <= i < j < |c.ports| ensures c.ports[i].name != c.ports[j].name {
      PortNamesDiffer(app.ports[i], app.ports[j]);
    }
  }

  /** The chain a push runs: validate, convert, and have the container validated. */
  method PushContainer(app: Application, config: RuntimeConfig, parse: Parser)
    returns (errors: nat, r: Result<Container>, rejected: nat)
    ensures errors == 0 <==> AppOk(app)
    ensures errors == 0 ==> (r.Ok? <==> QuantitiesFit(app, config, parse))
    ensures errors == 0 && r.Ok? ==> CPUBoundsHold(config, r.value) && (rejected == 0 <==> "" !in app.env)
  {
    rejected := 0;
    errors := Validate(app);
    var resources;
    r, resources := ToContainer(app, config, parse);
    if errors == 0 && !HasK8sHealthCheckFields(app) {
      HealthChecksConvert(app);
    }
    if errors == 0 && r.Ok? {
      ValidAppMakesValidContainer(app, resources.value, r.value);
      rejected := ValidateContainer(r.value);
    }
  }
}
