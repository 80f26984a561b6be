/** What each Spring Boot convention does to a template and to the property map, as functions. */
module SpringBoot {
  import opened Wrappers
  import opened Text
  import opened Core
  import opened Dependencies
  import opened SpringProperties

  // Property names.
  const SERVER_PORT := "server.port"
  const SHUTDOWN_GRACE := "server.shutdown.grace-period"
  const MANAGEMENT_PORT := "management.server.port"
  const MANAGEMENT_BASE_PATH := "management.endpoints.web.base-path"
  const MANAGEMENT_SSL := "management.server.ssl.enabled"
  const PROBES_ENABLED := "management.health.probes.enabled"

  /** The annotation under which the actuator is announced. */
  const ACTUATOR_URI := "boot.spring.io/actuator"

  datatype Convention =
    | Framework
    | GracefulShutdown
    | Web
    | Actuator
    | ActuatorProbes
    | ServiceIntent(id: string, labelName: string, dependencies: seq<string>)

  /** What is known about an image: its components and the version checker. */
  datatype Facts = Facts(deps: seq<Component>, semver: (string, string) -> bool)

  datatype Outcome = Outcome(t: PodTemplate, p: Properties, failed: bool)

  function GetId(c: Convention): string {
    match c
    case Framework => "spring-boot"
    case GracefulShutdown => "spring-boot-graceful-shutdown"
    case Web => "spring-boot-web"
    case Actuator => "spring-boot-actuator"
    case ActuatorProbes => "spring-boot-actuator-probes"
    case ServiceIntent(id, _, _) => id
  }

  const WEB_SERVERS: seq<string> := [
    "spring-boot-starter-tomcat",
    "spring-boot-starter-jetty",
    "spring-boot-starter-reactor-netty",
    "spring-boot-starter-undertow"
  ]

  predicate IsApplicable(c: Convention, f: Facts) {
    match c
    case Framework => Has(f.deps, ["spring-boot"])
    case GracefulShutdown => Satisfies(f.deps, "spring-boot", ">= 2.3.0-0", f.semver) && Has(f.deps, WEB_SERVERS)
    case Web => Has(f.deps, ["spring-boot"]) && Has(f.deps, ["spring-web"])
    case Actuator => Has(f.deps, ["spring-boot-actuator"])
    case ActuatorProbes => Has(f.deps, ["spring-boot-actuator"])
    case ServiceIntent(_, _, dependencies) => Has(f.deps, dependencies)
  }

  function Get(p: Properties, key: string): string {
    if key in p then p[key] else ""
  }

  /** Eighty percent of the pod's grace period, rounded down. */
  function BootGrace(seconds: int): int {
    (0.8 * (seconds as real)).Floor
  }

  function PodGrace(t: PodTemplate): int {
    if t.terminationGracePeriodSeconds.Some? then t.terminationGracePeriodSeconds.value else 30
  }

  /** The first container that declares the port. */
  function FirstOwner(containers: seq<Container>, port: int): (r: Option<nat>)
    ensures r.Some? ==> r.value < |containers| && Declares(containers[r.value], port)
                        && forall j | 0 <= j < r.value :: !Declares(containers[j], port)
    ensures r.None? ==> forall j | 0 <= j < |containers| :: !Declares(containers[j], port)
  {
    if containers == [] then None
    else
      var n := |containers| - 1;
      var before := FirstOwner(containers[..n], port);
      if before.Some? then before
      else if Declares(containers[n], port) then Some(n)
      else None
  }

  predicate Declares(c: Container, port: int) {
    exists k | 0 <= k < |c.ports| :: c.ports[k].containerPort == port
  }

  function Scheme(p: Properties): string {
    if Get(p, MANAGEMENT_SSL) == "true" then "HTTPS" else "HTTP"
  }

  function ManagementUri(p: Properties): string {
    (if Get(p, MANAGEMENT_SSL) == "true" then "https" else "http")
    + "://:" + Get(p, MANAGEMENT_PORT) + Get(p, MANAGEMENT_BASE_PATH)
  }

  function LivenessPath(f: Facts): string {
    if Satisfies(f.deps, "spring-boot-actuator", ">= 2.3.0-0", f.semver) then "/health/liveness" else "/info"
  }

  function ReadinessPath(f: Facts): string {
    if Satisfies(f.deps, "spring-boot-actuator", ">= 2.3.0-0", f.semver) then "/health/readiness" else "/info"
  }

  const NEW_PROBE := Probe(NoHandler, 0, 0, 0)
  const NEW_STARTUP_PROBE := Probe(NoHandler, 1, 1, 120)

  /** An absent probe becomes the given one; an empty handler becomes the given handler. */
  function FillProbe(probe: Option<Probe>, absent: Probe, handler: ProbeHandler): Option<Probe> {
    var present := if probe.Some? then probe.value else absent;
    Some(if present.handler == NoHandler then present.(handler := handler) else present)
  }

  function FillProbes(c: Container, p: Properties, port: int, f: Facts): Container {
    var base := Get(p, MANAGEMENT_BASE_PATH);
    var liveness := FillProbe(c.livenessProbe, NEW_PROBE, HTTPGet(base + LivenessPath(f), ToInt32(port), Scheme(p)));
    var readiness := FillProbe(c.readinessProbe, NEW_PROBE, HTTPGet(base + ReadinessPath(f), ToInt32(port), Scheme(p)));
    var startup := FillProbe(c.startupProbe, NEW_STARTUP_PROBE, liveness.value.handler);
    c.(livenessProbe := liveness, readinessProbe := readiness, startupProbe := startup)
  }

  function SetContainer(t: PodTemplate, i: nat, c: Container): PodTemplate
    requires i < |t.containers|
  {
    t.(containers := t.containers[i := c])
  }

  function SetLabel(t: PodTemplate, key: string, value: string): PodTemplate {
    t.(labels := t.labels[key := value])
  }

  function SetAnnotation(t: PodTemplate, key: string, value: string): PodTemplate {
    t.(annotations := t.annotations[key := value])
  }

  function ApplyFramework(t: PodTemplate, f: Facts): PodTemplate {
    var found := Find(f.deps, "spring-boot");
    var labelled := SetLabel(t, "conventions.carto.run/framework", "spring-boot");
    if found.None? then labelled else SetAnnotation(labelled, "boot.spring.io/version", found.value.version)
  }

  function ApplyGracefulShutdown(t: PodTemplate, p: Properties): Outcome {
    var grace := PodGrace(t);
    Outcome(t.(terminationGracePeriodSeconds := Some(grace)), p[SHUTDOWN_GRACE := Itoa(BootGrace(grace)) + "s"], false)
  }

  function ApplyWeb(t: PodTemplate, p: Properties, i: nat): Outcome
    requires i < |t.containers|
  {
    var p' := WithDefault(p, SERVER_PORT, "8080");
    var port := Atoi(p'[SERVER_PORT]);
    if port.None? then Outcome(t, p', true)
    else
      var c := t.containers[i];
      match FirstOwner(t.containers, ToInt32(port.value))
      case None =>
        var claimed := c.(ports := c.ports + [ContainerPort(ToInt32(port.value), "TCP")]);
        Outcome(SetContainer(t, i, claimed), p', false)
      case Some(k) => Outcome(t, p', t.containers[k].name != c.name)
  }

  function ApplyActuator(t: PodTemplate, p: Properties): Outcome {
    var p1 := WithDefault(p, MANAGEMENT_PORT, Get(p, SERVER_PORT));
    var p2 := WithDefault(p1, MANAGEMENT_BASE_PATH, "/actuator");
    Outcome(SetAnnotation(t, ACTUATOR_URI, ManagementUri(p2)), p2, false)
  }

  function ApplyProbes(t: PodTemplate, p: Properties, i: nat, f: Facts): Outcome
    requires i < |t.containers|
  {
    var p' := WithDefault(p, PROBES_ENABLED, "true");
    if p'[PROBES_ENABLED] != "true" then Outcome(t, p', false)
    else
      var port := Atoi(Get(p', MANAGEMENT_PORT));
      if port.None? then Outcome(t, p', true)
      else Outcome(SetContainer(t, i, FillProbes(t.containers[i], p', port.value, f)), p', false)
  }

  function ApplyServiceIntent(labelName: string, dependencies: seq<string>, t: PodTemplate, name: string,
                              f: Facts): PodTemplate {
    var found := FirstPresent(f.deps, dependencies);
    if found.None? then t
    else SetAnnotation(SetLabel(t, labelName, name), labelName, found.value.name + "/" + found.value.version)
  }

  function ApplyConvention(c: Convention, t: PodTemplate, p: Properties, i: nat, f: Facts): (o: Outcome)
    requires i < |t.containers|
    ensures |o.t.containers| == |t.containers|
  {
    match c
    case Framework => Outcome(ApplyFramework(t, f), p, false)
    case GracefulShutdown => ApplyGracefulShutdown(t, p)
    case Web => ApplyWeb(t, p, i)
    case Actuator => ApplyActuator(t, p)
    case ActuatorProbes => ApplyProbes(t, p, i, f)
    case ServiceIntent(_, labelName, dependencies) =>
      Outcome(ApplyServiceIntent(labelName, dependencies, t, t.containers[i].name, f), p, false)
  }

  /** The conventions of the server, in the order in which they run. */
  const SPRING_BOOT_CONVENTIONS: seq<Convention> := [
    Framework,
    GracefulShutdown,
    Web,
    Actuator,
    ActuatorProbes,
    ServiceIntent("service-intent-mysql", "services.conventions.carto.run/mysql",
                  ["mysql-connector-java", "r2dbc-mysql"]),
    ServiceIntent("service-intent-postgres", "services.conventions.carto.run/postgres",
                  ["postgresql", "r2dbc-postgresql"]),
    ServiceIntent("service-intent-mongodb", "services.conventions.carto.run/mongodb", ["mongodb-driver-core"]),
    ServiceIntent("service-intent-rabbitmq", "services.conventions.carto.run/rabbitmq", ["amqp-client"]),
    ServiceIntent("service-intent-redis", "services.conventions.carto.run/redis", ["jedis"]),
    ServiceIntent("service-intent-kafka", "services.conventions.carto.run/kafka", ["kafka-clients"]),
    ServiceIntent("service-intent-kafka-streams", "services.conventions.carto.run/kafka-streams", ["kafka-streams"])
  ]

  // ----- all conventions on one container -----

  datatype ConventionsOutcome = ConventionsOutcome(t: PodTemplate, p: Properties, applied: seq<string>, failed: bool)

  function ApplyAll(cs: seq<Convention>, t: PodTemplate, p: Properties, i: nat, f: Facts): (o: ConventionsOutcome)
    requires i < |t.containers|
    ensures |o.t.containers| == |t.containers|
  {
    if cs == [] then ConventionsOutcome(t, p, [], false)
    else if !IsApplicable(cs[0], f) then ApplyAll(cs[1..], t, p, i, f)
    else
      var first := ApplyConvention(cs[0], t, p, i, f);
      if first.failed then ConventionsOutcome(first.t, first.p, [GetId(cs[0])], true)
      else
        var rest := ApplyAll(cs[1..], first.t, first.p, i, f);
        rest.(applied := [GetId(cs[0])] + rest.applied)
  }

  // ----- the driver over all containers -----

  /** The image map of the driver: a later entry for the same image wins. */
  function ImageMap(images: seq<ImageConfig>): map<string, ImageConfig> {
    if images == [] then map[]
    else
      var last := images[|images| - 1];
      ImageMap(images[..|images| - 1])[last.image := last]
  }

  /** A convention server: its conventions, the image metadata of the request and the version checker. */
  datatype Server = Server(
    conventions: seq<Convention>,
    images: map<string, ImageConfig>,
    semver: (string, string) -> bool)

  function SpringServer(images: seq<ImageConfig>, semver: (string, string) -> bool): Server {
    Server(SPRING_BOOT_CONVENTIONS, ImageMap(images), semver)
  }

  function FactsOf(config: ImageConfig, semver: (string, string) -> bool): Facts {
    Facts(Components(config.boms), semver)
  }

  /** The outcome for one container; the properties are the ones printed into it. */
  datatype StepOutcome = StepOutcome(t: PodTemplate, p: Option<Properties>, applied: seq<string>, failed: bool)

  ghost function StepContainer(s: Server, t: PodTemplate, i: nat): (o: StepOutcome)
    requires i < |t.containers|
    ensures |o.t.containers| == |t.containers|
  {
    if t.containers[i].image !in s.images then StepOutcome(t, None, [], false)
    else
      var (c, p) := ReadOptions(t.containers[i]);
      var o := ApplyAll(s.conventions, SetContainer(t, i, c), p, i, FactsOf(s.images[t.containers[i].image], s.semver));
      if o.failed then StepOutcome(o.t, None, o.applied, true)
      else StepOutcome(SetContainer(o.t, i, WriteOptions(o.t.containers[i], o.p)), Some(o.p), o.applied, false)
  }

  /** The outcome of a run: the template, the properties printed into each container from the
      starting one on, and the applied names. */
  datatype RunOutcome = RunOutcome(
    t: PodTemplate,
    properties: seq<Option<Properties>>,
    applied: seq<string>,
    failed: bool)

  ghost function RunFrom(s: Server, t: PodTemplate, i: nat): (o: RunOutcome)
    requires i <= |t.containers|
    ensures |o.t.containers| == |t.containers|
    ensures !o.failed ==> |o.properties| == |t.containers| - i
    decreases |t.containers| - i
  {
    if i == |t.containers| then RunOutcome(t, [], [], false)
    else
      var step := StepContainer(s, t, i);
      if step.failed then RunOutcome(step.t, [], [], true)
      else
        var rest := RunFrom(s, step.t, i + 1);
        if rest.failed then rest
        else rest.(properties := [step.p] + rest.properties, applied := step.applied + rest.applied)
  }

  ghost function Run(images: seq<ImageConfig>, semver: (string, string) -> bool, t: PodTemplate): RunOutcome {
    RunFrom(SpringServer(images, semver), t, 0)
  }
}
