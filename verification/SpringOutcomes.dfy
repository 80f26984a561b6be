/** What the Spring Boot conventions do, case by case and in the names and numbers of the Spring Boot
    documentation, and what of it is found in the template after a whole run. */
module SpringOutcomes {
  import opened Wrappers
  import opened Text
  import opened Core
  import opened Dependencies
  import opened SpringProperties
  import opened SpringBoot
  import opened Convergence
  import opened SpringRuns
  import opened RunConvergence
  import opened SpringGuarantees

  // ----- which conventions apply -----

  /** Some version of the dependency, the first one listed, meets the constraint. */
  ghost predicate Meets(f: Facts, name: string, constraint: string) {
    exists version :: FirstVersion(f.deps, name, version) && f.semver(version, constraint)
  }

  lemma OneName(deps: seq<Component>, name: string)
    ensures Has(deps, [name]) <==> Lists(deps, name)
  {
    HasMeans(deps, [name]);
    assert Lists(deps, name) ==> Lists(deps, [name][0]);
  }

  lemma FourNames(deps: seq<Component>, a: string, b: string, c: string, d: string)
    ensures Has(deps, [a, b, c, d]) <==> Lists(deps, a) || Lists(deps, b) || Lists(deps, c) || Lists(deps, d)
  {
    var names := [a, b, c, d];
    HasMeans(deps, names);
    assert names[0] == a && names[1] == b && names[2] == c && names[3] == d;
    assert Lists(deps, a) ==> Lists(deps, names[0]);
    assert Lists(deps, b) ==> Lists(deps, names[1]);
    assert Lists(deps, c) ==> Lists(deps, names[2]);
    assert Lists(deps, d) ==> Lists(deps, names[3]);
  }

  lemma FrameworkApplies(f: Facts)
    ensures GetId(Framework) == "spring-boot"
    ensures IsApplicable(Framework, f) <==> Lists(f.deps, "spring-boot")
  {
    OneName(f.deps, "spring-boot");
  }

  lemma GracefulShutdownApplies(f: Facts)
    ensures GetId(GracefulShutdown) == "spring-boot-graceful-shutdown"
    ensures IsApplicable(GracefulShutdown, f) <==>
      && Meets(f, "spring-boot", ">= 2.3.0-0")
      && (Lists(f.deps, "spring-boot-starter-tomcat") || Lists(f.deps, "spring-boot-starter-jetty")
          || Lists(f.deps, "spring-boot-starter-reactor-netty") || Lists(f.deps, "spring-boot-starter-undertow"))
  {
    SatisfiesMeans(f.deps, "spring-boot", ">= 2.3.0-0", f.semver);
    FourNames(f.deps, "spring-boot-starter-tomcat", "spring-boot-starter-jetty",
              "spring-boot-starter-reactor-netty", "spring-boot-starter-undertow");
  }

  lemma WebApplies(f: Facts)
    ensures GetId(Web) == "spring-boot-web"
    ensures IsApplicable(Web, f) <==> Lists(f.deps, "spring-boot") && Lists(f.deps, "spring-web")
  {
    OneName(f.deps, "spring-boot");
    OneName(f.deps, "spring-web");
  }

  lemma ActuatorApplies(f: Facts)
    ensures GetId(Actuator) == "spring-boot-actuator" && GetId(ActuatorProbes) == "spring-boot-actuator-probes"
    ensures IsApplicable(Actuator, f) <==> Lists(f.deps, "spring-boot-actuator")
    ensures IsApplicable(ActuatorProbes, f) <==> Lists(f.deps, "spring-boot-actuator")
  {
    OneName(f.deps, "spring-boot-actuator");
  }

  /** The intent for a service has the service's name in its id and in its label. */
  predicate IsIntentFor(c: Convention, service: string, dependencies: seq<string>) {
    && c.ServiceIntent? && c.id == "service-intent-" + service
    && c.labelName == "services.conventions.carto.run/" + service
    && c.dependencies == dependencies
  }

  lemma ServiceIntentApplies(c: Convention, f: Facts, service: string, dependencies: seq<string>)
    requires IsIntentFor(c, service, dependencies)
    ensures GetId(c) == "service-intent-" + service
    ensures IsApplicable(c, f) <==> exists n :: 0 <= n < |dependencies| && Lists(f.deps, dependencies[n])
  {
    HasMeans(f.deps, dependencies);
  }

  /** The conventions of the server, in their order: these five, and then one for each service. */
  lemma ConventionOrder()
    ensures |SPRING_BOOT_CONVENTIONS| == 12
    ensures SPRING_BOOT_CONVENTIONS[..5] == [Framework, GracefulShutdown, Web, Actuator, ActuatorProbes]
  {
  }

  lemma DatabaseIntents()
    ensures IsIntentFor(SPRING_BOOT_CONVENTIONS[5], "mysql", ["mysql-connector-java", "r2dbc-mysql"])
    ensures IsIntentFor(SPRING_BOOT_CONVENTIONS[6], "postgres", ["postgresql", "r2dbc-postgresql"])
    ensures IsIntentFor(SPRING_BOOT_CONVENTIONS[7], "mongodb", ["mongodb-driver-core"])
  {
  }

  lemma BrokerIntents()
    ensures IsIntentFor(SPRING_BOOT_CONVENTIONS[8], "rabbitmq", ["amqp-client"])
    ensures IsIntentFor(SPRING_BOOT_CONVENTIONS[9], "redis", ["jedis"])
    ensures IsIntentFor(SPRING_BOOT_CONVENTIONS[10], "kafka", ["kafka-clients"])
    ensures IsIntentFor(SPRING_BOOT_CONVENTIONS[11], "kafka-streams", ["kafka-streams"])
  {
  }

  /** The names of the conventions that apply are reported in the order of the conventions. */
  lemma {:induction false} AppliedIdsConcat(a: seq<Convention>, b: seq<Convention>, f: Facts)
    ensures AppliedIds(a + b, f) == AppliedIds(a, f) + AppliedIds(b, f)
  {
    if a == [] {
      assert a + b == b;
    } else {
      assert (a + b)[1..] == a[1..] + b;
      AppliedIdsConcat(a[1..], b, f);
    }
  }

  // ----- what each convention does -----

  /** A Go map read: the value, or the empty string. */
  function ValueAt(p: Properties, key: string): string {
    if key in p then p[key] else ""
  }

  lemma FrameworkDoes(t: PodTemplate, p: Properties, i: nat, f: Facts, version: string)
    requires i < |t.containers|
    ensures var o := ApplyConvention(Framework, t, p, i, f);
      && !o.failed && o.p == p && o.t == t.(labels := o.t.labels, annotations := o.t.annotations)
      && o.t.labels == t.labels["conventions.carto.run/framework" := "spring-boot"]
      && (!Lists(f.deps, "spring-boot") ==> o.t.annotations == t.annotations)
      && (FirstVersion(f.deps, "spring-boot", version) ==>
            o.t.annotations == t.annotations["boot.spring.io/version" := version])
  {
    FindMeans(f.deps, "spring-boot", version);
  }

  /** The pod gets a grace period, 30 seconds unless it has one, and Boot the whole seconds of 80% of it. */
  lemma GracefulShutdownDoes(t: PodTemplate, p: Properties, i: nat, f: Facts) returns (boot: int)
    requires i < |t.containers|
    ensures var o := ApplyConvention(GracefulShutdown, t, p, i, f);
      var grace := if t.terminationGracePeriodSeconds.Some? then t.terminationGracePeriodSeconds.value else 30;
      && !o.failed && o.t == t.(terminationGracePeriodSeconds := Some(grace))
      && o.p == p["server.shutdown.grace-period" := Itoa(boot) + "s"]
      && 5 * boot <= 4 * grace < 5 * boot + 5
  {
    boot := BootGrace(PodGrace(t));
    BootGraceIsFourFifths(PodGrace(t));
  }

  /** Some container declares the port, and no one before it. */
  predicate FirstDeclares(containers: seq<Container>, port: int, k: nat) {
    && k < |containers|
    && (exists n :: 0 <= n < |containers[k].ports| && containers[k].ports[n].containerPort == port)
    && forall j, n | 0 <= j < k && 0 <= n < |containers[j].ports| :: containers[j].ports[n].containerPort != port
  }

  /** The server port, 8080 unless it is set, must be a number. The container declares it for TCP if nobody
      does; a port that another container was the first to declare is a conflict. */
  lemma WebDoes(t: PodTemplate, p: Properties, i: nat, f: Facts, k: nat)
    requires i < |t.containers|
    ensures var o := ApplyConvention(Web, t, p, i, f);
      var text := if "server.port" in p then p["server.port"] else "8080";
      && o.p == p["server.port" := text]
      && (Atoi(text).None? ==> o.failed && o.t == t)
      && (Atoi(text).Some? ==>
            var c, port := t.containers[i], ToInt32(Atoi(text).value);
            && (FirstDeclares(t.containers, port, k) ==>
                  o.t == t && (o.failed <==> t.containers[k].name != c.name))
            && ((forall j :: !FirstDeclares(t.containers, port, j)) ==>
                  var declared := c.(ports := c.ports + [ContainerPort(port, "TCP")]);
                  !o.failed && o.t == t.(containers := t.containers[i := declared])))
  {
    var text := if "server.port" in p then p["server.port"] else "8080";
    assert WithDefault(p, SERVER_PORT, "8080") == p["server.port" := text];
    if Atoi(text).Some? {
      var port := ToInt32(Atoi(text).value);
      if FirstDeclares(t.containers, port, k) {
        FirstDeclaresOwns(t.containers, port, k);
      } else if FirstOwner(t.containers, port).Some? {
        assert FirstDeclares(t.containers, port, FirstOwner(t.containers, port).value);
      }
    }
  }

  lemma FirstDeclaresOwns(containers: seq<Container>, port: int, k: nat)
    requires FirstDeclares(containers, port, k)
    ensures FirstOwner(containers, port) == Some(k)
  {
    assert Declares(containers[k], port);
    OwnerIsFirst(containers, port, k);
  }

  /** The management port is the server port and the base path /actuator unless they are set. */
  predicate ManagementDefaults(p: Properties, q: Properties) {
    var port := if "management.server.port" in p then p["management.server.port"] else ValueAt(p, "server.port");
    var path := if "management.endpoints.web.base-path" in p then p["management.endpoints.web.base-path"]
      else "/actuator";
    q == p["management.server.port" := port]["management.endpoints.web.base-path" := path]
  }

  /** The address of the actuator: https only for the switch "true", no host, then port and path. */
  function ActuatorAddress(p: Properties): string {
    (if ValueAt(p, "management.server.ssl.enabled") == "true" then "https://:" else "http://:")
    + ValueAt(p, "management.server.port") + ValueAt(p, "management.endpoints.web.base-path")
  }

  lemma ActuatorDoes(t: PodTemplate, p: Properties, i: nat, f: Facts)
    requires i < |t.containers|
    ensures var o := ApplyConvention(Actuator, t, p, i, f);
      && !o.failed && ManagementDefaults(p, o.p)
      && o.t == t.(annotations := t.annotations["boot.spring.io/actuator" := ActuatorAddress(o.p)])
  {
    var q := ApplyActuator(t, p).p;
    DistinctKeys();
    ManagementIsDefaulted(p, q);
    AddressIsUri(q);
  }

  lemma ManagementIsDefaulted(p: Properties, q: Properties)
    requires var p1 := WithDefault(p, MANAGEMENT_PORT, Get(p, SERVER_PORT));
      q == WithDefault(p1, MANAGEMENT_BASE_PATH, "/actuator")
    ensures ManagementDefaults(p, q)
  {
    DistinctKeys();
    var port := if MANAGEMENT_PORT in p then p[MANAGEMENT_PORT] else ValueAt(p, SERVER_PORT);
    assert WithDefault(p, MANAGEMENT_PORT, Get(p, SERVER_PORT)) == p[MANAGEMENT_PORT := port];
  }

  lemma AddressIsUri(p: Properties)
    ensures ManagementUri(p) == ActuatorAddress(p)
  {
    assert "https" + "://:" == "https://:" && "http" + "://:" == "http://:";
  }

  // ----- probes -----

  /** A handler that is missing is filled in, in a new probe if the probe is missing; any other stays. */
  predicate ProbeFilled(before: Option<Probe>, after: Option<Probe>, absent: Probe, handler: ProbeHandler) {
    && after.Some?
    && (before.None? ==> after.value == absent.(handler := handler))
    && (before.Some? && before.value.handler == NoHandler ==> after.value == before.value.(handler := handler))
    && (before.Some? && before.value.handler != NoHandler ==> after == before)
  }

  /** The probes of the actuator at a port: liveness and readiness have paths of their own from 2.3 on, and
      /info before; a missing startup probe asks for 120 seconds, second by second, what liveness asks. */
  ghost predicate ActuatorProbesAt(c: Container, d: Container, base: string, port: int, scheme: string, f: Facts) {
    var recent := Meets(f, "spring-boot-actuator", ">= 2.3.0-0");
    var live, ready := if recent then "/health/liveness" else "/info", if recent then "/health/readiness" else "/info";
    && ProbeFilled(c.livenessProbe, d.livenessProbe, Probe(NoHandler, 0, 0, 0), HTTPGet(base + live, port, scheme))
    && ProbeFilled(c.readinessProbe, d.readinessProbe, Probe(NoHandler, 0, 0, 0), HTTPGet(base + ready, port, scheme))
    && ProbeFilled(c.startupProbe, d.startupProbe, Probe(NoHandler, 1, 1, 120), d.livenessProbe.value.handler)
  }

  predicate SameProbes(c: Container, d: Container) {
    d.livenessProbe == c.livenessProbe && d.readinessProbe == c.readinessProbe && d.startupProbe == c.startupProbe
  }

  /** What becomes of the probes, by the properties that are printed. */
  ghost predicate ProbesFollow(c: Container, d: Container, p: Properties, f: Facts) {
    && "management.health.probes.enabled" in p
    && if p["management.health.probes.enabled"] != "true" then SameProbes(c, d)
       else
         var port := Atoi(ValueAt(p, "management.server.port"));
         var scheme := if ValueAt(p, "management.server.ssl.enabled") == "true" then "HTTPS" else "HTTP";
         && port.Some?
         && ActuatorProbesAt(c, d, ValueAt(p, "management.endpoints.web.base-path"), ToInt32(port.value), scheme, f)
  }

  lemma FillingFills(probe: Option<Probe>, absent: Probe, handler: ProbeHandler)
    requires absent.handler == NoHandler
    ensures ProbeFilled(probe, FillProbe(probe, absent, handler), absent, handler)
  {
  }

  lemma FillProbesFills(c: Container, p: Properties, port: int, f: Facts)
    ensures var scheme := if ValueAt(p, "management.server.ssl.enabled") == "true" then "HTTPS" else "HTTP";
      ActuatorProbesAt(c, FillProbes(c, p, port, f), ValueAt(p, "management.endpoints.web.base-path"), ToInt32(port),
                       scheme, f)
  {
    SatisfiesMeans(f.deps, "spring-boot-actuator", ">= 2.3.0-0", f.semver);
    var base := Get(p, MANAGEMENT_BASE_PATH);
    FillingFills(c.livenessProbe, NEW_PROBE, HTTPGet(base + LivenessPath(f), ToInt32(port), Scheme(p)));
    FillingFills(c.readinessProbe, NEW_PROBE, HTTPGet(base + ReadinessPath(f), ToInt32(port), Scheme(p)));
    FillingFills(c.startupProbe, NEW_STARTUP_PROBE, FillProbes(c, p, port, f).livenessProbe.value.handler);
  }

  /** The switch of the probes is "true" unless it is set. With it the management port must be a number, and
      the probes are filled in; nothing but the probes of the container changes. */
  lemma ActuatorProbesDoes(t: PodTemplate, p: Properties, i: nat, f: Facts)
    requires i < |t.containers|
    ensures var o := ApplyConvention(ActuatorProbes, t, p, i, f);
      var switch := if "management.health.probes.enabled" in p then p["management.health.probes.enabled"] else "true";
      && o.p == p["management.health.probes.enabled" := switch]
      && (o.failed <==> switch == "true" && Atoi(ValueAt(o.p, "management.server.port")).None?)
      && (o.failed ==> o.t == t)
      && (!o.failed ==>
            var c, d := t.containers[i], o.t.containers[i];
            && ProbesFollow(c, d, o.p, f)
            && d == c.(livenessProbe := d.livenessProbe, readinessProbe := d.readinessProbe,
                       startupProbe := d.startupProbe)
            && o.t == t.(containers := t.containers[i := d]))
  {
    var q := WithDefault(p, PROBES_ENABLED, "true");
    var port := Atoi(Get(q, MANAGEMENT_PORT));
    if q[PROBES_ENABLED] == "true" && port.Some? {
      FillProbesFills(t.containers[i], q, port.value, f);
    } else {
      assert t.containers[i := t.containers[i]] == t.containers;
    }
  }

  // ----- a whole pass over one container -----

  /** The names reported before are put in front. */
  function Behind(names: seq<string>, o: ConventionsOutcome): ConventionsOutcome {
    o.(applied := names + o.applied)
  }

  lemma BehindTwice(a: seq<string>, b: seq<string>, o: ConventionsOutcome)
    ensures Behind(a, Behind(b, o)) == Behind(a + b, o) && Behind([], o) == o
  {
    assert a + (b + o.applied) == (a + b) + o.applied;
  }

  lemma PassStep(cs: seq<Convention>, t: PodTemplate, p: Properties, i: nat, f: Facts)
    requires i < |t.containers| && cs != [] && IsApplicable(cs[0], f)
    ensures var first := ApplyConvention(cs[0], t, p, i, f);
      ApplyAll(cs, t, p, i, f) ==
        if first.failed then ConventionsOutcome(first.t, first.p, [GetId(cs[0])], true)
        else Behind([GetId(cs[0])], ApplyAll(cs[1..], first.t, first.p, i, f))
  {
  }

  /** A pass takes the conventions one after the other, each from what the ones before it left, and stops at
      the first that fails. */
  lemma {:induction false} PassConcat(a: seq<Convention>, b: seq<Convention>, t: PodTemplate, p: Properties, i: nat,
                                      f: Facts)
    requires i < |t.containers|
    ensures var o := ApplyAll(a, t, p, i, f);
      ApplyAll(a + b, t, p, i, f) == if o.failed then o else Behind(o.applied, ApplyAll(b, o.t, o.p, i, f))
  {
    if a == [] {
      assert a + b == b;
      BehindTwice([], [], ApplyAll(b, t, p, i, f));
    } else {
      assert (a + b)[0] == a[0] && (a + b)[1..] == a[1..] + b;
      if IsApplicable(a[0], f) {
        var first := ApplyConvention(a[0], t, p, i, f);
        PassStep(a, t, p, i, f);
        PassStep(a + b, t, p, i, f);
        if !first.failed {
          PassConcat(a[1..], b, first.t, first.p, i, f);
          var front := ApplyAll(a[1..], first.t, first.p, i, f);
          BehindTwice([GetId(a[0])], front.applied, ApplyAll(b, front.t, front.p, i, f));
        }
      } else {
        PassConcat(a[1..], b, t, p, i, f);
      }
    }
  }

  lemma PassOfOne(c: Convention, t: PodTemplate, p: Properties, i: nat, f: Facts)
    requires i < |t.containers|
    ensures ApplyAll([c], t, p, i, f) ==
      if !IsApplicable(c, f) then ConventionsOutcome(t, p, [], false)
      else var o := ApplyConvention(c, t, p, i, f); ConventionsOutcome(o.t, o.p, [GetId(c)], o.failed)
  {
    assert [c][1..] == [];
  }

  lemma FollowLater(c: Container, d: Container, e: Container, p: Properties, q: Properties, f: Facts)
    requires ProbesFollow(c, d, p, f) && SameProbes(d, e)
    requires Grows(p, q) && Get(q, MANAGEMENT_SSL) == Get(p, MANAGEMENT_SSL)
    requires MANAGEMENT_PORT in p && MANAGEMENT_BASE_PATH in p
    ensures ProbesFollow(c, e, q, f)
  {
    DistinctKeys();
  }

  /** No convention of the list that applies is about probes. */
  predicate LeavesProbes(cs: seq<Convention>, f: Facts) {
    forall k | 0 <= k < |cs| && IsApplicable(cs[k], f) :: cs[k] != ActuatorProbes
  }

  lemma OthersLeaveProbes(c: Convention, t: PodTemplate, p: Properties, i: nat, f: Facts)
    requires i < |t.containers| && c != ActuatorProbes
    ensures SameProbes(t.containers[i], ApplyConvention(c, t, p, i, f).t.containers[i])
  {
  }

  lemma {:induction false} ProbesAreLeft(cs: seq<Convention>, t: PodTemplate, p: Properties, i: nat, f: Facts)
    requires i < |t.containers| && LeavesProbes(cs, f)
    ensures SameProbes(t.containers[i], ApplyAll(cs, t, p, i, f).t.containers[i])
  {
    if cs != [] {
      assert forall k | 0 <= k < |cs[1..]| :: cs[1..][k] == cs[k + 1];
      if IsApplicable(cs[0], f) {
        var first := ApplyConvention(cs[0], t, p, i, f);
        OthersLeaveProbes(cs[0], t, p, i, f);
        ProbesAreLeft(cs[1..], first.t, first.p, i, f);
      } else {
        ProbesAreLeft(cs[1..], t, p, i, f);
      }
    }
  }

  /** The probes come right behind the actuator, and nothing else is about probes. */
  predicate HasProbesAt(cs: seq<Convention>, k: nat) {
    && k + 1 < |cs| && cs[k] == Actuator && cs[k + 1] == ActuatorProbes
    && forall j | 0 <= j < |cs| && j != k + 1 :: cs[j] != ActuatorProbes
  }

  lemma {:induction false} ProbesOfPass(cs: seq<Convention>, k: nat, t: PodTemplate, p: Properties, i: nat, f: Facts)
    requires i < |t.containers| && HasProbesAt(cs, k) && IsApplicable(ActuatorProbes, f)
    requires !ApplyAll(cs, t, p, i, f).failed
    ensures var o := ApplyAll(cs, t, p, i, f); ProbesFollow(t.containers[i], o.t.containers[i], o.p, f)
  {
    assert forall j | 0 <= j < |cs[1..]| :: cs[1..][j] == cs[j + 1];
    if k > 0 {
      if IsApplicable(cs[0], f) {
        var first := ApplyConvention(cs[0], t, p, i, f);
        OthersLeaveProbes(cs[0], t, p, i, f);
        ProbesOfPass(cs[1..], k - 1, first.t, first.p, i, f);
      } else {
        ProbesOfPass(cs[1..], k - 1, t, p, i, f);
      }
    } else {
      var first := ApplyConvention(Actuator, t, p, i, f);
      ProbesComeNext(cs[1..], first.t, first.p, i, f);
    }
  }

  lemma ProbesComeNext(cs: seq<Convention>, t: PodTemplate, p: Properties, i: nat, f: Facts)
    requires i < |t.containers| && cs != [] && cs[0] == ActuatorProbes && IsApplicable(ActuatorProbes, f)
    requires forall j | 0 < j < |cs| :: cs[j] != ActuatorProbes
    requires MANAGEMENT_PORT in p && MANAGEMENT_BASE_PATH in p && !ApplyAll(cs, t, p, i, f).failed
    ensures var o := ApplyAll(cs, t, p, i, f); ProbesFollow(t.containers[i], o.t.containers[i], o.p, f)
  {
    var first := ApplyConvention(ActuatorProbes, t, p, i, f);
    var o := ApplyAll(cs[1..], first.t, first.p, i, f);
    ActuatorProbesDoes(t, p, i, f);
    ProbesAreLeft(cs[1..], first.t, first.p, i, f);
    ApplyAllGrows(cs[1..], first.t, first.p, i, f);
    FollowLater(t.containers[i], first.t.containers[i], o.t.containers[i], first.p, o.p, f);
  }

  /** A container has its ports, or besides them the server port that is printed, for TCP. */
  predicate PortsFollow(c: Container, d: Container, p: Properties) {
    || d.ports == c.ports
    || ("server.port" in p && Atoi(p["server.port"]).Some?
        && d.ports == c.ports + [ContainerPort(ToInt32(Atoi(p["server.port"]).value), "TCP")])
  }

  lemma OthersLeavePorts(c: Convention, t: PodTemplate, p: Properties, i: nat, f: Facts)
    requires i < |t.containers| && c != Web
    ensures ApplyConvention(c, t, p, i, f).t.containers[i].ports == t.containers[i].ports
  {
  }

  lemma {:induction false} PortsAreLeft(cs: seq<Convention>, t: PodTemplate, p: Properties, i: nat, f: Facts)
    requires i < |t.containers| && Web !in cs
    ensures ApplyAll(cs, t, p, i, f).t.containers[i].ports == t.containers[i].ports
  {
    if cs != [] {
      assert cs == [cs[0]] + cs[1..];
      if IsApplicable(cs[0], f) {
        var first := ApplyConvention(cs[0], t, p, i, f);
        OthersLeavePorts(cs[0], t, p, i, f);
        PortsAreLeft(cs[1..], first.t, first.p, i, f);
      } else {
        PortsAreLeft(cs[1..], t, p, i, f);
      }
    }
  }

  lemma {:induction false} PortsOfPass(cs: seq<Convention>, k: nat, t: PodTemplate, p: Properties, i: nat, f: Facts)
    requires i < |t.containers| && k < |cs| && forall j | 0 <= j < |cs| && j != k :: cs[j] != Web
    requires !ApplyAll(cs, t, p, i, f).failed
    ensures var o := ApplyAll(cs, t, p, i, f); PortsFollow(t.containers[i], o.t.containers[i], o.p)
  {
    assert forall j | 0 <= j < |cs[1..]| :: cs[1..][j] == cs[j + 1];
    if k == 0 {
      PortsOfFirst(cs, t, p, i, f);
    } else if IsApplicable(cs[0], f) {
      var first := ApplyConvention(cs[0], t, p, i, f);
      OthersLeavePorts(cs[0], t, p, i, f);
      PortsOfPass(cs[1..], k - 1, first.t, first.p, i, f);
    } else {
      PortsOfPass(cs[1..], k - 1, t, p, i, f);
    }
  }

  lemma PortsOfFirst(cs: seq<Convention>, t: PodTemplate, p: Properties, i: nat, f: Facts)
    requires i < |t.containers| && cs != [] && Web !in cs[1..] && !ApplyAll(cs, t, p, i, f).failed
    ensures var o := ApplyAll(cs, t, p, i, f); PortsFollow(t.containers[i], o.t.containers[i], o.p)
  {
    if IsApplicable(cs[0], f) {
      var first := ApplyConvention(cs[0], t, p, i, f);
      PortsOfConvention(cs[0], t, p, i, f);
      PortsAreLeft(cs[1..], first.t, first.p, i, f);
      ApplyAllGrows(cs[1..], first.t, first.p, i, f);
      var o := ApplyAll(cs[1..], first.t, first.p, i, f);
      PortsLater(t.containers[i], first.t.containers[i], o.t.containers[i], first.p, o.p);
    } else {
      PortsAreLeft(cs[1..], t, p, i, f);
    }
  }

  lemma PortsOfConvention(c: Convention, t: PodTemplate, p: Properties, i: nat, f: Facts)
    requires i < |t.containers| && !ApplyConvention(c, t, p, i, f).failed
    ensures var o := ApplyConvention(c, t, p, i, f);
      PortsFollow(t.containers[i], o.t.containers[i], o.p)
  {
  }

  lemma PortsLater(c: Container, d: Container, e: Container, p: Properties, q: Properties)
    requires PortsFollow(c, d, p) && e.ports == d.ports && Grows(p, q)
    ensures PortsFollow(c, e, q)
  {
    DistinctKeys();
  }

  // ----- whole runs -----

  /** Container j meets its turn of a run as it is at first, and its turn leaves it as it is at the end. */
  lemma {:induction false} TurnOf(s: Server, t: PodTemplate, i: nat, j: nat)
    returns (u: PodTemplate, step: StepOutcome)
    requires i <= j < |t.containers| && !RunFrom(s, t, i).failed
    ensures |u.containers| == |t.containers| && u.containers[j] == t.containers[j]
    ensures step == StepContainer(s, u, j) && !step.failed
    ensures RunFrom(s, t, i).t.containers[j] == step.t.containers[j] && RunFrom(s, t, i).properties[j - i] == step.p
    decreases j - i
  {
    var first := StepContainer(s, t, i);
    if i < j {
      StepFrame(s, t, i, j);
      u, step := TurnOf(s, first.t, i + 1, j);
    } else {
      u, step := t, first;
      RunFrame(s, first.t, i + 1, j);
    }
  }

  ghost predicate ProbesEnd(c: Container, d: Container, p: Option<Properties>, f: Facts) {
    p.Some? && if IsApplicable(ActuatorProbes, f) then ProbesFollow(c, d, p.value, f) else SameProbes(c, d)
  }

  lemma ProbesOfTurn(s: Server, t: PodTemplate, j: nat, k: nat)
    requires j < |t.containers| && HasMetadata(s, t, j) && HasProbesAt(s.conventions, k)
    requires !StepContainer(s, t, j).failed
    ensures var o := StepContainer(s, t, j);
      ProbesEnd(t.containers[j], o.t.containers[j], o.p, FactsAt(s, t, j))
  {
    var f := FactsAt(s, t, j);
    var (c, p) := ReadOptions(t.containers[j]);
    var read := SetContainer(t, j, c);
    if IsApplicable(ActuatorProbes, f) {
      ProbesOfPass(s.conventions, k, read, p, j, f);
      var mid := ApplyAll(s.conventions, read, p, j, f);
      SameFollow(t.containers[j], c, mid.t.containers[j], StepContainer(s, t, j).t.containers[j], mid.p, f);
    } else {
      ProbesAreLeft(s.conventions, read, p, j, f);
    }
  }

  lemma SameFollow(b: Container, c: Container, d: Container, e: Container, p: Properties, f: Facts)
    requires SameProbes(b, c) && SameProbes(d, e) && ProbesFollow(c, d, p, f)
    ensures ProbesFollow(b, e, p, f)
  {
  }

  lemma ProbesOfRun(s: Server, t: PodTemplate, j: nat, k: nat)
    requires j < |t.containers| && HasMetadata(s, t, j) && HasProbesAt(s.conventions, k) && !RunFrom(s, t, 0).failed
    ensures var o := RunFrom(s, t, 0);
      ProbesEnd(t.containers[j], o.t.containers[j], o.properties[j], FactsAt(s, t, j))
  {
    var u, step := TurnOf(s, t, 0, j);
    assert FactsAt(s, u, j) == FactsAt(s, t, j);
    assert ProbesEnd(u.containers[j], step.t.containers[j], step.p, FactsAt(s, u, j)) by {
      ProbesOfTurn(s, u, j, k);
    }
  }

  /** After a successful run of the server, the probes of every container with metadata follow from those it
      had and the properties printed into it; without the actuator they are as they were. */
  lemma FinalProbes(images: seq<ImageConfig>, semver: (string, string) -> bool, t: PodTemplate, j: nat)
    requires j < |t.containers| && HasMetadata(SpringServer(images, semver), t, j) && !Run(images, semver, t).failed
    ensures var o, f := Run(images, semver, t), FactsAt(SpringServer(images, semver), t, j);
      && o.properties[j].Some?
      && if Lists(f.deps, "spring-boot-actuator")
         then ProbesFollow(t.containers[j], o.t.containers[j], o.properties[j].value, f)
         else SameProbes(t.containers[j], o.t.containers[j])
  {
    var s := SpringServer(images, semver);
    ProbesPlace();
    ProbesOfRun(s, t, j, 3);
    ActuatorApplies(FactsAt(s, t, j));
  }

  lemma ProbesPlace()
    ensures HasProbesAt(SPRING_BOOT_CONVENTIONS, 3)
  {
  }

  /** And its ports are those it had, and at most its own server port besides. */
  lemma FinalPorts(images: seq<ImageConfig>, semver: (string, string) -> bool, t: PodTemplate, j: nat)
    requires j < |t.containers| && HasMetadata(SpringServer(images, semver), t, j) && !Run(images, semver, t).failed
    ensures var o := Run(images, semver, t);
      o.properties[j].Some? && PortsFollow(t.containers[j], o.t.containers[j], o.properties[j].value)
  {
    WebPlace();
    PortsOfRun(SpringServer(images, semver), t, j, 2);
  }

  lemma PortsOfRun(s: Server, t: PodTemplate, j: nat, k: nat)
    requires j < |t.containers| && HasMetadata(s, t, j) && !RunFrom(s, t, 0).failed
    requires k < |s.conventions| && forall n | 0 <= n < |s.conventions| && n != k :: s.conventions[n] != Web
    ensures var o := RunFrom(s, t, 0); PortsEnd(t.containers[j], o.t.containers[j], o.properties[j])
  {
    var u, step := TurnOf(s, t, 0, j);
    assert PortsEnd(u.containers[j], step.t.containers[j], step.p) by {
      PortsOfTurn(s, u, j, k);
    }
  }

  predicate PortsEnd(c: Container, d: Container, p: Option<Properties>) {
    p.Some? && PortsFollow(c, d, p.value)
  }

  lemma WebPlace()
    ensures |SPRING_BOOT_CONVENTIONS| == 12
    ensures forall k | 0 <= k < 12 && k != 2 :: SPRING_BOOT_CONVENTIONS[k] != Web
  {
  }

  lemma PortsOfTurn(s: Server, t: PodTemplate, j: nat, k: nat)
    requires j < |t.containers| && HasMetadata(s, t, j) && !StepContainer(s, t, j).failed
    requires k < |s.conventions| && forall n | 0 <= n < |s.conventions| && n != k :: s.conventions[n] != Web
    ensures var o := StepContainer(s, t, j); PortsEnd(t.containers[j], o.t.containers[j], o.p)
  {
    var (c, p) := ReadOptions(t.containers[j]);
    PortsOfPass(s.conventions, k, SetContainer(t, j, c), p, j, FactsAt(s, t, j));
  }

  /** The environment at the end: the words of the options that are no properties, and behind them the printed
      properties, in the first variable of that name or, without one, in a new last variable. */
  lemma FinalEnvironment(s: Server, t: PodTemplate, j: nat, at: nat)
    requires j < |t.containers| && HasMetadata(s, t, j) && !RunFrom(s, t, 0).failed
    ensures var o, env := RunFrom(s, t, 0), t.containers[j].env;
      && o.properties[j].Some?
      && var printed := Join(Words(o.properties[j].value), ' ');
         && ((forall i | 0 <= i < |env| :: env[i].name != "JAVA_TOOL_OPTIONS") ==>
               o.t.containers[j].env == env + [EnvVar("JAVA_TOOL_OPTIONS", printed)])
         && (IsFirstVariable(env, "JAVA_TOOL_OPTIONS", at) ==>
               var kept := Join(NonProperties(Split(env[at].value, ' ')), ' ');
               var text := TrimSpace(kept + " " + printed);
               o.t.containers[j].env == env[at := EnvVar("JAVA_TOOL_OPTIONS", text)])
  {
    var o := RunFrom(s, t, 0);
    RunOutcomeFacts(s, t);
    PrintedEnvironment(t.containers[j], o.properties[j].value, o.t.containers[j], at);
  }

  lemma PrintedEnvironment(c: Container, p: Properties, d: Container, at: nat)
    requires PrintedInto(c, p, d)
    ensures (forall i | 0 <= i < |c.env| :: c.env[i].name != "JAVA_TOOL_OPTIONS") ==>
      d.env == c.env + [EnvVar("JAVA_TOOL_OPTIONS", Join(Words(p), ' '))]
    ensures IsFirstVariable(c.env, "JAVA_TOOL_OPTIONS", at) ==>
      var kept := Join(NonProperties(Split(c.env[at].value, ' ')), ' ');
      var text := TrimSpace(kept + " " + Join(Words(p), ' '));
      d.env == c.env[at := EnvVar("JAVA_TOOL_OPTIONS", text)]
  {
    ReadMeans(c, at);
    WriteMeans(ReadOptions(c).0, p, at);
  }

  /** The grace periods at the end: the pod's is its own or 30, and each container with graceful shutdown is
      told the whole seconds of 80% of it. */
  lemma FinalGrace(s: Server, t: PodTemplate, j: nat) returns (boot: int)
    requires j < |t.containers| && HasMetadata(s, t, j) && !RunFrom(s, t, 0).failed
    requires Applies(s.conventions, GracefulShutdown, FactsAt(s, t, j))
    ensures var o := RunFrom(s, t, 0);
      var grace := if t.terminationGracePeriodSeconds.Some? then t.terminationGracePeriodSeconds.value else 30;
      && o.t.terminationGracePeriodSeconds == Some(grace)
      && o.properties[j].Some? && "server.shutdown.grace-period" in o.properties[j].value
      && o.properties[j].value["server.shutdown.grace-period"] == Itoa(boot) + "s"
      && 5 * boot <= 4 * grace < 5 * boot + 5
  {
    boot := BootGrace(PodGrace(t));
    BootGraceIsFourFifths(PodGrace(t));
    ShutdownGraceIsDerived(s, t, j);
  }

  /** The names that a run reports: for each container with metadata those that apply to it, in the order of
      the containers; here of two. */
  lemma NamesInOrder(s: Server, t: PodTemplate)
    requires |t.containers| == 2 && !RunFrom(s, t, 0).failed
    ensures RunFrom(s, t, 0).applied
      == (if HasMetadata(s, t, 0) then AppliedIds(s.conventions, FactsAt(s, t, 0)) else [])
       + (if HasMetadata(s, t, 1) then AppliedIds(s.conventions, FactsAt(s, t, 1)) else [])
  {
    RunReports(s, t, 0, t);
    var rest := NamesFrom(s, t, 2);
    assert rest == [] && NamesFrom(s, t, 1) == StepNames(s, t, 1) + rest == StepNames(s, t, 1);
  }

  lemma {:induction false} NothingIsReported(cs: seq<Convention>, f: Facts)
    requires forall k | 0 <= k < |cs| :: !IsApplicable(cs[k], f)
    ensures AppliedIds(cs, f) == []
  {
    if cs != [] {
      assert forall k | 0 <= k < |cs[1..]| :: cs[1..][k] == cs[k + 1];
      NothingIsReported(cs[1..], f);
    }
  }

  /** A run that fails does so at some container, reports no names, and leaves the containers behind it alone. */
  lemma {:induction false} FailedRunStops(s: Server, t: PodTemplate, i: nat) returns (j: nat)
    requires i <= |t.containers| && RunFrom(s, t, i).failed
    ensures i <= j < |t.containers| && HasMetadata(s, t, j)
    ensures RunFrom(s, t, i).applied == []
    ensures forall k | j < k < |t.containers| :: RunFrom(s, t, i).t.containers[k] == t.containers[k]
    decreases |t.containers| - i
  {
    var step := StepContainer(s, t, i);
    if step.failed {
      j := i;
      FailedTurn(s, t, i);
    } else {
      forall k | i < k < |t.containers| ensures step.t.containers[k] == t.containers[k] {
        StepFrame(s, t, i, k);
      }
      j := FailedRunStops(s, step.t, i + 1);
    }
  }

  lemma FailedTurn(s: Server, t: PodTemplate, i: nat)
    requires i < |t.containers| && StepContainer(s, t, i).failed
    ensures HasMetadata(s, t, i)
    ensures forall k | i < k < |t.containers| :: StepContainer(s, t, i).t.containers[k] == t.containers[k]
  {
    if HasMetadata(s, t, i) {
      var (c, p) := ReadOptions(t.containers[i]);
      ApplyAllEvolves(s.conventions, SetContainer(t, i, c), p, i, FactsAt(s, t, i));
    }
  }

  /** A container whose image has no metadata ends as it was. */
  lemma UnknownImageIsSkipped(s: Server, t: PodTemplate, j: nat)
    requires j < |t.containers| && t.containers[j].image !in s.images && !RunFrom(s, t, 0).failed
    ensures RunFrom(s, t, 0).t.containers[j] == t.containers[j] && RunFrom(s, t, 0).properties[j] == None
  {
    var u, step := TurnOf(s, t, 0, j);
  }

  /** Of several entries for one image the last one counts. */
  lemma {:induction false} LastEntryCounts(images: seq<ImageConfig>, k: nat)
    requires k < |images| && forall j | k < j < |images| :: images[j].image != images[k].image
    ensures images[k].image in ImageMap(images) && ImageMap(images)[images[k].image] == images[k]
  {
    var n := |images| - 1;
    if k < n {
      LastEntryCounts(images[..n], k);
    }
  }

  lemma {:induction false} EntriesCount(images: seq<ImageConfig>, image: string)
    ensures image in ImageMap(images) <==> exists k :: 0 <= k < |images| && images[k].image == image
  {
    if images != [] {
      EntriesCount(images[..|images| - 1], image);
    }
  }
}
