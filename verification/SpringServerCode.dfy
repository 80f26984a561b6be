/** The convention server itself: conventions that change a template in place. */
module SpringServerCode {
  import opened Wrappers
  import opened Text
  import opened Core
  import opened Dependencies
  import opened SpringProperties
  import opened SpringBoot

  method SetLabelOf(target: PodTemplateSpec, key: string, value: string)
    modifies target`labels
    ensures target.labels == old(target.labels)[key := value]
  {
    target.labels := target.labels[key := value];
  }

  method SetAnnotationOf(target: PodTemplateSpec, key: string, value: string)
    modifies target`annotations
    ensures target.annotations == old(target.annotations)[key := value]
  {
    target.annotations := target.annotations[key := value];
  }

  /** findContainerPort: the first container, in order, with a port of that number. */
  method FindContainerPort(target: PodTemplateSpec, port: int) returns (at: Option<nat>)
    ensures at == FirstOwner(target.View().containers, port)
  {
    var n := 0;
    while n < target.containers.Length
      invariant 0 <= n <= target.containers.Length
      invariant FirstOwner(target.containers[..n], port).None?
    {
      assert target.containers[..n + 1][..n] == target.containers[..n];
      var ports := target.containers[n].ports;
      for k := 0 to |ports|
        invariant forall m | 0 <= m < k :: ports[m].containerPort != port
      {
        if ports[k].containerPort == port {
          FirstOwnerPrefix(target.containers[..], n, port);
          return Some(n);
        }
      }
      n := n + 1;
    }
    assert target.containers[..n] == target.containers[..];
    return None;
  }

  lemma {:induction false} FirstOwnerPrefix(containers: seq<Container>, n: nat, port: int)
    requires n < |containers| && Declares(containers[n], port)
    requires FirstOwner(containers[..n], port).None?
    ensures FirstOwner(containers, port) == Some(n)
  {
    forall j | 0 <= j < n ensures !Declares(containers[j], port) {
      assert containers[..n][j] == containers[j];
    }
    var found := FirstOwner(containers, port);
    assert found.Some?;
  }

  method ApplyFrameworkTo(target: PodTemplateSpec, deps: DependenciesBOM)
    modifies target`labels, target`annotations
    ensures forall f: Facts | f.deps == deps.View() :: target.View() == ApplyFramework(old(target.View()), f)
  {
    SetLabelOf(target, "conventions.carto.run/framework", "spring-boot");
    var springBootDependency := deps.Dependency("spring-boot");
    if springBootDependency.Some? {
      SetAnnotationOf(target, "boot.spring.io/version", springBootDependency.value.version);
    }
  }

  method ApplyGracefulShutdownTo(target: PodTemplateSpec, properties: SpringApplicationProperties)
    modifies target`terminationGracePeriodSeconds, properties
    ensures var o := ApplyGracefulShutdown(old(target.View()), old(properties.entries));
      target.View() == o.t && properties.entries == o.p
  {
    var k8sGracePeriodSeconds := 30;
    if target.terminationGracePeriodSeconds.Some? {
      k8sGracePeriodSeconds := target.terminationGracePeriodSeconds.value;
    }
    target.terminationGracePeriodSeconds := Some(k8sGracePeriodSeconds);
    var bootGracePeriodSeconds := (0.8 * (k8sGracePeriodSeconds as real)).Floor;
    properties.entries := properties.entries[SHUTDOWN_GRACE := Itoa(bootGracePeriodSeconds) + "s"];
  }

  method ApplyWebTo(target: PodTemplateSpec, i: nat, properties: SpringApplicationProperties) returns (failed: bool)
    requires target.Valid() && i < target.containers.Length
    modifies target.containers, properties
    ensures var o := ApplyWeb(old(target.View()), old(properties.entries), i);
      target.View() == o.t && properties.entries == o.p && failed == o.failed
  {
    var serverPort := properties.Default(SERVER_PORT, "8080");
    var port := Atoi(serverPort);
    if port.None? {
      return true;
    }
    var owner := FindContainerPort(target, ToInt32(port.value));
    var c := target.containers[i];
    if owner.None? {
      target.containers[i] := c.(ports := c.ports + [ContainerPort(ToInt32(port.value), "TCP")]);
    } else if target.containers[owner.value].name != c.name {
      return true;
    }
    return false;
  }

  method ApplyActuatorTo(target: PodTemplateSpec, properties: SpringApplicationProperties)
    modifies target`annotations, properties
    ensures var o := ApplyActuator(old(target.View()), old(properties.entries));
      target.View() == o.t && properties.entries == o.p
  {
    var managementPort := properties.Default(MANAGEMENT_PORT, Get(properties.entries, SERVER_PORT));
    var managementBasePath := properties.Default(MANAGEMENT_BASE_PATH, "/actuator");
    var managementScheme := "http";
    if Get(properties.entries, MANAGEMENT_SSL) == "true" {
      managementScheme := "https";
    }
    PortIsKept(old(properties.entries));
    SetAnnotationOf(target, ACTUATOR_URI, managementScheme + "://:" + managementPort + managementBasePath);
  }

  lemma PortIsKept(p: Properties)
    ensures var p1 := WithDefault(p, MANAGEMENT_PORT, Get(p, SERVER_PORT));
      Get(WithDefault(p1, MANAGEMENT_BASE_PATH, "/actuator"), MANAGEMENT_PORT) == p1[MANAGEMENT_PORT]
  {
    assert |MANAGEMENT_PORT| != |MANAGEMENT_BASE_PATH|;
  }

  /** An absent probe is created, and an empty handler is filled. */
  method DefineProbe(probe: Option<Probe>, absent: Probe, handler: ProbeHandler) returns (r: Probe)
    ensures FillProbe(probe, absent, handler) == Some(r)
  {
    r := absent;
    if probe.Some? {
      r := probe.value;
    }
    if r.handler == NoHandler {
      r := r.(handler := handler);
    }
  }

  method ApplyProbesTo(target: PodTemplateSpec, i: nat, properties: SpringApplicationProperties,
                       deps: DependenciesBOM, semver: (string, string) -> bool) returns (failed: bool)
    requires target.Valid() && i < target.containers.Length
    modifies target.containers, properties
    ensures var o := ApplyProbes(old(target.View()), old(properties.entries), i, Facts(deps.View(), semver));
      target.View() == o.t && properties.entries == o.p && failed == o.failed
  {
    var enabled := properties.Default(PROBES_ENABLED, "true");
    if enabled != "true" {
      return false;
    }
    var managementBasePath := Get(properties.entries, MANAGEMENT_BASE_PATH);
    var managementPort := Atoi(Get(properties.entries, MANAGEMENT_PORT));
    if managementPort.None? {
      return true;
    }
    var managementScheme := "HTTP";
    if Get(properties.entries, MANAGEMENT_SSL) == "true" {
      managementScheme := "HTTPS";
    }
    var livenessEndpoint, readinessEndpoint := "/info", "/info";
    var recent := deps.HasDependencyConstraint("spring-boot-actuator", ">= 2.3.0-0", semver);
    if recent {
      livenessEndpoint, readinessEndpoint := "/health/liveness", "/health/readiness";
    }
    var c := target.containers[i];
    var port := ToInt32(managementPort.value);
    // define probes
    var liveness := DefineProbe(c.livenessProbe, NEW_PROBE,
                                HTTPGet(managementBasePath + livenessEndpoint, port, managementScheme));
    var readiness := DefineProbe(c.readinessProbe, NEW_PROBE,
                                 HTTPGet(managementBasePath + readinessEndpoint, port, managementScheme));
    var startup := DefineProbe(c.startupProbe, NEW_STARTUP_PROBE, liveness.handler);
    c := c.(livenessProbe := Some(liveness), readinessProbe := Some(readiness), startupProbe := Some(startup));
    target.containers[i] := c;
    return false;
  }

  method ApplyServiceIntentTo(target: PodTemplateSpec, i: nat, labelName: string, dependencies: seq<string>,
                              deps: DependenciesBOM)
    requires i < target.containers.Length
    modifies target`labels, target`annotations
    ensures forall f: Facts | f.deps == deps.View() ::
      target.View()
      == ApplyServiceIntent(labelName, dependencies, old(target.View()), old(target.containers[i].name), f)
  {
    for n := 0 to |dependencies|
      invariant target.labels == old(target.labels) && target.annotations == old(target.annotations)
      invariant FirstPresent(deps.View(), dependencies) == FirstPresent(deps.View(), dependencies[n..])
    {
      var dbom := deps.Dependency(dependencies[n]);
      if dbom.Some? {
        SetLabelOf(target, labelName, target.containers[i].name);
        SetAnnotationOf(target, labelName, dbom.value.name + "/" + dbom.value.version);
        return;
      }
    }
  }

  method IsApplicableTo(c: Convention, deps: DependenciesBOM, semver: (string, string) -> bool) returns (r: bool)
    ensures r <==> IsApplicable(c, Facts(deps.View(), semver))
  {
    match c
    case Framework => r := deps.HasDependency(["spring-boot"]);
    case GracefulShutdown =>
      r := deps.HasDependencyConstraint("spring-boot", ">= 2.3.0-0", semver);
      if r {
        r := deps.HasDependency(WEB_SERVERS);
      }
    case Web =>
      r := deps.HasDependency(["spring-boot"]);
      if r {
        r := deps.HasDependency(["spring-web"]);
      }
    case Actuator => r := deps.HasDependency(["spring-boot-actuator"]);
    case ActuatorProbes => r := deps.HasDependency(["spring-boot-actuator"]);
    case ServiceIntent(_, _, dependencies) => r := deps.HasDependency(dependencies);
  }

  method ApplyConventionTo(c: Convention, target: PodTemplateSpec, i: nat, properties: SpringApplicationProperties,
                           deps: DependenciesBOM, semver: (string, string) -> bool) returns (failed: bool)
    requires target.Valid() && i < target.containers.Length
    modifies target`labels, target`annotations, target`terminationGracePeriodSeconds, target.containers, properties
    ensures var o := ApplyConvention(c, old(target.View()), old(properties.entries), i, Facts(deps.View(), semver));
      target.View() == o.t && properties.entries == o.p && failed == o.failed
  {
    ghost var f := Facts(deps.View(), semver);
    failed := false;
    match c
    case Framework => ApplyFrameworkTo(target, deps);
    case GracefulShutdown => ApplyGracefulShutdownTo(target, properties);
    case Web => failed := ApplyWebTo(target, i, properties);
    case Actuator => ApplyActuatorTo(target, properties);
    case ActuatorProbes => failed := ApplyProbesTo(target, i, properties, deps, semver);
    case ServiceIntent(_, labelName, dependencies) => ApplyServiceIntentTo(target, i, labelName, dependencies, deps);
  }

  /** All conventions on container i, in order, until one fails. */
  method ApplyConventionsTo(conventions: seq<Convention>, target: PodTemplateSpec, i: nat,
                            properties: SpringApplicationProperties,
                            deps: DependenciesBOM, semver: (string, string) -> bool)
    returns (applied: seq<string>, failed: bool)
    requires target.Valid() && i < target.containers.Length
    modifies target`labels, target`annotations, target`terminationGracePeriodSeconds, target.containers, properties
    ensures var o := ApplyAll(conventions, old(target.View()), old(properties.entries), i, Facts(deps.View(), semver));
      target.View() == o.t && properties.entries == o.p && applied == o.applied && failed == o.failed
  {
    ghost var f := Facts(deps.View(), semver);
    ghost var whole := ApplyAll(conventions, target.View(), properties.entries, i, f);
    applied, failed := [], false;
    for n := 0 to |conventions|
      invariant !failed
      invariant deps.View() == f.deps
      invariant whole == AfterApplied(applied, ApplyAll(conventions[n..], target.View(), properties.entries, i, f))
    {
      assert conventions[n..][1..] == conventions[n + 1..];
      var applicable := IsApplicableTo(conventions[n], deps, semver);
      if !applicable {
        continue;
      }
      applied := applied + [GetId(conventions[n])];
      failed := ApplyConventionTo(conventions[n], target, i, properties, deps, semver);
      if failed {
        return;
      }
    }
  }

  ghost function AfterApplied(applied: seq<string>, rest: ConventionsOutcome): ConventionsOutcome {
    rest.(applied := applied + rest.applied)
  }

  ghost function AfterSteps(properties: seq<Option<Properties>>, applied: seq<string>, rest: RunOutcome): RunOutcome {
    if rest.failed then rest else rest.(properties := properties + rest.properties, applied := applied + rest.applied)
  }

  lemma AfterOneStep(s: Server, t: PodTemplate, i: nat, properties: seq<Option<Properties>>, applied: seq<string>)
    requires i < |t.containers| && !StepContainer(s, t, i).failed
    ensures var step := StepContainer(s, t, i);
      AfterSteps(properties, applied, RunFrom(s, t, i))
      == AfterSteps(properties + [step.p], applied + step.applied, RunFrom(s, step.t, i + 1))
  {
  }

  lemma FailedStep(s: Server, t: PodTemplate, i: nat, properties: seq<Option<Properties>>, applied: seq<string>)
    requires i < |t.containers| && StepContainer(s, t, i).failed
    ensures AfterSteps(properties, applied, RunFrom(s, t, i)) == RunOutcome(StepContainer(s, t, i).t, [], [], true)
  {
  }

  lemma LastStep(s: Server, t: PodTemplate, properties: seq<Option<Properties>>, applied: seq<string>)
    ensures AfterSteps(properties, applied, RunFrom(s, t, |t.containers|)) == RunOutcome(t, properties, applied, false)
  {
    assert properties + [] == properties && applied + [] == applied;
  }

  /** One container: unless its image is unknown, read its options, apply the conventions,
      and print the options back. */
  method ConfigureContainer(template: PodTemplateSpec, i: nat, conventions: seq<Convention>,
                            imageMap: map<string, ImageConfig>, semver: (string, string) -> bool)
    returns (applied: seq<string>, failed: bool)
    requires template.Valid() && i < template.containers.Length
    modifies template`labels, template`annotations, template`terminationGracePeriodSeconds, template.containers
    ensures var o := StepContainer(Server(conventions, imageMap, semver), old(template.View()), i);
      applied == o.applied && failed == o.failed && template.View() == o.t
  {
    var container := template.containers[i];
    if container.image !in imageMap {
      return [], false;
    }
    var image := imageMap[container.image];
    ghost var t := template.View();
    var dependencyMetadata := new DependenciesBOM.NewDependenciesBOM(image.boms);
    var applicationProperties := new SpringApplicationProperties();
    applicationProperties.FromContainer(template.containers, i);
    ghost var read := ReadOptions(container);
    assert applicationProperties.entries == read.1;
    assert template.View() == SetContainer(t, i, read.0);
    applied, failed := ApplyConventionsTo(conventions, template, i, applicationProperties, dependencyMetadata, semver);
    if !failed {
      ghost var mid := template.View();
      ghost var p := applicationProperties.entries;
      applicationProperties.ToContainer(template.containers, i);
      assert template.View() == SetContainer(mid, i, WriteOptions(mid.containers[i], p));
    }
  }

  method BuildImageMap(images: seq<ImageConfig>) returns (imageMap: map<string, ImageConfig>)
    ensures imageMap == ImageMap(images)
  {
    imageMap := map[];
    for n := 0 to |images|
      invariant imageMap == ImageMap(images[..n])
    {
      assert images[..n + 1][..n] == images[..n];
      imageMap := imageMap[images[n].image := images[n]];
    }
    assert images[..|images|] == images;
  }

  /** addSpringBootConventions: every container with image metadata in turn; the first error
      abandons the run and the names collected so far. */
  method AddSpringBootConventions(template: PodTemplateSpec, images: seq<ImageConfig>,
                                  semver: (string, string) -> bool)
    returns (r: Result<seq<string>, ()>)
    requires template.Valid()
    modifies template`labels, template`annotations, template`terminationGracePeriodSeconds, template.containers
    ensures var o := Run(images, semver, old(template.View()));
      template.View() == o.t && r == if o.failed then Failure(()) else Success(o.applied)
  {
    var imageMap := BuildImageMap(images);
    var conventions := SPRING_BOOT_CONVENTIONS;
    r := ConfigureContainers(template, conventions, imageMap, semver);
  }

  method ConfigureContainers(template: PodTemplateSpec, conventions: seq<Convention>,
                             imageMap: map<string, ImageConfig>, semver: (string, string) -> bool)
    returns (r: Result<seq<string>, ()>)
    requires template.Valid()
    modifies template`labels, template`annotations, template`terminationGracePeriodSeconds, template.containers
    ensures var o := RunFrom(Server(conventions, imageMap, semver), old(template.View()), 0);
      template.View() == o.t && r == if o.failed then Failure(()) else Success(o.applied)
  {
    ghost var s := Server(conventions, imageMap, semver);
    ghost var t := template.View();
    ghost var whole := RunFrom(s, t, 0);
    var appliedConventions: seq<string> := [];
    ghost var printed: seq<Option<Properties>> := [];
    for i := 0 to template.containers.Length
      invariant template.View() == t
      invariant whole == AfterSteps(printed, appliedConventions, RunFrom(s, t, i))
    {
      ghost var step := StepContainer(s, t, i);
      var applied, failed := ConfigureContainer(template, i, conventions, imageMap, semver);
      if failed {
        FailedStep(s, t, i, printed, appliedConventions);
        return Failure(());
      }
      AfterOneStep(s, t, i, printed, appliedConventions);
      t, printed, appliedConventions := step.t, printed + [step.p], appliedConventions + applied;
    }
    LastStep(s, t, printed, appliedConventions);
    return Success(appliedConventions);
  }
}
