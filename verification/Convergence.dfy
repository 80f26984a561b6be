/** Applying the Spring Boot conventions a second time changes nothing. */
module Convergence {
  import opened Wrappers
  import opened Text
  import opened Core
  import opened Dependencies
  import opened SpringProperties
  import opened SpringBoot

  lemma DistinctKeys()
    ensures |SERVER_PORT| == 11 && |SHUTDOWN_GRACE| == 28 && |MANAGEMENT_PORT| == 22
    ensures |MANAGEMENT_BASE_PATH| == 34 && |MANAGEMENT_SSL| == 29 && |PROBES_ENABLED| == 32
  {
  }

  // ----- settled conventions -----

  predicate HasHandler(probe: Option<Probe>) {
    probe.Some? && probe.value.handler != NoHandler
  }

  /** The convention has nothing left to do for container i, labels and annotations aside. */
  predicate Settled(c: Convention, t: PodTemplate, p: Properties, i: nat)
    requires i < |t.containers|
  {
    match c
    case Framework => true
    case GracefulShutdown =>
      t.terminationGracePeriodSeconds.Some?
      && SHUTDOWN_GRACE in p
      && p[SHUTDOWN_GRACE] == Itoa(BootGrace(PodGrace(t))) + "s"
    case Web => WebSettled(t, p, i)
    case Actuator => MANAGEMENT_PORT in p && MANAGEMENT_BASE_PATH in p
    case ActuatorProbes => PROBES_ENABLED in p && (p[PROBES_ENABLED] == "true" ==> ProbesSettled(t.containers[i], p))
    case ServiceIntent(_, _, _) => true
  }

  /** The container's server port is first declared by a container of its name. */
  predicate WebSettled(t: PodTemplate, p: Properties, i: nat)
    requires i < |t.containers|
  {
    SERVER_PORT in p && Atoi(p[SERVER_PORT]).Some?
    && var owner := FirstOwner(t.containers, ToInt32(Atoi(p[SERVER_PORT]).value));
       owner.Some? && t.containers[owner.value].name == t.containers[i].name
  }

  predicate ProbesSettled(c: Container, p: Properties) {
    Atoi(Get(p, MANAGEMENT_PORT)).Some?
    && HasHandler(c.livenessProbe) && HasHandler(c.readinessProbe) && HasHandler(c.startupProbe)
  }

  /** Nothing that a settled convention of container i depends on was lost from t to u. */
  ghost predicate Later(t: PodTemplate, u: PodTemplate, i: nat) {
    && i < |t.containers| == |u.containers|
    && (forall j | 0 <= j < |t.containers| :: u.containers[j].name == t.containers[j].name)
    && KeepsProbes(t.containers[i], u.containers[i])
    && (t.terminationGracePeriodSeconds.Some? ==> u.terminationGracePeriodSeconds == t.terminationGracePeriodSeconds)
    && KeepsOwners(t.containers, u.containers)
  }

  predicate KeepsProbes(c: Container, d: Container) {
    && (HasHandler(c.livenessProbe) ==> d.livenessProbe == c.livenessProbe)
    && (HasHandler(c.readinessProbe) ==> d.readinessProbe == c.readinessProbe)
    && (HasHandler(c.startupProbe) ==> d.startupProbe == c.startupProbe)
  }

  ghost predicate KeepsOwners(a: seq<Container>, b: seq<Container>) {
    forall port | FirstOwner(a, port).Some? :: FirstOwner(b, port) == FirstOwner(a, port)
  }

  lemma OwnerIsFirst(containers: seq<Container>, port: int, k: nat)
    requires k < |containers| && Declares(containers[k], port)
    requires forall j | 0 <= j < k :: !Declares(containers[j], port)
    ensures FirstOwner(containers, port) == Some(k)
  {
  }

  /** Adding ports nobody declares, or changing anything but ports, keeps every owner. */
  lemma OwnersKept(a: seq<Container>, b: seq<Container>, i: nat)
    requires i < |a| && |b| == |a| && forall j | 0 <= j < |a| && j != i :: b[j].ports == a[j].ports
    requires a[i].ports <= b[i].ports
    requires forall k | |a[i].ports| <= k < |b[i].ports| :: FirstOwner(a, b[i].ports[k].containerPort).None?
    ensures KeepsOwners(a, b)
  {
    forall port | FirstOwner(a, port).Some? ensures FirstOwner(b, port) == FirstOwner(a, port) {
      var k := FirstOwner(a, port).value;
      forall j | 0 <= j < |a| ensures Declares(b[j], port) <==> Declares(a[j], port) {
        if j == i {
          assert forall n | 0 <= n < |a[i].ports| :: b[i].ports[n] == a[i].ports[n];
        }
      }
      OwnerIsFirst(b, port, k);
    }
  }

  // ----- one convention -----

  /** Once set, a property other than the shutdown grace period is never changed. */
  predicate Grows(p: Properties, q: Properties) {
    forall k | k in p && k != SHUTDOWN_GRACE :: k in q && q[k] == p[k]
  }

  /** Of container i only ports are added and empty probe handlers filled; nothing else is lost. */
  ghost predicate Evolves(t: PodTemplate, u: PodTemplate, i: nat) {
    && i < |t.containers| == |u.containers|
    && u.initContainers == t.initContainers
    && (t.terminationGracePeriodSeconds.Some? ==> u.terminationGracePeriodSeconds == t.terminationGracePeriodSeconds)
    && PodGrace(u) == PodGrace(t)
    && (forall j | 0 <= j < |t.containers| && j != i :: u.containers[j] == t.containers[j])
    && EvolvesContainer(t.containers[i], u.containers[i])
    && KeepsOwners(t.containers, u.containers)
  }

  predicate EvolvesContainer(c: Container, d: Container) {
    && d.name == c.name && d.image == c.image && d.env == c.env
    && KeepsProbes(c, d)
    && c.ports <= d.ports
  }

  lemma EvolvesIsLater(t: PodTemplate, u: PodTemplate, i: nat, j: nat)
    requires Evolves(t, u, i) && j < |t.containers|
    ensures Later(t, u, j)
  {
  }

  lemma EvolvesTransitive(t: PodTemplate, u: PodTemplate, v: PodTemplate, i: nat)
    requires Evolves(t, u, i) && Evolves(u, v, i)
    ensures Evolves(t, v, i)
  {
  }

  lemma EvolvesElsewhere(t: PodTemplate, u: PodTemplate, i: nat)
    requires i < |t.containers| && u.containers == t.containers && u.initContainers == t.initContainers
    requires t.terminationGracePeriodSeconds.Some? ==>
               u.terminationGracePeriodSeconds == t.terminationGracePeriodSeconds
    requires PodGrace(u) == PodGrace(t)
    ensures Evolves(t, u, i)
  {
  }

  lemma WebEvolves(t: PodTemplate, p: Properties, i: nat)
    requires i < |t.containers|
    ensures Evolves(t, ApplyWeb(t, p, i).t, i)
  {
    OwnersKept(t.containers, ApplyWeb(t, p, i).t.containers, i);
  }

  lemma ProbesEvolve(t: PodTemplate, p: Properties, i: nat, f: Facts)
    requires i < |t.containers|
    ensures Evolves(t, ApplyProbes(t, p, i, f).t, i)
  {
    OwnersKept(t.containers, ApplyProbes(t, p, i, f).t.containers, i);
  }

  lemma ConventionEvolves(c: Convention, t: PodTemplate, p: Properties, i: nat, f: Facts)
    requires i < |t.containers|
    ensures Evolves(t, ApplyConvention(c, t, p, i, f).t, i)
  {
    match c
    case Web => WebEvolves(t, p, i);
    case ActuatorProbes => ProbesEvolve(t, p, i, f);
    case _ => EvolvesElsewhere(t, ApplyConvention(c, t, p, i, f).t, i);
  }

  /** Every property survives except the two that may be written over: the shutdown grace
      period, and the switch that no convention sets. */
  predicate GrowsFully(p: Properties, q: Properties) {
    && Grows(p, q)
    && (SHUTDOWN_GRACE in p ==> SHUTDOWN_GRACE in q && q[SHUTDOWN_GRACE] == p[SHUTDOWN_GRACE])
    && Get(q, MANAGEMENT_SSL) == Get(p, MANAGEMENT_SSL)
  }

  lemma DefaultGrows(p: Properties, key: string, value: string)
    requires key != MANAGEMENT_SSL
    ensures GrowsFully(p, WithDefault(p, key, value))
  {
  }

  lemma GrowsTransitive(p: Properties, q: Properties, r: Properties)
    requires GrowsFully(p, q) && GrowsFully(q, r)
    ensures GrowsFully(p, r)
  {
  }

  lemma ConventionGrows(c: Convention, t: PodTemplate, p: Properties, i: nat, f: Facts)
    requires i < |t.containers|
    ensures var q := ApplyConvention(c, t, p, i, f).p;
      && Grows(p, q) && Get(q, MANAGEMENT_SSL) == Get(p, MANAGEMENT_SSL)
      && (!c.GracefulShutdown? ==> GrowsFully(p, q))
  {
    DistinctKeys();
    match c
    case Framework =>
    case GracefulShutdown =>
    case Web => DefaultGrows(p, SERVER_PORT, "8080");
    case Actuator =>
      var p1 := WithDefault(p, MANAGEMENT_PORT, Get(p, SERVER_PORT));
      DefaultGrows(p, MANAGEMENT_PORT, Get(p, SERVER_PORT));
      DefaultGrows(p1, MANAGEMENT_BASE_PATH, "/actuator");
      GrowsTransitive(p, p1, WithDefault(p1, MANAGEMENT_BASE_PATH, "/actuator"));
    case ActuatorProbes => DefaultGrows(p, PROBES_ENABLED, "true");
    case ServiceIntent(_, _, _) =>
  }

  lemma ConventionSettles(c: Convention, t: PodTemplate, p: Properties, i: nat, f: Facts)
    requires i < |t.containers| && !ApplyConvention(c, t, p, i, f).failed
    ensures var o := ApplyConvention(c, t, p, i, f); Settled(c, o.t, o.p, i)
  {
    DistinctKeys();
    if c.Web? {
      var p' := WithDefault(p, SERVER_PORT, "8080");
      var port := ToInt32(Atoi(p'[SERVER_PORT]).value);
      if FirstOwner(t.containers, port).None? {
        var o := ApplyConvention(c, t, p, i, f);
        assert o.t.containers[i].ports[|t.containers[i].ports|].containerPort == port;
        OwnerIsFirst(o.t.containers, port, i);
      }
    }
  }

  lemma SettledLater(c: Convention, t: PodTemplate, p: Properties, i: nat, u: PodTemplate)
    requires Later(t, u, i) && Settled(c, t, p, i)
    ensures Settled(c, u, p, i)
  {
  }

  lemma SettledGrows(c: Convention, t: PodTemplate, p: Properties, i: nat, q: Properties)
    requires i < |t.containers| && Settled(c, t, p, i) && Grows(p, q)
    requires c.GracefulShutdown? ==> SHUTDOWN_GRACE in q && q[SHUTDOWN_GRACE] == p[SHUTDOWN_GRACE]
    ensures Settled(c, t, q, i)
  {
    DistinctKeys();
  }

  /** No convention unsettles another. */
  lemma SettledStays(c: Convention, d: Convention, t: PodTemplate, p: Properties, i: nat, f: Facts)
    requires i < |t.containers| && Settled(c, t, p, i)
    ensures var o := ApplyConvention(d, t, p, i, f); Settled(c, o.t, o.p, i)
  {
    var o := ApplyConvention(d, t, p, i, f);
    ConventionEvolves(d, t, p, i, f);
    EvolvesIsLater(t, o.t, i, i);
    SettledLater(c, t, p, i, o.t);
    ConventionGrows(d, t, p, i, f);
    SettledGrows(c, o.t, p, i, o.p);
  }

  // ----- labels and annotations are only ever written -----

  function LabelWrites(c: Convention, name: string, f: Facts): map<string, string> {
    match c
    case Framework => map["conventions.carto.run/framework" := "spring-boot"]
    case ServiceIntent(_, labelName, dependencies) =>
      if FirstPresent(f.deps, dependencies).Some? then map[labelName := name] else map[]
    case _ => map[]
  }

  function AnnotationWrites(c: Convention, p: Properties, f: Facts): map<string, string> {
    match c
    case Framework =>
      if Find(f.deps, "spring-boot").Some?
      then map["boot.spring.io/version" := Find(f.deps, "spring-boot").value.version] else map[]
    case Actuator => map[ACTUATOR_URI := ManagementUri(p)]
    case ServiceIntent(_, labelName, dependencies) =>
      var found := FirstPresent(f.deps, dependencies);
      if found.Some? then map[labelName := found.value.name + "/" + found.value.version] else map[]
    case _ => map[]
  }

  lemma UpdateIsMerge(m: map<string, string>, key: string, value: string)
    ensures m[key := value] == m + map[key := value]
  {
  }

  lemma FrameworkWrites(t: PodTemplate, f: Facts)
    ensures var u := ApplyFramework(t, f);
      && u.labels == t.labels + LabelWrites(Framework, "", f)
      && u.annotations == t.annotations + AnnotationWrites(Framework, map[], f)
  {
    UpdateIsMerge(t.labels, "conventions.carto.run/framework", "spring-boot");
    var found := Find(f.deps, "spring-boot");
    if found.Some? {
      UpdateIsMerge(t.annotations, "boot.spring.io/version", found.value.version);
    }
  }

  lemma ServiceIntentWrites(id: string, labelName: string, dependencies: seq<string>, t: PodTemplate, name: string,
                            f: Facts)
    ensures var u := ApplyServiceIntent(labelName, dependencies, t, name, f);
      && u.labels == t.labels + LabelWrites(ServiceIntent(id, labelName, dependencies), name, f)
      && u.annotations == t.annotations + AnnotationWrites(ServiceIntent(id, labelName, dependencies), map[], f)
  {
    var found := FirstPresent(f.deps, dependencies);
    if found.Some? {
      UpdateIsMerge(t.labels, labelName, name);
      UpdateIsMerge(t.annotations, labelName, found.value.name + "/" + found.value.version);
    }
  }

  lemma ActuatorWrites(t: PodTemplate, p: Properties)
    ensures var o := ApplyActuator(t, p);
      o.t.labels == t.labels + map[] && o.t.annotations == t.annotations + map[ACTUATOR_URI := ManagementUri(o.p)]
  {
    UpdateIsMerge(t.annotations, ACTUATOR_URI, ManagementUri(ApplyActuator(t, p).p));
  }

  lemma OthersWriteNothing(c: Convention, t: PodTemplate, p: Properties, i: nat, f: Facts)
    requires i < |t.containers| && (c.GracefulShutdown? || c.Web? || c.ActuatorProbes?)
    ensures var o := ApplyConvention(c, t, p, i, f);
      o.t.labels == t.labels + map[] && o.t.annotations == t.annotations + map[]
  {
    assert t.labels + map[] == t.labels && t.annotations + map[] == t.annotations;
  }

  lemma ConventionWrites(c: Convention, t: PodTemplate, p: Properties, i: nat, f: Facts)
    requires i < |t.containers|
    ensures var o := ApplyConvention(c, t, p, i, f);
      && o.t.labels == t.labels + LabelWrites(c, t.containers[i].name, f)
      && o.t.annotations == t.annotations + AnnotationWrites(c, o.p, f)
  {
    match c
    case Framework => FrameworkWrites(t, f);
    case ServiceIntent(id, labelName, dependencies) =>
      ServiceIntentWrites(id, labelName, dependencies, t, t.containers[i].name, f);
    case Actuator => ActuatorWrites(t, p);
    case _ => OthersWriteNothing(c, t, p, i, f);
  }

  /** The two templates differ in labels and annotations at most. */
  predicate SameCore(t: PodTemplate, u: PodTemplate) {
    u == t.(labels := u.labels, annotations := u.annotations)
  }

  lemma SettledIsFixed(c: Convention, t: PodTemplate, p: Properties, i: nat, f: Facts)
    requires i < |t.containers| && Settled(c, t, p, i)
    ensures var o := ApplyConvention(c, t, p, i, f); !o.failed && o.p == p && SameCore(t, o.t)
  {
    match c
    case GracefulShutdown => assert p[SHUTDOWN_GRACE := p[SHUTDOWN_GRACE]] == p;
    case ActuatorProbes =>
      var k := t.containers[i];
      if p[PROBES_ENABLED] == "true" {
        var port := Atoi(Get(p, MANAGEMENT_PORT)).value;
        assert FillProbes(k, p, port, f) == k;
        assert t.containers[i := k] == t.containers;
      }
    case _ =>
  }

  // ----- all conventions on one container -----

  lemma {:induction false} ApplyAllEvolves(cs: seq<Convention>, t: PodTemplate, p: Properties, i: nat, f: Facts)
    requires i < |t.containers|
    ensures Evolves(t, ApplyAll(cs, t, p, i, f).t, i)
  {
    if cs != [] {
      if IsApplicable(cs[0], f) {
        var first := ApplyConvention(cs[0], t, p, i, f);
        ConventionEvolves(cs[0], t, p, i, f);
        if !first.failed {
          ApplyAllEvolves(cs[1..], first.t, first.p, i, f);
          EvolvesTransitive(t, first.t, ApplyAll(cs[1..], first.t, first.p, i, f).t, i);
        }
      } else {
        ApplyAllEvolves(cs[1..], t, p, i, f);
      }
    }
  }

  predicate AllSettled(cs: seq<Convention>, t: PodTemplate, p: Properties, i: nat, f: Facts)
    requires i < |t.containers|
  {
    forall k | 0 <= k < |cs| && IsApplicable(cs[k], f) :: Settled(cs[k], t, p, i)
  }

  lemma {:induction false} StaysSettled(c: Convention, cs: seq<Convention>, t: PodTemplate, p: Properties, i: nat,
                                        f: Facts)
    requires i < |t.containers| && Settled(c, t, p, i)
    ensures var o := ApplyAll(cs, t, p, i, f); Settled(c, o.t, o.p, i)
  {
    if cs != [] {
      if IsApplicable(cs[0], f) {
        var first := ApplyConvention(cs[0], t, p, i, f);
        SettledStays(c, cs[0], t, p, i, f);
        if !first.failed {
          StaysSettled(c, cs[1..], first.t, first.p, i, f);
        }
      } else {
        StaysSettled(c, cs[1..], t, p, i, f);
      }
    }
  }

  /** After a successful pass every applicable convention is settled. */
  lemma {:induction false} ApplyAllSettles(cs: seq<Convention>, t: PodTemplate, p: Properties, i: nat, f: Facts)
    requires i < |t.containers| && !ApplyAll(cs, t, p, i, f).failed
    ensures var o := ApplyAll(cs, t, p, i, f); AllSettled(cs, o.t, o.p, i, f)
  {
    if cs != [] {
      var o := ApplyAll(cs, t, p, i, f);
      if IsApplicable(cs[0], f) {
        var first := ApplyConvention(cs[0], t, p, i, f);
        ConventionSettles(cs[0], t, p, i, f);
        StaysSettled(cs[0], cs[1..], first.t, first.p, i, f);
        ApplyAllSettles(cs[1..], first.t, first.p, i, f);
      } else {
        ApplyAllSettles(cs[1..], t, p, i, f);
      }
      forall k | 0 <= k < |cs| && IsApplicable(cs[k], f) ensures Settled(cs[k], o.t, o.p, i) {
        assert k > 0 ==> cs[k] == cs[1..][k - 1];
      }
    }
  }

  /** The convention is in the list and applicable. */
  predicate Applies(cs: seq<Convention>, c: Convention, f: Facts) {
    c in cs && IsApplicable(c, f)
  }

  lemma {:induction false} ApplyAllGrows(cs: seq<Convention>, t: PodTemplate, p: Properties, i: nat, f: Facts)
    requires i < |t.containers|
    ensures var q := ApplyAll(cs, t, p, i, f).p;
      && Grows(p, q) && Get(q, MANAGEMENT_SSL) == Get(p, MANAGEMENT_SSL)
      && (!Applies(cs, GracefulShutdown, f) ==> GrowsFully(p, q))
  {
    if cs != [] {
      assert cs == [cs[0]] + cs[1..];
      if IsApplicable(cs[0], f) {
        var first := ApplyConvention(cs[0], t, p, i, f);
        ConventionGrows(cs[0], t, p, i, f);
        if !first.failed {
          ApplyAllGrows(cs[1..], first.t, first.p, i, f);
        }
      } else {
        ApplyAllGrows(cs[1..], t, p, i, f);
      }
    }
  }

  /** The properties a convention sets or defaults. */
  function Supplied(c: Convention): set<string> {
    match c
    case GracefulShutdown => {SHUTDOWN_GRACE}
    case Web => {SERVER_PORT}
    case Actuator => {MANAGEMENT_PORT, MANAGEMENT_BASE_PATH}
    case ActuatorProbes => {PROBES_ENABLED}
    case _ => {}
  }

  function AllSupplied(cs: seq<Convention>, f: Facts): set<string> {
    if cs == [] then {} else (if IsApplicable(cs[0], f) then Supplied(cs[0]) else {}) + AllSupplied(cs[1..], f)
  }

  lemma ConventionKeys(c: Convention, t: PodTemplate, p: Properties, i: nat, f: Facts)
    requires i < |t.containers|
    ensures ApplyConvention(c, t, p, i, f).p.Keys == p.Keys + Supplied(c)
  {
  }

  /** The keys of the properties after a pass depend on the applicable conventions alone. */
  lemma {:induction false} ApplyAllKeys(cs: seq<Convention>, t: PodTemplate, p: Properties, i: nat, f: Facts)
    requires i < |t.containers| && !ApplyAll(cs, t, p, i, f).failed
    ensures ApplyAll(cs, t, p, i, f).p.Keys == p.Keys + AllSupplied(cs, f)
  {
    if cs != [] {
      if IsApplicable(cs[0], f) {
        var first := ApplyConvention(cs[0], t, p, i, f);
        ConventionKeys(cs[0], t, p, i, f);
        ApplyAllKeys(cs[1..], first.t, first.p, i, f);
      } else {
        ApplyAllKeys(cs[1..], t, p, i, f);
      }
    }
  }

  lemma {:induction false} SuppliedIsIn(cs: seq<Convention>, f: Facts, c: Convention)
    requires Applies(cs, c, f)
    ensures Supplied(c) <= AllSupplied(cs, f)
  {
    if cs[0] != c {
      assert cs == [cs[0]] + cs[1..];
      SuppliedIsIn(cs[1..], f, c);
    }
  }

  lemma {:induction false} SslIsNotSupplied(cs: seq<Convention>, f: Facts)
    ensures MANAGEMENT_SSL !in AllSupplied(cs, f)
  {
    if cs != [] {
      DistinctKeys();
      SslIsNotSupplied(cs[1..], f);
    }
  }

  /** A management port that the user did not set is a server port, or empty without one. */
  predicate PortIsTaken(user: Properties, p: Properties) {
    MANAGEMENT_PORT in p && MANAGEMENT_PORT !in user && SERVER_PORT !in p ==> p[MANAGEMENT_PORT] == ""
  }

  lemma ConventionTakesPort(c: Convention, t: PodTemplate, user: Properties, p: Properties, i: nat, f: Facts)
    requires i < |t.containers| && PortIsTaken(user, p)
    ensures PortIsTaken(user, ApplyConvention(c, t, p, i, f).p)
  {
    DistinctKeys();
  }

  lemma {:induction false} ApplyAllTakesPort(cs: seq<Convention>, t: PodTemplate, user: Properties, p: Properties,
                                             i: nat,
                                             f: Facts)
    requires i < |t.containers| && PortIsTaken(user, p)
    ensures PortIsTaken(user, ApplyAll(cs, t, p, i, f).p)
  {
    if cs != [] {
      if IsApplicable(cs[0], f) {
        var first := ApplyConvention(cs[0], t, p, i, f);
        ConventionTakesPort(cs[0], t, user, p, i, f);
        if !first.failed {
          ApplyAllTakesPort(cs[1..], first.t, user, first.p, i, f);
        }
      } else {
        ApplyAllTakesPort(cs[1..], t, user, p, i, f);
      }
    }
  }

  function AllLabelWrites(cs: seq<Convention>, name: string, f: Facts): map<string, string> {
    if cs == [] then map[]
    else (if IsApplicable(cs[0], f) then LabelWrites(cs[0], name, f) else map[]) + AllLabelWrites(cs[1..], name, f)
  }

  function AllAnnotationWrites(cs: seq<Convention>, p: Properties, f: Facts): map<string, string> {
    if cs == [] then map[]
    else (if IsApplicable(cs[0], f) then AnnotationWrites(cs[0], p, f) else map[]) + AllAnnotationWrites(cs[1..], p, f)
  }

  function AppliedIds(cs: seq<Convention>, f: Facts): seq<string> {
    if cs == [] then []
    else (if IsApplicable(cs[0], f) then [GetId(cs[0])] else []) + AppliedIds(cs[1..], f)
  }

  lemma MergeIsAssociative(a: map<string, string>, b: map<string, string>, c: map<string, string>)
    ensures (a + b) + c == a + (b + c)
    ensures a + map[] == a && map[] + a == a
  {
  }

  /** What a convention writes depends on the final properties only. */
  lemma FinalWrites(c: Convention, t: PodTemplate, p: Properties, i: nat, f: Facts, q: Properties)
    requires i < |t.containers|
    requires Grows(ApplyConvention(c, t, p, i, f).p, q)
    requires Get(ApplyConvention(c, t, p, i, f).p, MANAGEMENT_SSL) == Get(q, MANAGEMENT_SSL)
    ensures AnnotationWrites(c, ApplyConvention(c, t, p, i, f).p, f) == AnnotationWrites(c, q, f)
  {
    DistinctKeys();
    if c.Actuator? {
      var p' := ApplyConvention(c, t, p, i, f).p;
      assert MANAGEMENT_PORT in p' && MANAGEMENT_BASE_PATH in p';
      assert ManagementUri(p') == ManagementUri(q);
    }
  }

  lemma {:induction false} ApplyAllWrites(cs: seq<Convention>, t: PodTemplate, p: Properties, i: nat, f: Facts)
    requires i < |t.containers| && !ApplyAll(cs, t, p, i, f).failed
    ensures var o := ApplyAll(cs, t, p, i, f);
      && o.applied == AppliedIds(cs, f)
      && o.t.labels == t.labels + AllLabelWrites(cs, t.containers[i].name, f)
      && o.t.annotations == t.annotations + AllAnnotationWrites(cs, o.p, f)
  {
    if cs == [] {
      MergeIsAssociative(t.labels, map[], map[]);
      MergeIsAssociative(t.annotations, map[], map[]);
    } else if IsApplicable(cs[0], f) {
      var first := ApplyConvention(cs[0], t, p, i, f);
      var o := ApplyAll(cs[1..], first.t, first.p, i, f);
      var name := t.containers[i].name;
      ApplyAllWrites(cs[1..], first.t, first.p, i, f);
      ConventionWrites(cs[0], t, p, i, f);
      ConventionEvolves(cs[0], t, p, i, f);
      ApplyAllGrows(cs[1..], first.t, first.p, i, f);
      FinalWrites(cs[0], t, p, i, f, o.p);
      MergeIsAssociative(t.labels, LabelWrites(cs[0], name, f), AllLabelWrites(cs[1..], name, f));
      MergeIsAssociative(t.annotations, AnnotationWrites(cs[0], o.p, f), AllAnnotationWrites(cs[1..], o.p, f));
    } else {
      ApplyAllWrites(cs[1..], t, p, i, f);
      MergeIsAssociative(AllLabelWrites(cs[1..], t.containers[i].name, f), map[], map[]);
      MergeIsAssociative(AllAnnotationWrites(cs[1..], ApplyAll(cs, t, p, i, f).p, f), map[], map[]);
    }
  }

  lemma SettledSameCore(c: Convention, t: PodTemplate, p: Properties, i: nat, u: PodTemplate)
    requires i < |t.containers| && SameCore(t, u)
    ensures Settled(c, t, p, i) <==> Settled(c, u, p, i)
  {
  }

  /** A pass over settled conventions succeeds and rewrites labels and annotations only. */
  lemma {:induction false} ReapplySettled(cs: seq<Convention>, t: PodTemplate, p: Properties, i: nat, f: Facts)
    requires i < |t.containers| && AllSettled(cs, t, p, i, f)
    ensures var o := ApplyAll(cs, t, p, i, f); !o.failed && o.p == p && SameCore(t, o.t)
  {
    if cs != [] {
      var u := if IsApplicable(cs[0], f) then ApplyConvention(cs[0], t, p, i, f).t else t;
      if IsApplicable(cs[0], f) {
        SettledIsFixed(cs[0], t, p, i, f);
      }
      forall k | 0 <= k < |cs[1..]| && IsApplicable(cs[1..][k], f) ensures Settled(cs[1..][k], u, p, i) {
        assert cs[1..][k] == cs[k + 1];
        SettledSameCore(cs[k + 1], t, p, i, u);
      }
      ReapplySettled(cs[1..], u, p, i, f);
    }
  }
}
