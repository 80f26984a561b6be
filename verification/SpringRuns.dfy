/** Whole runs of the Spring Boot convention server: what a run keeps, and what its final
    template says about the step of each container. */
module SpringRuns {
  import opened Wrappers
  import opened Text
  import opened Core
  import opened SpringProperties
  import opened RoundTrips
  import opened SpringBoot
  import opened Convergence

  // ----- the property map stays printable -----

  predicate IsWord(s: string) {
    ' ' !in s && '=' !in s
  }

  lemma ServerPortIsWord()
    ensures IsWord(SERVER_PORT)
  {
  }

  lemma ShutdownGraceIsWord()
    ensures IsWord(SHUTDOWN_GRACE)
  {
  }

  lemma ManagementPortIsWord()
    ensures IsWord(MANAGEMENT_PORT)
  {
  }

  lemma ManagementBasePathIsWord()
    ensures IsWord(MANAGEMENT_BASE_PATH)
  {
  }

  lemma ProbesEnabledIsWord()
    ensures IsWord(PROBES_ENABLED)
  {
  }

  lemma CleanUpdate(p: Properties, key: string, value: string)
    requires Printable(p) && IsWord(key) && ' ' !in value
    ensures Printable(p[key := value])
    ensures Clean(p) && NoSpaceAtEnd(value) ==> Clean(p[key := value])
  {
  }

  lemma GraceIsWord(seconds: int)
    ensures ' ' !in Itoa(BootGrace(seconds)) + "s" && NoSpaceAtEnd(Itoa(BootGrace(seconds)) + "s")
  {
    ItoaIsWord(BootGrace(seconds));
  }

  /** The map can be printed, and is clean if the other one is. */
  ghost predicate StaysClean(p: Properties, q: Properties) {
    Printable(q) && (Clean(p) ==> Clean(q))
  }

  lemma ActuatorStaysClean(t: PodTemplate, p: Properties)
    requires Printable(p)
    ensures StaysClean(p, ApplyActuator(t, p).p)
  {
    ManagementPortIsWord();
    ManagementBasePathIsWord();
    var p1 := WithDefault(p, MANAGEMENT_PORT, Get(p, SERVER_PORT));
    CleanUpdate(p, MANAGEMENT_PORT, Get(p, SERVER_PORT));
    CleanUpdate(p1, MANAGEMENT_BASE_PATH, "/actuator");
  }

  lemma GraceStaysClean(t: PodTemplate, p: Properties)
    requires Printable(p)
    ensures StaysClean(p, ApplyGracefulShutdown(t, p).p)
  {
    ShutdownGraceIsWord();
    GraceIsWord(PodGrace(t));
    CleanUpdate(p, SHUTDOWN_GRACE, Itoa(BootGrace(PodGrace(t))) + "s");
  }

  lemma WebStaysClean(t: PodTemplate, p: Properties, i: nat)
    requires i < |t.containers| && Printable(p)
    ensures StaysClean(p, ApplyWeb(t, p, i).p)
  {
    ServerPortIsWord();
    CleanUpdate(p, SERVER_PORT, "8080");
  }

  lemma ProbesStayClean(t: PodTemplate, p: Properties, i: nat, f: Facts)
    requires i < |t.containers| && Printable(p)
    ensures StaysClean(p, ApplyProbes(t, p, i, f).p)
  {
    ProbesEnabledIsWord();
    CleanUpdate(p, PROBES_ENABLED, "true");
  }

  lemma ConventionStaysClean(c: Convention, t: PodTemplate, p: Properties, i: nat, f: Facts)
    requires i < |t.containers| && Printable(p)
    ensures StaysClean(p, ApplyConvention(c, t, p, i, f).p)
  {
    match c
    case GracefulShutdown => GraceStaysClean(t, p);
    case Web => WebStaysClean(t, p, i);
    case Actuator => ActuatorStaysClean(t, p);
    case ActuatorProbes => ProbesStayClean(t, p, i, f);
    case _ =>
  }

  lemma {:induction false} ApplyAllStaysClean(cs: seq<Convention>, t: PodTemplate, p: Properties, i: nat, f: Facts)
    requires i < |t.containers| && Printable(p)
    ensures StaysClean(p, ApplyAll(cs, t, p, i, f).p)
  {
    if cs != [] {
      if IsApplicable(cs[0], f) {
        var first := ApplyConvention(cs[0], t, p, i, f);
        ConventionStaysClean(cs[0], t, p, i, f);
        if !first.failed {
          ApplyAllStaysClean(cs[1..], first.t, first.p, i, f);
        }
      } else {
        ApplyAllStaysClean(cs[1..], t, p, i, f);
      }
    }
  }

  // ----- the options of one container -----

  /** The container's option string, if any, is clean. */
  predicate CleanOptions(c: Container) {
    var at := FindEnvVar(c.env, JAVA_TOOL_OPTIONS);
    at.Some? ==> CleanValue(c.env[at.value].value)
  }

  /** The kept words and the properties of a container's options. */
  function OptionsOf(c: Container): Options {
    var at := FindEnvVar(c.env, JAVA_TOOL_OPTIONS);
    if at.Some? then Parse(c.env[at.value].value) else Options([], map[])
  }

  lemma OptionsFacts(c: Container)
    ensures var o := OptionsOf(c);
      && o.properties == ReadOptions(c).1
      && KeptWords(o.keep) && Printable(o.properties)
      && (CleanOptions(c) ==> AllTrimmed(o.keep) && Clean(o.properties))
  {
    var at := FindEnvVar(c.env, JAVA_TOOL_OPTIONS);
    if at.Some? {
      var value := c.env[at.value].value;
      SplitIsFree(value, ' ');
      ParseIsPrintable(Split(value, ' '));
    }
  }

  /** The environment of d is what ToContainer makes of c's, read by FromContainer before. */
  ghost predicate PrintedInto(c: Container, p: Properties, d: Container) {
    d.env == WriteOptions(ReadOptions(c).0, p).env
  }

  lemma SetOptionsFacts(c: Container, at: nat, value: string, again: string)
    requires FindEnvVar(c.env, JAVA_TOOL_OPTIONS) == Some(at)
    ensures FindEnvVar(SetOptions(c, at, value).env, JAVA_TOOL_OPTIONS) == Some(at)
    ensures SetOptions(SetOptions(c, at, value), at, again) == SetOptions(c, at, again)
    ensures SetOptions(c, at, c.env[at].value) == c
  {
    var d := SetOptions(c, at, value);
    var found := FindEnvVar(d.env, JAVA_TOOL_OPTIONS);
    assert d.env[at].name == JAVA_TOOL_OPTIONS;
    assert forall j | 0 <= j < at :: d.env[j] == c.env[j];
  }

  lemma PrintAlone(p: Properties)
    requires Clean(p)
    ensures Print(Join([], ' '), p) == Join(Words(p), ' ')
  {
    PrintIsJoin([], p);
    TrimLastIsPrintable(p);
    assert [] + Words(p) == Words(p);
  }

  /** Its options are the printed ones. A container without options is given clean ones. */
  lemma PrintedText(c: Container, p: Properties, d: Container) returns (at: nat)
    requires PrintedInto(c, p, d) && Printable(p) && (CleanOptions(c) ==> Clean(p))
    ensures FindEnvVar(d.env, JAVA_TOOL_OPTIONS) == Some(at)
    ensures d.env[at].value == Print(Join(OptionsOf(c).keep, ' '), p)
  {
    match FindEnvVar(c.env, JAVA_TOOL_OPTIONS)
    case None =>
      at := |c.env|;
      assert d.env[at].name == JAVA_TOOL_OPTIONS;
      PrintAlone(p);
    case Some(found) =>
      at := found;
      var keep := OptionsOf(c).keep;
      SetOptionsFacts(c, at, Join(keep, ' '), "");
      SetOptionsFacts(ReadOptions(c).0, at, Print(Join(keep, ' '), p), "");
  }

  /** Reading and writing a container whose options are a printed text. */
  lemma PrintedPass(d: Container, at: nat, keep: seq<string>, p: Properties, q: Properties)
    requires KeptWords(keep) && Printable(p)
    requires FindEnvVar(d.env, JAVA_TOOL_OPTIONS) == Some(at) && d.env[at].value == Print(Join(keep, ' '), p)
    ensures ReadOptions(d).1 == Reread(keep, p).properties
    ensures WriteOptions(ReadOptions(d).0, q) == SetOptions(d, at, Print(Join(Reread(keep, p).keep, ' '), q))
  {
    ParsePrint(keep, p);
    SetOptionsFacts(d, at, Join(Reread(keep, p).keep, ' '), Print(Join(Reread(keep, p).keep, ' '), q));
  }

  /** What was printed is read back as Reread says, and reprinting it restores the container if
      it settles; otherwise no values of the same keys do. */
  lemma PrintedReads(c: Container, p: Properties, d: Container)
    requires PrintedInto(c, p, d) && Printable(p) && (CleanOptions(c) ==> Clean(p))
    ensures var keep := OptionsOf(c).keep;
      && ReadOptions(d).1 == Reread(keep, p).properties && Printable(ReadOptions(d).1)
      && (Settles(keep, p) ==> WriteOptions(ReadOptions(d).0, ReadOptions(d).1) == d)
  {
    var keep := OptionsOf(c).keep;
    var at := PrintedText(c, p, d);
    OptionsFacts(c);
    ParsePrint(keep, p);
    PrintedPass(d, at, keep, p, Reread(keep, p).properties);
    if Settles(keep, p) {
      SettledPrint(keep, p);
      SetOptionsFacts(d, at, "", "");
    }
  }

  lemma UnsettledIsRewritten(c: Container, p: Properties, d: Container, q: Properties, e: Container)
    requires PrintedInto(c, p, d) && Printable(p) && (CleanOptions(c) ==> Clean(p))
    requires !Settles(OptionsOf(c).keep, p)
    requires PrintedInto(d, q, e) && Printable(q) && q.Keys == ReadOptions(d).1.Keys
    ensures e.env != d.env
  {
    var keep := OptionsOf(c).keep;
    var at := PrintedText(c, p, d);
    OptionsFacts(c);
    PrintedPass(d, at, keep, p, q);
    UnsettledPrint(keep, p, q);
  }

  // ----- one container of a run -----

  ghost predicate HasMetadata(s: Server, t: PodTemplate, i: nat)
    requires i < |t.containers|
  {
    t.containers[i].image in s.images
  }

  function FactsAt(s: Server, t: PodTemplate, i: nat): Facts
    requires i < |t.containers| && t.containers[i].image in s.images
  {
    FactsOf(s.images[t.containers[i].image], s.semver)
  }

  /** Changing nothing but the environment of container i unsettles no convention. */
  lemma EnvIsLater(t: PodTemplate, c: Container, i: nat, j: nat)
    requires i < |t.containers| && j < |t.containers| && c == t.containers[i].(env := c.env)
    ensures Later(t, SetContainer(t, i, c), j)
  {
    OwnersKept(t.containers, SetContainer(t, i, c).containers, i);
  }

  lemma LaterTransitive(t: PodTemplate, u: PodTemplate, v: PodTemplate, i: nat)
    requires Later(t, u, i) && Later(u, v, i)
    ensures Later(t, v, i)
  {
  }

  /** The parts of a run that are the same before and after: who the containers are. */
  predicate SameContainers(t: PodTemplate, u: PodTemplate) {
    |u.containers| == |t.containers|
    && forall j | 0 <= j < |t.containers| ::
         u.containers[j].name == t.containers[j].name && u.containers[j].image == t.containers[j].image
         && t.containers[j].ports <= u.containers[j].ports
  }

  lemma StepFrame(s: Server, t: PodTemplate, i: nat, j: nat)
    requires i < |t.containers| && j < |t.containers| && !StepContainer(s, t, i).failed
    ensures var o := StepContainer(s, t, i);
      && Later(t, o.t, j)
      && SameContainers(t, o.t)
      && o.t.initContainers == t.initContainers && PodGrace(o.t) == PodGrace(t)
      && (j != i ==> o.t.containers[j] == t.containers[j])
  {
    if HasMetadata(s, t, i) {
      var f := FactsAt(s, t, i);
      var (c, p) := ReadOptions(t.containers[i]);
      var read := SetContainer(t, i, c);
      var mid := ApplyAll(s.conventions, read, p, i, f);
      EnvIsLater(t, c, i, j);
      ApplyAllEvolves(s.conventions, read, p, i, f);
      EvolvesIsLater(read, mid.t, i, j);
      EnvIsLater(mid.t, WriteOptions(mid.t.containers[i], mid.p), i, j);
      LaterTransitive(t, read, mid.t, j);
      LaterTransitive(t, mid.t, StepContainer(s, t, i).t, j);
    }
  }

  /** After a successful step every applicable convention is settled. */
  lemma StepSettles(s: Server, t: PodTemplate, i: nat)
    requires i < |t.containers| && HasMetadata(s, t, i) && !StepContainer(s, t, i).failed
    ensures var o := StepContainer(s, t, i);
      o.p.Some? && AllSettled(s.conventions, o.t, o.p.value, i, FactsAt(s, t, i))
  {
    var f := FactsAt(s, t, i);
    var (c, p) := ReadOptions(t.containers[i]);
    var read := SetContainer(t, i, c);
    var mid := ApplyAll(s.conventions, read, p, i, f);
    ApplyAllSettles(s.conventions, read, p, i, f);
    EnvIsLater(mid.t, WriteOptions(mid.t.containers[i], mid.p), i, i);
    AllSettledLater(s.conventions, mid.t, mid.p, i, f, StepContainer(s, t, i).t);
  }

  /** The keys that a successful step prints: those of the container's own properties, and those that
      the applicable conventions supply. */
  function PrintedKeys(s: Server, t: PodTemplate, i: nat): set<string>
    requires i < |t.containers| && t.containers[i].image in s.images
  {
    ReadOptions(t.containers[i]).1.Keys + AllSupplied(s.conventions, FactsAt(s, t, i))
  }

  /** How the properties that a step prints come from the container's own ones. */
  ghost predicate Derived(s: Server, c: Container, p: Properties, f: Facts) {
    && Printable(p) && (CleanOptions(c) ==> Clean(p))
    && p.Keys == ReadOptions(c).1.Keys + AllSupplied(s.conventions, f)
    && PortIsTaken(ReadOptions(c).1, p)
    && Grows(ReadOptions(c).1, p)
    && (!Applies(s.conventions, GracefulShutdown, f) ==> GrowsFully(ReadOptions(c).1, p))
  }

  lemma StepDerives(s: Server, t: PodTemplate, i: nat)
    requires i < |t.containers| && HasMetadata(s, t, i) && !StepContainer(s, t, i).failed
    ensures var o := StepContainer(s, t, i);
      && o.p.Some?
      && Derived(s, t.containers[i], o.p.value, FactsAt(s, t, i))
      && PrintedInto(t.containers[i], o.p.value, o.t.containers[i])
  {
    var f := FactsAt(s, t, i);
    var (c, p) := ReadOptions(t.containers[i]);
    var read := SetContainer(t, i, c);
    OptionsFacts(t.containers[i]);
    ApplyAllStaysClean(s.conventions, read, p, i, f);
    ApplyAllKeys(s.conventions, read, p, i, f);
    ApplyAllTakesPort(s.conventions, read, p, p, i, f);
    ApplyAllGrows(s.conventions, read, p, i, f);
    ApplyAllEvolves(s.conventions, read, p, i, f);
  }

  lemma AllSettledLater(cs: seq<Convention>, t: PodTemplate, p: Properties, i: nat, f: Facts, u: PodTemplate)
    requires Later(t, u, i) && AllSettled(cs, t, p, i, f)
    ensures AllSettled(cs, u, p, i, f)
  {
    forall k | 0 <= k < |cs| && IsApplicable(cs[k], f) ensures Settled(cs[k], u, p, i) {
      SettledLater(cs[k], t, p, i, u);
    }
  }

  // ----- whole runs -----

  lemma {:induction false} RunFrame(s: Server, t: PodTemplate, i: nat, j: nat)
    requires i <= |t.containers| && j < |t.containers| && !RunFrom(s, t, i).failed
    ensures var o := RunFrom(s, t, i);
      && Later(t, o.t, j)
      && SameContainers(t, o.t)
      && o.t.initContainers == t.initContainers && PodGrace(o.t) == PodGrace(t)
      && (j < i ==> o.t.containers[j] == t.containers[j])
    decreases |t.containers| - i
  {
    if i < |t.containers| {
      var step := StepContainer(s, t, i);
      StepFrame(s, t, i, j);
      RunFrame(s, step.t, i + 1, j);
      var o := RunFrom(s, t, i);
      LaterTransitive(t, step.t, o.t, j);
      SameContainersTransitive(t, step.t, o.t);
    }
  }

  lemma SameContainersTransitive(t: PodTemplate, u: PodTemplate, v: PodTemplate)
    requires SameContainers(t, u) && SameContainers(u, v)
    ensures SameContainers(t, v)
  {
  }

  lemma SettledSurvives(s: Server, t: PodTemplate, i: nat, p: Properties, f: Facts)
    requires i < |t.containers| && !RunFrom(s, t, i + 1).failed
    requires AllSettled(s.conventions, t, p, i, f)
    ensures var final := RunFrom(s, t, i + 1).t;
      final.containers[i] == t.containers[i] && AllSettled(s.conventions, final, p, i, f)
  {
    var final := RunFrom(s, t, i + 1).t;
    assert Later(t, final, i) && final.containers[i] == t.containers[i] by {
      RunFrame(s, t, i + 1, i);
    }
    AllSettledLater(s.conventions, t, p, i, f, final);
  }

  /** The final template has the conventions of a container settled for the properties that were
      printed into it, and these came from the options it had at first. */
  ghost predicate Remembers(s: Server, t: PodTemplate, j: nat, p: Properties, final: PodTemplate)
    requires j < |t.containers| == |final.containers| && HasMetadata(s, t, j)
  {
    && AllSettled(s.conventions, final, p, j, FactsAt(s, t, j))
    && Derived(s, t.containers[j], p, FactsAt(s, t, j))
    && PrintedInto(t.containers[j], p, final.containers[j])
  }

  lemma FinalRemembers(s: Server, t: PodTemplate, i: nat)
    requires i < |t.containers| && !RunFrom(s, t, i).failed && HasMetadata(s, t, i)
    ensures var step := StepContainer(s, t, i);
      step.p.Some? && Remembers(s, t, i, step.p.value, RunFrom(s, t, i).t)
  {
    var step := StepContainer(s, t, i);
    StepSettles(s, t, i);
    StepDerives(s, t, i);
    SettledSurvives(s, step.t, i, step.p.value, FactsAt(s, t, i));
  }

  lemma {:induction false} RunRemembers(s: Server, t: PodTemplate, i: nat, j: nat)
    requires i <= j < |t.containers| && !RunFrom(s, t, i).failed
    ensures var o := RunFrom(s, t, i);
      && (o.properties[j - i].Some? <==> HasMetadata(s, t, j))
      && (HasMetadata(s, t, j) ==> Remembers(s, t, j, o.properties[j - i].value, o.t))
    decreases |t.containers| - i
  {
    if i < j {
      StepFrame(s, t, i, j);
      RunRemembers(s, StepContainer(s, t, i).t, i + 1, j);
    } else if HasMetadata(s, t, j) {
      FinalRemembers(s, t, i);
    }
  }

  /** The same containers by name and image, so that the same conventions apply to them. */
  predicate SameIdentity(t: PodTemplate, u: PodTemplate) {
    |u.containers| == |t.containers|
    && forall j | 0 <= j < |t.containers| ::
         u.containers[j].name == t.containers[j].name && u.containers[j].image == t.containers[j].image
  }

  lemma RunKeepsIdentity(s: Server, t: PodTemplate)
    requires !RunFrom(s, t, 0).failed
    ensures SameIdentity(t, RunFrom(s, t, 0).t)
  {
    forall j | 0 <= j < |t.containers|
      ensures RunFrom(s, t, 0).t.containers[j].name == t.containers[j].name
      ensures RunFrom(s, t, 0).t.containers[j].image == t.containers[j].image
    {
      RunFrame(s, t, 0, j);
    }
  }

  /** What the outcome of a successful run says about the containers it started from. */
  ghost predicate RunsTo(s: Server, t: PodTemplate, o: RunOutcome) {
    && SameIdentity(t, o.t) && |o.properties| == |t.containers|
    && forall j | 0 <= j < |t.containers| :: EndsAs(s, t, j, o.properties[j], o.t)
  }

  ghost predicate EndsAs(s: Server, t: PodTemplate, j: nat, p: Option<Properties>, final: PodTemplate)
    requires j < |t.containers| == |final.containers|
  {
    && (p.Some? <==> HasMetadata(s, t, j))
    && (HasMetadata(s, t, j) ==> Remembers(s, t, j, p.value, final))
  }

  lemma RunOutcomeFacts(s: Server, t: PodTemplate)
    requires !RunFrom(s, t, 0).failed
    ensures RunsTo(s, t, RunFrom(s, t, 0))
  {
    var o := RunFrom(s, t, 0);
    RunKeepsIdentity(s, t);
    forall j | 0 <= j < |t.containers| ensures EndsAs(s, t, j, o.properties[j], o.t) {
      EndOf(s, t, j);
    }
  }

  lemma EndOf(s: Server, t: PodTemplate, j: nat)
    requires j < |t.containers| && !RunFrom(s, t, 0).failed
    ensures EndsAs(s, t, j, RunFrom(s, t, 0).properties[j], RunFrom(s, t, 0).t)
  {
    RunRemembers(s, t, 0, j);
  }
}
