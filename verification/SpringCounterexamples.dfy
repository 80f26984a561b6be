/** Templates that a second run of the Spring Boot convention server changes, and one whose run
    replaces what the user set. */
module SpringCounterexamples {
  import opened Wrappers
  import opened Text
  import opened Core
  import opened Dependencies
  import opened SpringProperties
  import opened RoundTrips
  import opened SpringBoot
  import opened Convergence
  import opened SpringRuns
  import opened ExactConvergence
  import opened SpringGuarantees
  import opened RunConvergence
  import opened SpringOutcomes

  // ----- a property behind stray white space -----

  /** White space other than ' ' in front of a property that does not come first in the order of
      keys: the first pass trims it away, and the second pass moves the property. */
  lemma StrayDoesNotSettle(c: char, x: string, u: string, y: string, keys: set<string>)
    requires IsSpace(c) && '=' !in x && y in keys && !Less(x, y)
    ensures !SettlesBefore([[c] + Render(x, u)], keys)
  {
    var word := Render(x, u);
    TrimRightRender(x, u);
    KeyValueRender(x, u);
    TrimLeftAppend([c], word);
    assert !Blank([c] + word) by {
      assert ([c] + word)[1] == '-';
    }
  }

  lemma ParsePair(first: string, second: string)
    requires ' ' !in first && ' ' !in second
    ensures Parse(first + " " + second) == Merge(ParseWords([first]), ParseWords([second]))
  {
    SplitJoin([first, second], ' ');
    assert Join([first, second], ' ') == first + " " + second;
    assert [first, second] == [first] + [second];
    ParseConcat([first], [second]);
  }

  lemma ParseStray(c: char, x: string, u: string, y: string, w: string)
    requires c != ' ' && IsSpace(c) && Printable(map[x := u]) && Printable(map[y := w])
    ensures Parse([c] + Render(x, u) + " " + Render(y, w)) == Options([[c] + Render(x, u)], map[y := w])
  {
    assert x in map[x := u] && y in map[y := w];
    RenderIsWord(x, u);
    RenderIsWord(y, w);
    KeyValueRender(y, w);
    ParsePair([c] + Render(x, u), Render(y, w));
    ParseOneWord([c] + Render(x, u));
    ParseOneWord(Render(y, w));
    assert ([c] + Render(x, u))[0] != '-';
    assert map[] + map[y := w] == map[y := w];
  }

  ghost predicate HasOptions(c: Container, value: string) {
    var at := FindEnvVar(c.env, JAVA_TOOL_OPTIONS);
    at.Some? && c.env[at.value].value == value
  }

  /** No run over a template with such options converges, whatever else the template holds. */
  lemma StrayWhiteSpaceDiverges(images: seq<ImageConfig>, semver: (string, string) -> bool, t: PodTemplate, j: nat,
                                c: char, x: string, u: string, y: string, w: string)
    requires j < |t.containers| && t.containers[j].image in ImageMap(images)
    requires c != ' ' && IsSpace(c) && Printable(map[x := u]) && Printable(map[y := w]) && !Less(x, y)
    requires HasOptions(t.containers[j], [c] + Render(x, u) + " " + Render(y, w))
    requires !Run(images, semver, t).failed
    ensures !Converges(SpringServer(images, semver), t)
  {
    var s := SpringServer(images, semver);
    ParseStray(c, x, u, y, w);
    RunConvergesExactly(images, semver, t);
    assert x in map[x := u];
    StrayDoesNotSettle(c, x, u, y, PrintedKeys(s, t, j));
  }

  // ----- such templates exist -----

  /** Conventions that cannot fail: no web convention, and probes that are switched off. */
  predicate Quiet(c: Convention, p: Properties) {
    && !c.Web?
    && (c.ActuatorProbes? ==> PROBES_ENABLED in p && p[PROBES_ENABLED] != "true")
  }

  lemma {:induction false} QuietPassSucceeds(cs: seq<Convention>, t: PodTemplate, p: Properties, i: nat, f: Facts)
    requires i < |t.containers| && forall k | 0 <= k < |cs| && IsApplicable(cs[k], f) :: Quiet(cs[k], p)
    ensures !ApplyAll(cs, t, p, i, f).failed
  {
    if cs != [] {
      var rest := cs[1..];
      assert forall k | 0 <= k < |rest| :: rest[k] == cs[k + 1];
      if IsApplicable(cs[0], f) {
        var first := ApplyConvention(cs[0], t, p, i, f);
        assert Quiet(cs[0], p);
        ConventionGrows(cs[0], t, p, i, f);
        DistinctKeys();
        QuietPassSucceeds(rest, first.t, first.p, i, f);
      } else {
        QuietPassSucceeds(rest, t, p, i, f);
      }
    }
  }

  /** A template with one container, whose only variable holds the options. */
  function OneContainer(value: string): PodTemplate {
    PodTemplate(map[], map[], None, [],
                [Container("web", "web", [EnvVar(JAVA_TOOL_OPTIONS, value)], [], None, None, None)])
  }

  lemma OneContainerRuns(boms: seq<BOM>, semver: (string, string) -> bool, value: string)
    requires var f := Facts(Components(boms), semver);
      forall k | 0 <= k < |SPRING_BOOT_CONVENTIONS| && IsApplicable(SPRING_BOOT_CONVENTIONS[k], f) ::
        Quiet(SPRING_BOOT_CONVENTIONS[k], Parse(value).properties)
    ensures !Run([ImageConfig("web", boms, "")], semver, OneContainer(value)).failed
  {
    var s, t := SpringServer([ImageConfig("web", boms, "")], semver), OneContainer(value);
    var (c, p) := ReadOptions(t.containers[0]);
    assert [ImageConfig("web", boms, "")][..0] == [];
    QuietPassSucceeds(s.conventions, SetContainer(t, 0, c), p, 0, Facts(Components(boms), semver));
    assert RunFrom(s, StepContainer(s, t, 0).t, 1).failed == false;
  }

  lemma NothingApplies(semver: (string, string) -> bool, k: nat)
    requires k < |SPRING_BOOT_CONVENTIONS|
    ensures !IsApplicable(SPRING_BOOT_CONVENTIONS[k], Facts([], semver))
  {
  }

  /** An image without bills of materials, and options with a tab before the second key. */
  lemma StrayExample(semver: (string, string) -> bool)
    ensures var images, t := [ImageConfig("web", [], "")], OneContainer("\t-Db=1 -Da=1");
      !Run(images, semver, t).failed && !Converges(SpringServer(images, semver), t)
  {
    var images, value := [ImageConfig("web", [], "")], "\t-Db=1 -Da=1";
    forall k | 0 <= k < |SPRING_BOOT_CONVENTIONS| ensures !IsApplicable(SPRING_BOOT_CONVENTIONS[k], Facts([], semver)) {
      NothingApplies(semver, k);
    }
    OneContainerRuns([], semver, value);
    StrayText();
    assert images[..0] == [];
    StrayWhiteSpaceDiverges(images, semver, OneContainer(value), 0, '\t', "b", "1", "a", "1");
  }

  lemma StrayText()
    ensures ['\t'] + Render("b", "1") + " " + Render("a", "1") == "\t-Db=1 -Da=1"
    ensures Printable(map["b" := "1"]) && Printable(map["a" := "1"]) && !Less("b", "a")
  {
  }

  const ACTUATOR_ONLY := [Component("spring-boot-actuator", "2.0.0")]

  lemma ActuatorApplies(semver: (string, string) -> bool, k: nat)
    requires k < |SPRING_BOOT_CONVENTIONS|
    ensures IsApplicable(SPRING_BOOT_CONVENTIONS[k], Facts(ACTUATOR_ONLY, semver)) <==> k == 3 || k == 4
  {
    var c := SPRING_BOOT_CONVENTIONS[k];
    assert ACTUATOR_ONLY[0] in ACTUATOR_ONLY;
    assert |"spring-boot"| == 11 && |"spring-boot-actuator"| == 20 && |"spring-web"| == 10;
    if c.ServiceIntent? {
      forall n | 0 <= n < |c.dependencies| ensures c.dependencies[n][0] != 's' {
      }
    }
  }

  /** Probes are switched off, so that nothing reads the management port as a number. */
  const TRAILING_TAB := Render(PROBES_ENABLED, "false") + " " + Render(MANAGEMENT_PORT, "9090\t")

  function TrailingTab(): Properties {
    map[PROBES_ENABLED := "false"] + map[MANAGEMENT_PORT := "9090\t"]
  }

  lemma ParseTwo(x: string, u: string, y: string, w: string)
    requires Printable(map[x := u]) && Printable(map[y := w])
    ensures Parse(Render(x, u) + " " + Render(y, w)) == Options([], map[x := u] + map[y := w])
  {
    assert x in map[x := u] && y in map[y := w];
    RenderIsWord(x, u);
    RenderIsWord(y, w);
    ParsePair(Render(x, u), Render(y, w));
    ParseRender(x, u);
    ParseRender(y, w);
  }

  lemma ParseTrailingTab()
    ensures Parse(TRAILING_TAB).properties == TrailingTab()
  {
    ProbesEnabledIsWord();
    ManagementPortIsWord();
    ParseTwo(PROBES_ENABLED, "false", MANAGEMENT_PORT, "9090\t");
  }

  lemma ParseRender(key: string, value: string)
    requires '=' !in key
    ensures ParseWords([Render(key, value)]) == Options([], map[key := value])
  {
    KeyValueRender(key, value);
    ParseOneWord(Render(key, value));
  }

  lemma {:induction false} AllSuppliedWithin(cs: seq<Convention>, f: Facts, keys: set<string>)
    requires forall k | 0 <= k < |cs| && IsApplicable(cs[k], f) :: Supplied(cs[k]) <= keys
    ensures AllSupplied(cs, f) <= keys
  {
    if cs != [] {
      assert forall k | 0 <= k < |cs[1..]| :: cs[1..][k] == cs[k + 1];
      AllSuppliedWithin(cs[1..], f, keys);
    }
  }

  lemma BasePathBeforePort()
    ensures Less(MANAGEMENT_BASE_PATH, MANAGEMENT_PORT)
  {
    LessAt(MANAGEMENT_BASE_PATH, MANAGEMENT_PORT, 11);
  }

  lemma LastOfThree(keys: set<string>, a: string, b: string, last: string)
    requires last in keys && keys <= {a, b, last} && Less(a, last) && Less(b, last)
    ensures IsLastOf(keys, last)
  {
  }

  lemma TrailingTabFacts()
    ensures TrailingTab().Keys == {PROBES_ENABLED, MANAGEMENT_PORT} && !NoSpaceAtEnd(TrailingTab()[MANAGEMENT_PORT])
  {
    assert "9090\t"[4] == '\t';
  }

  lemma SuppliedByActuator(cs: seq<Convention>, semver: (string, string) -> bool)
    requires cs == SPRING_BOOT_CONVENTIONS
    ensures AllSupplied(cs, Facts(ACTUATOR_ONLY, semver)) <= {PROBES_ENABLED, MANAGEMENT_PORT, MANAGEMENT_BASE_PATH}
  {
    var f, keys := Facts(ACTUATOR_ONLY, semver), {PROBES_ENABLED, MANAGEMENT_PORT, MANAGEMENT_BASE_PATH};
    forall k | 0 <= k < |cs| && IsApplicable(cs[k], f) ensures Supplied(cs[k]) <= keys {
      ActuatorApplies(semver, k);
    }
    AllSuppliedWithin(cs, f, keys);
  }

  /** The actuator without probes, and a management port that ends in a tab. */
  lemma AnnouncementExample(semver: (string, string) -> bool)
    ensures var images, t := [ImageConfig("web", [CycloneDX(Some(ACTUATOR_ONLY))], "")], OneContainer(TRAILING_TAB);
      !Run(images, semver, t).failed && !Converges(SpringServer(images, semver), t)
  {
    var boms := [CycloneDX(Some(ACTUATOR_ONLY))];
    var images, t := [ImageConfig("web", boms, "")], OneContainer(TRAILING_TAB);
    var s := SpringServer(images, semver);
    assert boms[..0] == [] && Components(boms) == [] + ACTUATOR_ONLY == ACTUATOR_ONLY;
    assert images[..0] == [] && FactsAt(s, t, 0) == Facts(ACTUATOR_ONLY, semver);
    TrailingTabRuns(boms, semver);
    RunConvergesExactly(images, semver, t);
    ParseTrailingTab();
    TrailingTabMovesUri(s, t, semver);
  }

  /** The management port is printed last, and its tab is announced by the first run only. */
  lemma TrailingTabMovesUri(s: Server, t: PodTemplate, semver: (string, string) -> bool)
    requires s.conventions == SPRING_BOOT_CONVENTIONS
    requires |t.containers| == 1 && HasMetadata(s, t, 0) && FactsAt(s, t, 0) == Facts(ACTUATOR_ONLY, semver)
    requires ReadOptions(t.containers[0]).1 == TrailingTab()
    ensures !UriSettles(s, t)
  {
    SuppliedByActuator(s.conventions, semver);
    TrailingTabDoesNotSettle(AllSupplied(s.conventions, Facts(ACTUATOR_ONLY, semver)));
    ActuatorAnnounces(s.conventions, semver);
    assert IsLastAnnouncer(s, t, 0);
  }

  lemma TrailingTabDoesNotSettle(supplied: set<string>)
    requires supplied <= {PROBES_ENABLED, MANAGEMENT_PORT, MANAGEMENT_BASE_PATH}
    ensures !AnnouncementSettles(TrailingTab().Keys + supplied, TrailingTab())
  {
    TrailingTabFacts();
    ProbesBeforePort();
    BasePathBeforePort();
    LastOfThree(TrailingTab().Keys + supplied, PROBES_ENABLED, MANAGEMENT_BASE_PATH, MANAGEMENT_PORT);
  }

  lemma ActuatorAnnounces(cs: seq<Convention>, semver: (string, string) -> bool)
    requires cs == SPRING_BOOT_CONVENTIONS
    ensures Applies(cs, Actuator, Facts(ACTUATOR_ONLY, semver))
  {
    ActuatorApplies(semver, 3);
    assert cs[3] == Actuator;
  }

  lemma TrailingTabRuns(boms: seq<BOM>, semver: (string, string) -> bool)
    requires Components(boms) == ACTUATOR_ONLY
    ensures !Run([ImageConfig("web", boms, "")], semver, OneContainer(TRAILING_TAB)).failed
  {
    ParseTrailingTab();
    var f := Facts(ACTUATOR_ONLY, semver);
    forall k | 0 <= k < |SPRING_BOOT_CONVENTIONS| && IsApplicable(SPRING_BOOT_CONVENTIONS[k], f)
      ensures Quiet(SPRING_BOOT_CONVENTIONS[k], Parse(TRAILING_TAB).properties)
    {
      ActuatorApplies(semver, k);
    }
    OneContainerRuns(boms, semver, TRAILING_TAB);
  }

  // ----- a value of the user that is replaced -----

  const BOOT_WITH_TOMCAT := [Component("spring-boot", "2.3.0"), Component("spring-boot-starter-tomcat", "2.3.0")]

  lemma GraceApplies(semver: (string, string) -> bool, k: nat)
    requires k < |SPRING_BOOT_CONVENTIONS| && semver("2.3.0", ">= 2.3.0-0")
    ensures IsApplicable(SPRING_BOOT_CONVENTIONS[k], Facts(BOOT_WITH_TOMCAT, semver)) <==> k < 2
  {
    var c := SPRING_BOOT_CONVENTIONS[k];
    assert BOOT_WITH_TOMCAT[0] in BOOT_WITH_TOMCAT && BOOT_WITH_TOMCAT[1] in BOOT_WITH_TOMCAT;
    assert WEB_SERVERS[0] in WEB_SERVERS;
    assert |"spring-boot"| == 11 && |"spring-boot-starter-tomcat"| == 26 && |"spring-web"| == 10;
    assert |"spring-boot-actuator"| == 20;
    if c.ServiceIntent? {
      forall n | 0 <= n < |c.dependencies| ensures c.dependencies[n][0] != 's' {
      }
    }
  }

  lemma DefaultGrace(t: PodTemplate)
    requires t.terminationGracePeriodSeconds.None?
    ensures DerivedGrace(t) == "24s" && DerivedGrace(t) != "5s"
  {
    BootGraceIsFourFifths(30);
    assert BootGrace(PodGrace(t)) == 24;
    assert NatToDigits(24) == NatToDigits(2) + ['4'] && NatToDigits(2) == ['2'];
  }

  /** A web application on Spring Boot 2.3 whose user sets a shutdown period of five seconds. */
  lemma GraceExample(semver: (string, string) -> bool)
    requires semver("2.3.0", ">= 2.3.0-0")
    ensures var images := [ImageConfig("web", [CycloneDX(Some(BOOT_WITH_TOMCAT))], "")];
      var t := OneContainer(Render(SHUTDOWN_GRACE, "5s"));
      var o := Run(images, semver, t);
      && !o.failed
      && ReadOptions(t.containers[0]).1 == map[SHUTDOWN_GRACE := "5s"]
      && SHUTDOWN_GRACE in ReadOptions(o.t.containers[0]).1
      && ReadOptions(o.t.containers[0]).1[SHUTDOWN_GRACE] != "5s"
      && o.applied == ["spring-boot", "spring-boot-graceful-shutdown"]
      && o.t.terminationGracePeriodSeconds == Some(30)
      && o.properties[0].Some? && SHUTDOWN_GRACE in o.properties[0].value
      && o.properties[0].value[SHUTDOWN_GRACE] == "24s"
  {
    var boms := [CycloneDX(Some(BOOT_WITH_TOMCAT))];
    var images, t := [ImageConfig("web", boms, "")], OneContainer(Render(SHUTDOWN_GRACE, "5s"));
    var s := SpringServer(images, semver);
    assert boms[..0] == [] && Components(boms) == [] + BOOT_WITH_TOMCAT == BOOT_WITH_TOMCAT;
    assert images[..0] == [] && FactsAt(s, t, 0) == Facts(BOOT_WITH_TOMCAT, semver);
    ParseGrace();
    GraceRuns(boms, semver);
    GraceIsReplaced(s, t, semver);
    GraceIsReported(s, t, semver);
  }

  lemma GraceIsReported(s: Server, t: PodTemplate, semver: (string, string) -> bool)
    requires s.conventions == SPRING_BOOT_CONVENTIONS && semver("2.3.0", ">= 2.3.0-0")
    requires |t.containers| == 1 && HasMetadata(s, t, 0) && FactsAt(s, t, 0) == Facts(BOOT_WITH_TOMCAT, semver)
    requires t.terminationGracePeriodSeconds.None? && !RunFrom(s, t, 0).failed
    ensures var o := RunFrom(s, t, 0);
      && o.applied == ["spring-boot", "spring-boot-graceful-shutdown"]
      && o.t.terminationGracePeriodSeconds == Some(30)
      && o.properties[0].Some? && SHUTDOWN_GRACE in o.properties[0].value
      && o.properties[0].value[SHUTDOWN_GRACE] == "24s"
  {
    GraceIsApplied(s.conventions, semver);
    GraceNames(s.conventions, semver);
    RunReports(s, t, 0, t);
    assert NamesFrom(s, t, 0) == StepNames(s, t, 0) + [] == StepNames(s, t, 0);
    ShutdownGraceIsDerived(s, t, 0);
    DefaultGrace(t);
  }

  lemma GraceNames(cs: seq<Convention>, semver: (string, string) -> bool)
    requires cs == SPRING_BOOT_CONVENTIONS && semver("2.3.0", ">= 2.3.0-0")
    ensures AppliedIds(cs, Facts(BOOT_WITH_TOMCAT, semver)) == ["spring-boot", "spring-boot-graceful-shutdown"]
  {
    var f := Facts(BOOT_WITH_TOMCAT, semver);
    forall k | 0 <= k < |cs| ensures IsApplicable(cs[k], f) <==> k < 2 {
      GraceApplies(semver, k);
    }
    OnlyTwoNames(cs, f);
  }

  lemma OnlyTwoNames(cs: seq<Convention>, f: Facts)
    requires |cs| > 2 && cs[0] == Framework && cs[1] == GracefulShutdown
    requires forall k | 0 <= k < |cs| :: IsApplicable(cs[k], f) <==> k < 2
    ensures AppliedIds(cs, f) == ["spring-boot", "spring-boot-graceful-shutdown"]
  {
    assert cs[1..][0] == cs[1] && cs[1..][1..] == cs[2..];
    assert forall k | 0 <= k < |cs[2..]| :: cs[2..][k] == cs[k + 2];
    NothingIsReported(cs[2..], f);
  }

  lemma ParseGrace()
    ensures Parse(Render(SHUTDOWN_GRACE, "5s")).properties == map[SHUTDOWN_GRACE := "5s"]
  {
    ShutdownGraceIsWord();
    RenderIsWord(SHUTDOWN_GRACE, "5s");
    SplitFree(Render(SHUTDOWN_GRACE, "5s"), ' ');
    ParseRender(SHUTDOWN_GRACE, "5s");
  }

  lemma GraceRuns(boms: seq<BOM>, semver: (string, string) -> bool)
    requires Components(boms) == BOOT_WITH_TOMCAT && semver("2.3.0", ">= 2.3.0-0")
    ensures !Run([ImageConfig("web", boms, "")], semver, OneContainer(Render(SHUTDOWN_GRACE, "5s"))).failed
  {
    var f := Facts(BOOT_WITH_TOMCAT, semver);
    forall k | 0 <= k < |SPRING_BOOT_CONVENTIONS| && IsApplicable(SPRING_BOOT_CONVENTIONS[k], f)
      ensures Quiet(SPRING_BOOT_CONVENTIONS[k], Parse(Render(SHUTDOWN_GRACE, "5s")).properties)
    {
      GraceApplies(semver, k);
    }
    OneContainerRuns(boms, semver, Render(SHUTDOWN_GRACE, "5s"));
  }

  lemma ValueIsReplaced(s: Server, t: PodTemplate, value: string)
    requires |t.containers| == 1 && HasMetadata(s, t, 0) && !RunFrom(s, t, 0).failed
    requires ReadOptions(t.containers[0]).1 == map[SHUTDOWN_GRACE := value] && value != DerivedGrace(t)
    requires Applies(s.conventions, GracefulShutdown, FactsAt(s, t, 0))
    ensures var final := ReadOptions(RunFrom(s, t, 0).t.containers[0]).1;
      SHUTDOWN_GRACE in final && final[SHUTDOWN_GRACE] != value
  {
    UserPropertiesSurvive(s, t, 0, SHUTDOWN_GRACE);
  }

  lemma GraceIsReplaced(s: Server, t: PodTemplate, semver: (string, string) -> bool)
    requires s.conventions == SPRING_BOOT_CONVENTIONS && semver("2.3.0", ">= 2.3.0-0")
    requires |t.containers| == 1 && HasMetadata(s, t, 0) && FactsAt(s, t, 0) == Facts(BOOT_WITH_TOMCAT, semver)
    requires ReadOptions(t.containers[0]).1 == map[SHUTDOWN_GRACE := "5s"] && t.terminationGracePeriodSeconds.None?
    requires !RunFrom(s, t, 0).failed
    ensures var final := ReadOptions(RunFrom(s, t, 0).t.containers[0]).1;
      SHUTDOWN_GRACE in final && final[SHUTDOWN_GRACE] != "5s"
  {
    DefaultGrace(t);
    GraceIsApplied(s.conventions, semver);
    ValueIsReplaced(s, t, "5s");
  }

  lemma GraceIsApplied(cs: seq<Convention>, semver: (string, string) -> bool)
    requires cs == SPRING_BOOT_CONVENTIONS && semver("2.3.0", ">= 2.3.0-0")
    ensures Applies(cs, GracefulShutdown, Facts(BOOT_WITH_TOMCAT, semver))
  {
    GraceApplies(semver, 1);
    assert cs[1] == GracefulShutdown;
  }
}
