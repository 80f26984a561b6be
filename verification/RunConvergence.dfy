/** Running the Spring Boot convention server a second time: exactly when it changes nothing. */
module RunConvergence {
  import opened Wrappers
  import opened Text
  import opened Core
  import opened SpringProperties
  import opened RoundTrips
  import opened SpringBoot
  import opened Convergence
  import opened SpringRuns

  // ----- what a run reports -----

  function StepNames(s: Server, t: PodTemplate, i: nat): seq<string>
    requires i < |t.containers|
  {
    if t.containers[i].image in s.images then AppliedIds(s.conventions, FactsAt(s, t, i)) else []
  }

  function StepLabels(s: Server, t: PodTemplate, i: nat): map<string, string>
    requires i < |t.containers|
  {
    if t.containers[i].image in s.images
    then AllLabelWrites(s.conventions, t.containers[i].name, FactsAt(s, t, i)) else map[]
  }

  function StepAnnotations(s: Server, t: PodTemplate, i: nat, p: Option<Properties>): map<string, string>
    requires i < |t.containers|
  {
    if t.containers[i].image in s.images && p.Some?
    then AllAnnotationWrites(s.conventions, p.value, FactsAt(s, t, i)) else map[]
  }

  function NamesFrom(s: Server, t: PodTemplate, i: nat): seq<string>
    requires i <= |t.containers|
    decreases |t.containers| - i
  {
    if i == |t.containers| then [] else StepNames(s, t, i) + NamesFrom(s, t, i + 1)
  }

  function LabelsFrom(s: Server, t: PodTemplate, i: nat): map<string, string>
    requires i <= |t.containers|
    decreases |t.containers| - i
  {
    if i == |t.containers| then map[] else StepLabels(s, t, i) + LabelsFrom(s, t, i + 1)
  }

  /** The annotations written from container i on, given the properties printed into each. */
  function AnnotationsFrom(s: Server, t: PodTemplate, i: nat, ps: seq<Option<Properties>>): map<string, string>
    requires i <= |t.containers| && |ps| == |t.containers| - i
    decreases |ps|
  {
    if ps == [] then map[] else StepAnnotations(s, t, i, ps[0]) + AnnotationsFrom(s, t, i + 1, ps[1..])
  }

  lemma StepReports(s: Server, t: PodTemplate, i: nat)
    requires i < |t.containers| && !StepContainer(s, t, i).failed
    ensures var o := StepContainer(s, t, i);
      && o.applied == StepNames(s, t, i)
      && o.t.labels == t.labels + StepLabels(s, t, i)
      && o.t.annotations == t.annotations + StepAnnotations(s, t, i, o.p)
  {
    if HasMetadata(s, t, i) {
      var (c, p) := ReadOptions(t.containers[i]);
      ApplyAllWrites(s.conventions, SetContainer(t, i, c), p, i, FactsAt(s, t, i));
    } else {
      MergeIsAssociative(t.labels, map[], map[]);
      MergeIsAssociative(t.annotations, map[], map[]);
    }
  }

  /** A successful run reports names and writes labels by the identity of the containers alone. */
  lemma {:induction false} RunReports(s: Server, t: PodTemplate, i: nat, u: PodTemplate)
    requires i <= |t.containers| && !RunFrom(s, t, i).failed && SameIdentity(t, u)
    ensures var o := RunFrom(s, t, i);
      && o.applied == NamesFrom(s, u, i)
      && o.t.labels == t.labels + LabelsFrom(s, u, i)
      && o.t.annotations == t.annotations + AnnotationsFrom(s, u, i, o.properties)
    decreases |t.containers| - i
  {
    if i == |t.containers| {
      MergeIsAssociative(t.labels, map[], map[]);
      MergeIsAssociative(t.annotations, map[], map[]);
    } else {
      var step, ps := StepContainer(s, t, i), RunFrom(s, t, i).properties;
      StepFrame(s, t, i, i);
      StepReports(s, t, i);
      RunReports(s, step.t, i + 1, u);
      MergeIsAssociative(t.labels, StepLabels(s, u, i), LabelsFrom(s, u, i + 1));
      MergeIsAssociative(t.annotations, StepAnnotations(s, u, i, ps[0]), AnnotationsFrom(s, u, i + 1, ps[1..]));
    }
  }

  // ----- stable templates -----

  /** Reading and printing container j restores it, and its conventions are settled for what is read. */
  ghost predicate Stable(s: Server, t: PodTemplate, j: nat)
    requires j < |t.containers|
  {
    HasMetadata(s, t, j) ==>
      var (c, p) := ReadOptions(t.containers[j]);
      WriteOptions(c, p) == t.containers[j] && AllSettled(s.conventions, t, p, j, FactsAt(s, t, j))
  }

  /** The properties that are read from a container with metadata. */
  function ReadBack(s: Server, c: Container): Option<Properties> {
    if c.image in s.images then Some(ReadOptions(c).1) else None
  }

  function ReadBacks(s: Server, cs: seq<Container>): (qs: seq<Option<Properties>>)
    ensures |qs| == |cs| && forall j | 0 <= j < |cs| :: qs[j] == ReadBack(s, cs[j])
  {
    if cs == [] then [] else [ReadBack(s, cs[0])] + ReadBacks(s, cs[1..])
  }

  lemma StableSameCore(s: Server, t: PodTemplate, u: PodTemplate, j: nat)
    requires SameCore(t, u) && j < |t.containers| && Stable(s, t, j)
    ensures Stable(s, u, j)
  {
    if HasMetadata(s, t, j) {
      var f, p := FactsAt(s, t, j), ReadOptions(t.containers[j]).1;
      forall k | 0 <= k < |s.conventions| && IsApplicable(s.conventions[k], f)
        ensures Settled(s.conventions[k], u, p, j)
      {
        SettledSameCore(s.conventions[k], t, p, j, u);
      }
    }
  }

  lemma StableStep(s: Server, t: PodTemplate, i: nat)
    requires i < |t.containers| && Stable(s, t, i)
    ensures var o := StepContainer(s, t, i); !o.failed && o.p == ReadBack(s, t.containers[i]) && SameCore(t, o.t)
  {
    if HasMetadata(s, t, i) {
      var f := FactsAt(s, t, i);
      var (c, p) := ReadOptions(t.containers[i]);
      var read := SetContainer(t, i, c);
      assert c == t.containers[i].(env := c.env);
      EnvIsLater(t, c, i, i);
      AllSettledLater(s.conventions, t, p, i, f, read);
      ReapplySettled(s.conventions, read, p, i, f);
      assert read.containers[i := t.containers[i]] == t.containers;
    }
  }

  ghost predicate StableFrom(s: Server, t: PodTemplate, i: nat) {
    forall j | i <= j < |t.containers| :: Stable(s, t, j)
  }

  lemma StableAfterStep(s: Server, t: PodTemplate, i: nat)
    requires i < |t.containers| && StableFrom(s, t, i)
    ensures var step := StepContainer(s, t, i);
      && !step.failed && step.p == ReadBack(s, t.containers[i])
      && SameCore(t, step.t) && StableFrom(s, step.t, i + 1)
  {
    var u := StepContainer(s, t, i).t;
    StableStep(s, t, i);
    forall j | i + 1 <= j < |t.containers| ensures Stable(s, u, j) {
      StableSameCore(s, t, u, j);
    }
  }

  /** A run over stable containers succeeds, prints the properties that it reads, and rewrites
      labels and annotations only. */
  lemma {:induction false} StableRun(s: Server, t: PodTemplate, i: nat)
    requires i <= |t.containers| && StableFrom(s, t, i)
    ensures var o := RunFrom(s, t, i);
      !o.failed && SameCore(t, o.t) && o.properties == ReadBacks(s, t.containers[i..])
    decreases |t.containers| - i
  {
    if i < |t.containers| {
      StableAfterStep(s, t, i);
      StableRun(s, StepContainer(s, t, i).t, i + 1);
      assert t.containers[i..][1..] == t.containers[i + 1..];
    }
  }

  lemma MergeTwice(a: map<string, string>, b: map<string, string>)
    ensures (a + b) + b == a + b
  {
  }

  /** A second run that succeeds reports the same names, leaves all labels, and writes the
      annotations of the properties it printed over those of the first. */
  lemma RerunReports(s: Server, t: PodTemplate)
    requires !RunFrom(s, t, 0).failed && !RunFrom(s, RunFrom(s, t, 0).t, 0).failed
    ensures var o := RunFrom(s, t, 0);
      var again := RunFrom(s, o.t, 0);
      && again.applied == o.applied && again.t.labels == o.t.labels
      && o.t.annotations == t.annotations + AnnotationsFrom(s, t, 0, o.properties)
      && again.t.annotations == o.t.annotations + AnnotationsFrom(s, t, 0, again.properties)
  {
    var o := RunFrom(s, t, 0);
    RunKeepsIdentity(s, t);
    RunReports(s, t, 0, t);
    RunReports(s, o.t, 0, t);
    MergeTwice(t.labels, LabelsFrom(s, t, 0));
  }

  // ----- clean options -----

  /** The options of every container with metadata are clean. */
  predicate CleanTemplate(s: Server, t: PodTemplate) {
    forall j | 0 <= j < |t.containers| && t.containers[j].image in s.images :: CleanOptions(t.containers[j])
  }

  lemma CleanIsStable(s: Server, t: PodTemplate, o: RunOutcome, j: nat)
    requires RunsTo(s, t, o) && CleanTemplate(s, t) && j < |t.containers|
    ensures Stable(s, o.t, j) && ReadBack(s, o.t.containers[j]) == o.properties[j]
  {
    if HasMetadata(s, t, j) {
      var c, p := t.containers[j], o.properties[j].value;
      OptionsFacts(c);
      CleanHead(OptionsOf(c).keep, p);
      PrintedReads(c, p, o.t.containers[j]);
      assert FactsAt(s, o.t, j) == FactsAt(s, t, j);
    }
  }

  lemma CleanReprints(s: Server, t: PodTemplate, o: RunOutcome)
    requires RunsTo(s, t, o) && CleanTemplate(s, t)
    ensures var again := RunFrom(s, o.t, 0);
      !again.failed && SameCore(o.t, again.t) && again.properties == o.properties
  {
    forall j | 0 <= j < |o.t.containers|
      ensures Stable(s, o.t, j) && ReadBack(s, o.t.containers[j]) == o.properties[j]
    {
      CleanIsStable(s, t, o, j);
    }
    StableRun(s, o.t, 0);
    assert o.t.containers[0..] == o.t.containers;
  }

  /** Convergence for any list of conventions of these kinds, in any order. */
  lemma RerunIsFixed(s: Server, t: PodTemplate)
    requires CleanTemplate(s, t) && !RunFrom(s, t, 0).failed
    ensures RunFrom(s, RunFrom(s, t, 0).t, 0) == RunFrom(s, t, 0)
  {
    var o := RunFrom(s, t, 0);
    RunOutcomeFacts(s, t);
    CleanReprints(s, t, o);
    RerunReports(s, t);
    MergeTwice(t.annotations, AnnotationsFrom(s, t, 0, o.properties));
  }

  /** Options whose only white space is ' ' are clean; other variables and containers do not matter. */
  lemma OnlySpaces(s: Server, t: PodTemplate)
    requires forall j | 0 <= j < |t.containers| && t.containers[j].image in s.images :: OnlySpacesIn(t.containers[j])
    ensures CleanTemplate(s, t)
  {
    forall j | 0 <= j < |t.containers| && t.containers[j].image in s.images ensures CleanOptions(t.containers[j]) {
      assert OnlySpacesIn(t.containers[j]);
      var at := FindEnvVar(t.containers[j].env, JAVA_TOOL_OPTIONS);
      if at.Some? {
        OnlySpacesIsClean(t.containers[j].env[at.value].value);
      }
    }
  }

  /** The container's options, if any, hold no white space but ' '. */
  predicate OnlySpacesIn(c: Container) {
    var at := FindEnvVar(c.env, JAVA_TOOL_OPTIONS);
    at.Some? ==>
      var value := c.env[at.value].value;
      forall n | 0 <= n < |value| :: IsSpace(value[n]) ==> value[n] == ' '
  }

  /** Convergence: a second run over the result of a successful run, with the same image
      metadata, succeeds, reports the same names and changes nothing at all. */
  lemma RunConverges(images: seq<ImageConfig>, semver: (string, string) -> bool, t: PodTemplate)
    requires CleanTemplate(SpringServer(images, semver), t)
    requires !Run(images, semver, t).failed
    ensures Run(images, semver, Run(images, semver, t).t) == Run(images, semver, t)
  {
    RerunIsFixed(SpringServer(images, semver), t);
  }
}
