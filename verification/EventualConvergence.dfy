/** Running the Spring Boot convention server again and again: once a run succeeds all later ones do,
    and after a number of runs that the options bound nothing changes any more. */
module EventualConvergence {
  import opened Wrappers
  import opened Text
  import opened Core
  import opened SpringProperties
  import opened RoundTrips
  import opened SpringBoot
  import opened Convergence
  import opened SpringRuns
  import opened RunConvergence
  import opened ExactConvergence

  /** The template after n runs, each over the result of the one before. */
  ghost function Repeated(s: Server, t: PodTemplate, n: nat): PodTemplate {
    if n == 0 then t else RunFrom(s, Repeated(s, t, n - 1), 0).t
  }

  function OneLess(m: nat): nat {
    if m == 0 then 0 else m - 1
  }

  // ----- what every run after the first starts from -----

  /** The options of container j settle within m passes, and its conventions are settled for what is
      read from them. */
  ghost predicate PreparedAt(s: Server, t: PodTemplate, j: nat, m: nat)
    requires j < |t.containers|
  {
    HasMetadata(s, t, j) ==>
      var c := t.containers[j];
      var at := FindEnvVar(c.env, JAVA_TOOL_OPTIONS);
      && at.Some? && SettlesWithin(c.env[at.value].value, m)
      && AllSettled(s.conventions, t, ReadOptions(c).1, j, FactsAt(s, t, j))
  }

  ghost predicate Prepared(s: Server, t: PodTemplate, m: nat) {
    forall j | 0 <= j < |t.containers| :: PreparedAt(s, t, j, m)
  }

  /** Reading a container and printing what was read is one pass over its options. */
  lemma PassReprints(c: Container, at: nat)
    requires FindEnvVar(c.env, JAVA_TOOL_OPTIONS) == Some(at)
    ensures var (k, p) := ReadOptions(c); WriteOptions(k, p) == SetOptions(c, at, Reprint(c.env[at].value))
    ensures FindEnvVar(SetOptions(c, at, Reprint(c.env[at].value)).env, JAVA_TOOL_OPTIONS) == Some(at)
  {
    var o := Parse(c.env[at].value);
    SetOptionsFacts(c, at, Join(o.keep, ' '), Print(Join(o.keep, ' '), o.properties));
    SetOptionsFacts(c, at, Reprint(c.env[at].value), "");
  }

  /** What is read after a pass has the values that were read before it, the last one trimmed. */
  lemma PassKeepsValues(c: Container, at: nat)
    requires FindEnvVar(c.env, JAVA_TOOL_OPTIONS) == Some(at)
    ensures KeepsValues(ReadOptions(c).1, ReadOptions(SetOptions(c, at, Reprint(c.env[at].value))).1)
  {
    var value := c.env[at].value;
    var o := Parse(value);
    SplitIsFree(value, ' ');
    ParseIsPrintable(Split(value, ' '));
    ParsePrint(o.keep, o.properties);
    RereadKeepsValues(o.keep, o.properties);
    SetOptionsFacts(c, at, Reprint(value), "");
  }

  /** With its conventions settled, a step is one pass over the options of its container. */
  lemma StepReprints(s: Server, t: PodTemplate, i: nat, at: nat)
    requires i < |t.containers| && HasMetadata(s, t, i)
    requires FindEnvVar(t.containers[i].env, JAVA_TOOL_OPTIONS) == Some(at)
    requires AllSettled(s.conventions, t, ReadOptions(t.containers[i]).1, i, FactsAt(s, t, i))
    ensures var o := StepContainer(s, t, i);
      var c := t.containers[i];
      !o.failed && SameCore(SetContainer(t, i, SetOptions(c, at, Reprint(c.env[at].value))), o.t)
  {
    var f, k := FactsAt(s, t, i), t.containers[i];
    var (c, p) := ReadOptions(k);
    var read := SetContainer(t, i, c);
    assert c == k.(env := c.env);
    EnvIsLater(t, c, i, i);
    AllSettledLater(s.conventions, t, p, i, f, read);
    ReapplySettled(s.conventions, read, p, i, f);
    PassReprints(k, at);
    assert read.containers[i := WriteOptions(c, p)] == t.containers[i := WriteOptions(c, p)];
  }

  lemma PreparedStep(s: Server, t: PodTemplate, i: nat, m: nat)
    requires i < |t.containers| && PreparedAt(s, t, i, m) && ProbesComeWithActuator(s.conventions)
    ensures !StepContainer(s, t, i).failed && PreparedAt(s, StepContainer(s, t, i).t, i, OneLess(m))
  {
    if HasMetadata(s, t, i) {
      var c, f := t.containers[i], FactsAt(s, t, i);
      var at := FindEnvVar(c.env, JAVA_TOOL_OPTIONS).value;
      var d := SetOptions(c, at, Reprint(c.env[at].value));
      var p, q := ReadOptions(c).1, ReadOptions(d).1;
      StepReprints(s, t, i, at);
      PassReprints(c, at);
      PassKeepsValues(c, at);
      EnvIsLater(t, d, i, i);
      AllSettledLater(s.conventions, t, p, i, f, SetContainer(t, i, d));
      SettledForReadBack(s.conventions, SetContainer(t, i, d), p, q, i, f);
      PreparedSameCore(s, SetContainer(t, i, d), StepContainer(s, t, i).t, i, OneLess(m));
    }
  }

  lemma PreparedSameCore(s: Server, t: PodTemplate, u: PodTemplate, j: nat, m: nat)
    requires SameCore(t, u) && j < |t.containers| && PreparedAt(s, t, j, m)
    ensures PreparedAt(s, u, j, m)
  {
    if HasMetadata(s, t, j) {
      var f, p := FactsAt(s, t, j), ReadOptions(t.containers[j]).1;
      forall k | 0 <= k < |s.conventions| && IsApplicable(s.conventions[k], f)
        ensures Settled(s.conventions[k], u, p, j)
      {
        SettledSameCore(s.conventions[k], t, p, j, u);
      }
    }
  }

  lemma PreparedElsewhere(s: Server, t: PodTemplate, i: nat, j: nat, m: nat)
    requires i < |t.containers| && j < |t.containers| && j != i
    requires !StepContainer(s, t, i).failed && PreparedAt(s, t, j, m)
    ensures PreparedAt(s, StepContainer(s, t, i).t, j, m)
  {
    var u := StepContainer(s, t, i).t;
    StepFrame(s, t, i, j);
    if HasMetadata(s, t, j) {
      AllSettledLater(s.conventions, t, ReadOptions(t.containers[j]).1, j, FactsAt(s, t, j), u);
    }
  }

  /** The containers before i have had their pass of the run, the others have not. */
  ghost predicate HalfPrepared(s: Server, t: PodTemplate, i: nat, m: nat) {
    forall j | 0 <= j < |t.containers| :: PreparedAt(s, t, j, PassesLeft(m, i, j))
  }

  function PassesLeft(m: nat, i: nat, j: nat): nat {
    if j < i then OneLess(m) else m
  }

  lemma HalfPreparedStep(s: Server, t: PodTemplate, i: nat, m: nat)
    requires i < |t.containers| && HalfPrepared(s, t, i, m) && ProbesComeWithActuator(s.conventions)
    ensures !StepContainer(s, t, i).failed && HalfPrepared(s, StepContainer(s, t, i).t, i + 1, m)
  {
    var u := StepContainer(s, t, i).t;
    assert PreparedAt(s, t, i, PassesLeft(m, i, i));
    PreparedStep(s, t, i, m);
    var next := i + 1;
    forall j | 0 <= j < |u.containers| ensures PreparedAt(s, u, j, PassesLeft(m, next, j)) {
      if j != i {
        PreparedElsewhere(s, t, i, j, PassesLeft(m, i, j));
      }
    }
  }

  /** A run over a prepared template succeeds and leaves one pass less to do. */
  lemma {:induction false} PreparedRun(s: Server, t: PodTemplate, i: nat, m: nat)
    requires i <= |t.containers| && HalfPrepared(s, t, i, m) && ProbesComeWithActuator(s.conventions)
    ensures !RunFrom(s, t, i).failed && Prepared(s, RunFrom(s, t, i).t, OneLess(m))
    decreases |t.containers| - i
  {
    if i < |t.containers| {
      HalfPreparedStep(s, t, i, m);
      PreparedRun(s, StepContainer(s, t, i).t, i + 1, m);
    } else {
      forall j | 0 <= j < |t.containers| ensures PreparedAt(s, t, j, OneLess(m)) {
        assert PreparedAt(s, t, j, PassesLeft(m, i, j));
      }
    }
  }

  // ----- the first run -----

  function Most(a: nat, b: nat): nat {
    if a < b then b else a
  }

  /** How many words of the container's options are no properties. */
  function KeptCount(s: Server, c: Container): nat {
    if c.image in s.images then |OptionsOf(c).keep| else 0
  }

  /** The largest such number of all containers with metadata. */
  function MostKept(s: Server, cs: seq<Container>): nat {
    if cs == [] then 0 else Most(KeptCount(s, cs[0]), MostKept(s, cs[1..]))
  }

  lemma {:induction false} MostKeptBounds(s: Server, cs: seq<Container>, j: nat)
    requires j < |cs|
    ensures KeptCount(s, cs[j]) <= MostKept(s, cs)
  {
    if j > 0 {
      MostKeptBounds(s, cs[1..], j - 1);
    }
  }

  lemma FirstRunPrepares(s: Server, t: PodTemplate, o: RunOutcome, j: nat)
    requires RunsTo(s, t, o) && j < |t.containers| && ProbesComeWithActuator(s.conventions)
    ensures PreparedAt(s, o.t, j, MostKept(s, t.containers))
  {
    if HasMetadata(s, t, j) {
      MostKeptBounds(s, t.containers, j);
      RememberedIsPrepared(s, t, j, o.properties[j].value, o.t, MostKept(s, t.containers));
    }
  }

  lemma RememberedIsPrepared(s: Server, t: PodTemplate, j: nat, p: Properties, final: PodTemplate, m: nat)
    requires j < |t.containers| && HasMetadata(s, t, j) && SameIdentity(t, final)
    requires Remembers(s, t, j, p, final) && ProbesComeWithActuator(s.conventions)
    requires |OptionsOf(t.containers[j]).keep| <= m
    ensures PreparedAt(s, final, j, m)
  {
    var c, d := t.containers[j], final.containers[j];
    var keep := OptionsOf(c).keep;
    var at := PrintedText(c, p, d);
    OptionsFacts(c);
    PrintSettlesWithin(keep, p);
    SettlesWithinMore(d.env[at].value, |keep|, m);
    PrintedReads(c, p, d);
    RereadKeepsValues(keep, p);
    SettledForReadBack(s.conventions, final, p, ReadOptions(d).1, j, FactsAt(s, t, j));
    assert FactsAt(s, final, j) == FactsAt(s, t, j);
  }

  // ----- the last runs -----

  lemma PreparedIsStable(s: Server, t: PodTemplate, j: nat)
    requires j < |t.containers| && PreparedAt(s, t, j, 0)
    ensures Stable(s, t, j)
  {
    if HasMetadata(s, t, j) {
      var c := t.containers[j];
      var at := FindEnvVar(c.env, JAVA_TOOL_OPTIONS).value;
      PassReprints(c, at);
      SetOptionsFacts(c, at, "", "");
    }
  }

  /** Once all options are settled one more run writes the annotations that stay. */
  lemma StableRunIsFixed(s: Server, t: PodTemplate)
    requires StableFrom(s, t, 0)
    ensures var u := RunFrom(s, t, 0).t; !RunFrom(s, u, 0).failed && RunFrom(s, u, 0).t == u
  {
    var o := RunFrom(s, t, 0);
    StableRun(s, t, 0);
    forall j | 0 <= j < |o.t.containers| ensures Stable(s, o.t, j) {
      StableSameCore(s, t, o.t, j);
    }
    StableRun(s, o.t, 0);
    RerunReports(s, t);
    MergeTwice(t.annotations, AnnotationsFrom(s, t, 0, o.properties));
  }

  // ----- all runs -----

  lemma WholeRunPrepares(s: Server, t: PodTemplate, m: nat)
    requires Prepared(s, t, m) && ProbesComeWithActuator(s.conventions)
    ensures !RunFrom(s, t, 0).failed && Prepared(s, RunFrom(s, t, 0).t, OneLess(m))
  {
    PreparedRun(s, t, 0, m);
  }

  lemma FirstIsPrepared(s: Server, t: PodTemplate)
    requires !RunFrom(s, t, 0).failed && ProbesComeWithActuator(s.conventions)
    ensures Prepared(s, RunFrom(s, t, 0).t, MostKept(s, t.containers))
  {
    RunOutcomeFacts(s, t);
    forall j | 0 <= j < |t.containers| ensures PreparedAt(s, RunFrom(s, t, 0).t, j, MostKept(s, t.containers)) {
      FirstRunPrepares(s, t, RunFrom(s, t, 0), j);
    }
  }

  /** What is left of m passes after n runs, of which the first only prepares. */
  function PassesAfter(m: nat, n: nat): nat {
    if n <= 1 then m else OneLess(PassesAfter(m, n - 1))
  }

  lemma {:induction false} PassesRunOut(m: nat, n: nat)
    requires n >= 1
    ensures PassesAfter(m, n) == if n <= m + 1 then m + 1 - n else 0
  {
    if n > 1 {
      PassesRunOut(m, n - 1);
    }
  }

  lemma {:induction false} RepeatedIsPrepared(s: Server, t: PodTemplate, n: nat)
    requires !RunFrom(s, t, 0).failed && ProbesComeWithActuator(s.conventions) && n >= 1
    ensures Prepared(s, Repeated(s, t, n), PassesAfter(MostKept(s, t.containers), n))
  {
    if n == 1 {
      FirstIsPrepared(s, t);
      assert Repeated(s, t, 0) == t;
    } else {
      RepeatedIsPrepared(s, t, n - 1);
      WholeRunPrepares(s, Repeated(s, t, n - 1), PassesAfter(MostKept(s, t.containers), n - 1));
    }
  }

  lemma RepeatedSucceeds(s: Server, t: PodTemplate, n: nat)
    requires !RunFrom(s, t, 0).failed && ProbesComeWithActuator(s.conventions)
    ensures !RunFrom(s, Repeated(s, t, n), 0).failed
  {
    if n > 0 {
      RepeatedIsPrepared(s, t, n);
      WholeRunPrepares(s, Repeated(s, t, n), PassesAfter(MostKept(s, t.containers), n));
    }
  }

  lemma PreparedIsFixed(s: Server, t: PodTemplate, u: PodTemplate)
    requires Prepared(s, t, 0) && u == RunFrom(s, t, 0).t
    ensures RunFrom(s, u, 0).t == u
  {
    forall j | 0 <= j < |t.containers| ensures Stable(s, t, j) {
      PreparedIsStable(s, t, j);
    }
    StableRunIsFixed(s, t);
  }

  lemma RepeatedStep(s: Server, t: PodTemplate, n: nat)
    ensures Repeated(s, t, n + 1) == RunFrom(s, Repeated(s, t, n), 0).t
  {
  }

  lemma {:induction false} RepeatedStays(s: Server, t: PodTemplate, k: nat, n: nat)
    requires k <= n && Repeated(s, t, k + 1) == Repeated(s, t, k)
    ensures Repeated(s, t, n + 1) == Repeated(s, t, n)
  {
    if k < n {
      RepeatedStays(s, t, k, n - 1);
      RepeatedStep(s, t, n);
      RepeatedStep(s, t, n - 1);
    }
  }

  lemma RepeatedIsFixed(s: Server, t: PodTemplate, n: nat)
    requires !RunFrom(s, t, 0).failed && ProbesComeWithActuator(s.conventions)
    requires n >= MostKept(s, t.containers) + 2
    ensures Repeated(s, t, n + 1) == Repeated(s, t, n)
  {
    PreparedForLast(s, t, MostKept(s, t.containers) + 1);
    FixedBehind(s, t, MostKept(s, t.containers) + 1);
    RepeatedStays(s, t, MostKept(s, t.containers) + 2, n);
  }

  /** The run that finds all options settled. */
  lemma PreparedForLast(s: Server, t: PodTemplate, k: nat)
    requires !RunFrom(s, t, 0).failed && ProbesComeWithActuator(s.conventions)
    requires k == MostKept(s, t.containers) + 1
    ensures Prepared(s, Repeated(s, t, k), 0)
  {
    RepeatedIsPrepared(s, t, k);
    PassesRunOut(k - 1, k);
  }

  lemma FixedBehind(s: Server, t: PodTemplate, k: nat)
    requires Prepared(s, Repeated(s, t, k), 0)
    ensures Repeated(s, t, k + 2) == Repeated(s, t, k + 1)
  {
    RepeatedStep(s, t, k);
    RepeatedStep(s, t, k + 1);
    PreparedIsFixed(s, Repeated(s, t, k), Repeated(s, t, k + 1));
  }

  lemma SameIdentityTransitive(t: PodTemplate, u: PodTemplate, v: PodTemplate)
    requires SameIdentity(u, v) && SameIdentity(u, t)
    ensures SameIdentity(v, t)
  {
  }

  lemma {:induction false} RepeatedIdentity(s: Server, t: PodTemplate, n: nat)
    requires !RunFrom(s, t, 0).failed && ProbesComeWithActuator(s.conventions)
    ensures SameIdentity(Repeated(s, t, n), t)
  {
    if n > 0 {
      var u := Repeated(s, t, n - 1);
      RepeatedIdentity(s, t, n - 1);
      RepeatedSucceeds(s, t, n - 1);
      RunKeepsIdentity(s, u);
      SameIdentityTransitive(t, u, Repeated(s, t, n));
    }
  }

  lemma RepeatedNames(s: Server, t: PodTemplate, n: nat)
    requires !RunFrom(s, t, 0).failed && ProbesComeWithActuator(s.conventions)
    ensures RunFrom(s, Repeated(s, t, n), 0).applied == RunFrom(s, t, 0).applied
  {
    RepeatedIdentity(s, t, n);
    RepeatedSucceeds(s, t, n);
    RunReports(s, Repeated(s, t, n), 0, t);
    RunReports(s, t, 0, t);
  }

  /** Eventual convergence: once a run of the server succeeds, so does every further run over its
      result, with the same names; and with at most m words in the options of a container that are
      no properties, the template is the same from the result of run m + 2 on. */
  lemma RunsConvergeEventually(images: seq<ImageConfig>, semver: (string, string) -> bool, t: PodTemplate, n: nat)
    requires !Run(images, semver, t).failed
    ensures var s := SpringServer(images, semver);
      var u := Repeated(s, t, n);
      && !Run(images, semver, u).failed
      && Run(images, semver, u).applied == Run(images, semver, t).applied
      && (n >= MostKept(s, t.containers) + 2 ==> Run(images, semver, u).t == u)
  {
    var s := SpringServer(images, semver);
    SpringConventions();
    RepeatedSucceeds(s, t, n);
    RepeatedNames(s, t, n);
    if n >= MostKept(s, t.containers) + 2 {
      RepeatedIsFixed(s, t, n);
    }
  }
}
